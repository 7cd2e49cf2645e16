/**
 * Lease conservation: every lease period that is ever granted is accounted for exactly once.
 * `endings` is a history variable, derived from what each batch does to the lease rows.
 */
module LeaseHistory {
  import opened Basics
  import opened ReceiptLog
  import opened WorkflowTables

  datatype How = Expired | Completed | Deferred | Released

  /** The lease period identified by `token` ended in this way, through this call's batch. */
  datatype Ending = Ending(token: int, job: int, how: How, request: int)

  datatype Traced = Traced(db: Db, endings: seq<Ending>)

  function HowOf(b: Batch): How {
    match b
    case Claim(_, _, _, _) => Expired
    case Accept(_, _, _, _, _, _, _) => Completed
    case Defer(_, _, _, _, _, _, _, _) => Deferred
    case _ => Released
  }

  predicate Ends(db: Db, b: Batch) {
    b.job in db.leases && LeaseOf(Execute(db, b), b.job) != LeaseOf(db, b.job)
  }

  function EndingOf(db: Db, b: Batch): Ending
    requires Ends(db, b)
  {
    Ending(db.leases[b.job].token, b.job, HowOf(b), b.request)
  }

  function Next(t: Traced, b: Batch): Traced {
    Traced(Execute(t.db, b), if Ends(t.db, b) then t.endings + [EndingOf(t.db, b)] else t.endings)
  }

  function One(b: bool): nat { if b then 1 else 0 }

  function Events(events: seq<Event>, kind: EventKind, job: int): nat {
    if events == [] then 0 else
      var last := events[|events| - 1];
      Events(events[..|events| - 1], kind, job) + One(last.kind == kind && last.job == job)
  }

  function Endings(endings: seq<Ending>, how: How, job: int): nat {
    if endings == [] then 0 else
      var last := endings[|endings| - 1];
      Endings(endings[..|endings| - 1], how, job) + One(last.how == how && last.job == job)
  }

  lemma {:induction false} EventsSnoc(events: seq<Event>, e: Event, kind: EventKind, job: int)
    ensures Events(events + [e], kind, job) == Events(events, kind, job) + One(e.kind == kind && e.job == job)
  {
    assert (events + [e])[..|events|] == events;
  }

  lemma {:induction false} EndingsSnoc(endings: seq<Ending>, e: Ending, how: How, job: int)
    ensures Endings(endings + [e], how, job) == Endings(endings, how, job) + One(e.how == how && e.job == job)
  {
    assert (endings + [e])[..|endings|] == endings;
  }

  /** The books of one job balance. */
  ghost predicate Balanced(t: Traced, job: int) {
    && Events(t.db.log.events, LEASE_EXPIRED, job) == Endings(t.endings, Expired, job)
    && Events(t.db.log.events, COMPLETED, job) == Endings(t.endings, Completed, job)
    && One(job in t.db.deferrals) == Endings(t.endings, Deferred, job)
    && Events(t.db.log.events, CLAIMED, job) ==
         Endings(t.endings, Expired, job) + Endings(t.endings, Completed, job)
         + Endings(t.endings, Deferred, job) + Endings(t.endings, Released, job)
         + One(job in t.db.leases)
  }

  /** A lease period ends at most once, and never while its row exists. */
  ghost predicate EndedOnce(t: Traced) {
    && (forall i :: 0 <= i < |t.endings| ==> t.endings[i].token < t.db.nextId)
    && (forall i, j :: 0 <= i < j < |t.endings| ==> t.endings[i].token != t.endings[j].token)
    && (forall i, j :: 0 <= i < |t.endings| && j in t.db.leases ==> t.endings[i].token != t.db.leases[j].token)
  }

  ghost predicate Ended(t: Traced, job: int, how: How, request: int) {
    exists i :: 0 <= i < |t.endings|
      && t.endings[i].job == job && t.endings[i].how == how && t.endings[i].request == request
  }

  /** Every formal result and every deferral consumed a lease period of its job. */
  ghost predicate Credited(t: Traced) {
    && (forall k :: k in t.db.proposals && IsFormalResult(t.db.proposals[k], t.db.proposals[k].job) ==>
          Ended(t, t.db.proposals[k].job, Completed, t.db.proposals[k].request))
    && (forall j :: j in t.db.deferrals ==> Ended(t, j, Deferred, t.db.deferrals[j].request))
  }

  ghost predicate HistoryInv(t: Traced) {
    Inv(t.db) && EndedOnce(t) && Credited(t) && forall job :: Balanced(t, job)
  }

  lemma {:induction false} EmptyHistory()
    ensures HistoryInv(Traced(EMPTY, []))
  {
    EmptyInv();
  }

  lemma {:induction false} NextKeepsEndedOnce(t: Traced, b: Batch)
    requires Inv(t.db) && EndedOnce(t)
    ensures EndedOnce(Next(t, b))
  {
    hide Execute, LogInv, ProposalInv, TerminalInv, DeferralInv;
    var u := Next(t, b);
    LeaseEvolution(t.db, b, b.job);
    forall j | j in u.db.leases
      ensures u.db.leases[j].token == Drawn(t.db) || (j in t.db.leases && u.db.leases[j] == t.db.leases[j])
    {
      LeaseEvolution(t.db, b, j);
    }
    forall i, j | 0 <= i < |u.endings| && j in u.db.leases ensures u.endings[i].token != u.db.leases[j].token {
      LeaseEvolution(t.db, b, j);
    }
  }

  lemma {:induction false} EmitCounts(db: Db, j: int, k: EventKind, actor: Principal, p: Option<int>,
          request: int, at: int, kind: EventKind, job: int)
    ensures Events(Emit(db, j, k, actor, p, request, at).log.events, kind, job)
         == Events(db.log.events, kind, job) + One(k == kind && j == job)
  {
    EventsSnoc(db.log.events, Event(db.nextId, j, k, actor, p, request, at), kind, job);
  }

  /** Whether a batch records the given kind of lease transition. */
  predicate Records(db: Db, b: Batch, kind: EventKind) {
    match kind
    case LEASE_EXPIRED => b.Claim? && Preemptable(db, b.job, b.now) && b.job in db.leases
    case CLAIMED => b.Claim? && Preemptable(db, b.job, b.now)
    case COMPLETED => Completes(db, b) && !Violates(db, b)
    case _ => false
  }

  lemma {:induction false} ClaimTransitions(db: Db, b: Batch, kind: EventKind, job: int)
    requires b.Claim? && kind in {LEASE_EXPIRED, CLAIMED, COMPLETED}
    ensures Events(DoClaim(db, b).log.events, kind, job)
         == Events(db.log.events, kind, job) + One(Records(db, b, kind) && b.job == job)
  {
    hide Emit;
    if Preemptable(db, b.job, b.now) {
      if b.job in db.leases {
        EmitCounts(Draw(db), b.job, LEASE_EXPIRED, db.leases[b.job].owner, None, b.request, b.now, kind, job);
      }
      EmitCounts(Grant(db, b), b.job, CLAIMED, b.owner, None, b.request, b.now, kind, job);
    }
  }

  lemma {:induction false} AcceptTransitions(db: Db, b: Batch, kind: EventKind, job: int)
    requires b.Accept? && !Violates(db, b) && kind in {LEASE_EXPIRED, CLAIMED, COMPLETED}
    ensures Events(DoAccept(db, b).log.events, kind, job)
         == Events(db.log.events, kind, job) + One(Records(db, b, kind) && b.job == job)
  {
    hide Emit;
    if Completes(db, b) {
      EmitCounts(StoreResult(db, b), b.job, SUBMIT_RECEIVED, b.owner, Some(Drawn(db)), b.request, b.now, kind, job);
      EmitCounts(AuditReceipt(db, b), b.job, COMPLETED, b.owner, Some(Drawn(db)), b.request, b.now, kind, job);
    }
  }

  lemma {:induction false} RecordedTransitions(db: Db, b: Batch, kind: EventKind, job: int)
    requires kind in {LEASE_EXPIRED, CLAIMED, COMPLETED}
    ensures Events(Execute(db, b).log.events, kind, job)
         == Events(db.log.events, kind, job) + One(Records(db, b, kind) && b.job == job)
  {
    hide Emit, DoClaim, DoAccept, DoDefer, Events, HasFormalResult, DeferKeyUsed;
    match b
    case Claim(_, _, _, _) => ClaimTransitions(db, b, kind, job);
    case Deny(j, owner, now, request) => EmitCounts(db, j, CLAIM_DENIED, owner, None, request, now, kind, job);
    case Conflict(j, existing, owner, now, request) =>
      EmitCounts(db, j, SUBMIT_CONFLICT, owner, Some(existing), request, now, kind, job);
    case Reject(j, _, owner, _, _, _, now, request) =>
      EmitCounts(StoreProposal(db, b), j, SUBMIT_REJECTED, owner, Some(Drawn(db)), request, now, kind, job);
    case AcceptSynthetic(j, _, owner, _, _, now, request) =>
      EmitCounts(StoreProposal(db, b), j, SUBMIT_RECEIVED, owner, Some(Drawn(db)), request, now, kind, job);
    case Accept(_, _, _, _, _, _, _) => if !Violates(db, b) { AcceptTransitions(db, b, kind, job); }
    case Defer(_, _, _, _, _, _, _, _) => assert DoDefer(db, b).log == db.log by { DeferIsNotLogged(db, b); }
  }

  lemma {:induction false} DeferIsNotLogged(db: Db, b: Batch)
    requires b.Defer?
    ensures DoDefer(db, b).log == db.log
  {
  }

  /** What a batch does to the lease row of its job, in terms of the same transitions. */
  lemma {:induction false} LeaseTransitions(t: Traced, b: Batch)
    requires TerminalInv(t.db)
    ensures var u := Execute(t.db, b);
      && (Ends(t.db, b) <==> b.job in t.db.leases && (b.job !in u.leases || Records(t.db, b, CLAIMED)))
      && (Records(t.db, b, CLAIMED) ==> b.Claim? && b.job in u.leases)
      && (Records(t.db, b, COMPLETED) ==> b.job in t.db.leases && b.job !in u.leases)
      && (b.job !in t.db.leases && b.job in u.leases ==> Records(t.db, b, CLAIMED))
      && (forall j :: j != b.job ==> (j in u.leases <==> j in t.db.leases))
  {
    hide HasFormalResult, DeferKeyUsed, Append;
  }

  /** Which batch ends a lease period, and how the ending is booked. */
  lemma {:induction false} EndingTransitions(t: Traced, b: Batch)
    requires TerminalInv(t.db)
    ensures Records(t.db, b, LEASE_EXPIRED) <==> b.Claim? && Ends(t.db, b)
    ensures Records(t.db, b, COMPLETED) <==> b.Accept? && Ends(t.db, b)
    ensures b.job in Execute(t.db, b).deferrals && b.job !in t.db.deferrals <==> b.Defer? && Ends(t.db, b)
  {
    hide HasFormalResult, DeferKeyUsed, Append;
  }

  lemma {:induction false} DeferralTransitions(db: Db, b: Batch)
    ensures b.job in db.deferrals ==> b.job in Execute(db, b).deferrals
    ensures forall j :: j != b.job ==> (j in Execute(db, b).deferrals <==> j in db.deferrals)
  {
    hide HasFormalResult, DeferKeyUsed, Append;
  }

  /**
   * A period is booked as released exactly when the batch is an unviolated synthetic accept and
   * its job had a lease row, which it removes whoever holds it.
   */
  lemma {:induction false} ReleasedBySynthetic(db: Db, b: Batch)
    ensures Ends(db, b) && HowOf(b) == Released <==> b.AcceptSynthetic? && !Violates(db, b) && b.job in db.leases
    ensures Ends(db, b) && HowOf(b) == Released ==> b.job !in Execute(db, b).leases
  {
    hide HasFormalResult, DeferKeyUsed, Append;
  }

  lemma {:induction false} NextBalances(t: Traced, b: Batch, job: int)
    requires Inv(t.db) && Balanced(t, job)
    ensures Balanced(Next(t, b), job)
  {
    hide Execute, Records, TerminalInv, Events, Endings, Ends;
    RecordedTransitions(t.db, b, LEASE_EXPIRED, job);
    RecordedTransitions(t.db, b, CLAIMED, job);
    RecordedTransitions(t.db, b, COMPLETED, job);
    assert TerminalInv(t.db);
    LeaseTransitions(t, b);
    EndingTransitions(t, b);
    DeferralTransitions(t.db, b);
    if Ends(t.db, b) {
      forall how ensures Endings(Next(t, b).endings, how, job)
        == Endings(t.endings, how, job) + One(HowOf(b) == how && b.job == job)
      {
        EndingsSnoc(t.endings, EndingOf(t.db, b), how, job);
      }
    }
  }

  lemma {:induction false} EndedIsKept(t: Traced, b: Batch, job: int, how: How, request: int)
    requires Ended(t, job, how, request)
    ensures Ended(Next(t, b), job, how, request)
  {
    hide Execute, Ends;
    var i :| 0 <= i < |t.endings|
      && t.endings[i].job == job && t.endings[i].how == how && t.endings[i].request == request;
    assert Next(t, b).endings[i] == t.endings[i];
  }

  lemma {:induction false} NewRowsEndLeases(db: Db, b: Batch)
    requires WellBound(b)
    ensures Stores(db, b) && b.Accept? ==> Ends(db, b)
    ensures b.job in Execute(db, b).deferrals && b.job !in db.deferrals ==>
      b.Defer? && Ends(db, b) && Execute(db, b).deferrals[b.job].request == b.request
    ensures forall j :: j in Execute(db, b).deferrals && j !in db.deferrals ==> j == b.job
  {
  }

  lemma {:induction false} NextKeepsCredited(t: Traced, b: Batch)
    requires Credited(t) && WellBound(b)
    ensures Credited(Next(t, b))
  {
    hide Execute, Ended, Ends, Violates;
    var u := Next(t, b);
    StoredRows(t.db, b);
    RowsAreKept(t.db, b);
    NewRowsEndLeases(t.db, b);
    forall k | k in u.db.proposals && IsFormalResult(u.db.proposals[k], u.db.proposals[k].job)
      ensures Ended(u, u.db.proposals[k].job, Completed, u.db.proposals[k].request)
    {
      if k in t.db.proposals {
        EndedIsKept(t, b, u.db.proposals[k].job, Completed, u.db.proposals[k].request);
      } else {
        LastEnding(t, b);
      }
    }
    forall j | j in u.db.deferrals ensures Ended(u, j, Deferred, u.db.deferrals[j].request) {
      if j in t.db.deferrals {
        EndedIsKept(t, b, j, Deferred, u.db.deferrals[j].request);
      } else {
        LastEnding(t, b);
      }
    }
  }

  lemma {:induction false} LastEnding(t: Traced, b: Batch)
    requires Ends(t.db, b)
    ensures Ended(Next(t, b), b.job, HowOf(b), b.request)
  {
    hide Execute, Ends;
    assert Next(t, b).endings[|t.endings|] == EndingOf(t.db, b);
  }

  /** Lease conservation, one batch. */
  lemma {:induction false} NextKeepsHistory(t: Traced, b: Batch)
    requires HistoryInv(t) && WellBound(b)
    ensures HistoryInv(Next(t, b))
  {
    hide Inv, EndedOnce, Balanced, Execute, Credited;
    NextKeepsCredited(t, b);
    assert EndedOnce(Next(t, b)) by { NextKeepsEndedOnce(t, b); }
    ExecuteKeepsInv(t.db, b);
    forall job ensures Balanced(Next(t, b), job) {
      assert Balanced(t, job);
      NextBalances(t, b, job);
    }
  }
}
