/**
 * What the invariants say about whole runs: who wins a job, what every answer means, what a
 * taken key prevents, and how lease generations fence each other.
 */
module WorkflowAnswers {
  import opened Basics
  import opened ReceiptLog
  import opened WorkflowTables
  import opened LeaseHistory
  import opened WorkflowCalls
  import opened WorkflowRuns

  predicate SubmitDone(w: World, r: int) {
    r in w.calls && w.calls[r].SubmitCall? && w.calls[r].spc.SDone?
  }

  predicate DeferDone(w: World, r: int) {
    r in w.calls && w.calls[r].DeferCall? && w.calls[r].dpc.DDone?
  }

  predicate Won(w: World, r: int) {
    SubmitDone(w, r) && w.calls[r].spc.answer.Accepted?
  }

  predicate DeferWon(w: World, r: int) {
    DeferDone(w, r) && w.calls[r].dpc.answer.DeferAccepted?
  }

  /** The formal row this call's own batch inserted, if any. */
  ghost predicate WroteFormalResult(w: World, r: int) {
    exists k :: k in w.tables.db.proposals && w.tables.db.proposals[k].request == r
      && IsFormalResult(w.tables.db.proposals[k], w.tables.db.proposals[k].job)
  }

  ghost predicate WroteDeferral(w: World, r: int) {
    exists j :: j in w.tables.db.deferrals && w.tables.db.deferrals[j].request == r
  }

  // ---------------------------------------------------------------------------------------
  // Safety over every interleaving
  // ---------------------------------------------------------------------------------------

  /** A job is terminal iff it has exactly one formal result; the terminal names it and bars leases. */
  lemma {:induction false} OneResultPerJob(run: seq<World>, n: nat, job: int)
    requires Run(run) && n < |run|
    ensures var db := run[n].tables.db;
      && (job in db.terminals <==> HasFormalResult(db, job))
      && (job in db.terminals ==> job !in db.leases)
      && (forall k, l | k in db.proposals && l in db.proposals ::
            IsFormalResult(db.proposals[k], job) && IsFormalResult(db.proposals[l], job) ==> k == l)
      && (forall k :: k in db.proposals && IsFormalResult(db.proposals[k], job) ==>
            db.terminals[job] == Terminal(db.proposals[k].id, db.proposals[k].createdAt))
  {
    ReachableInv(run, n);
    TerminalIffOneFormalResult(run[n].tables.db, job);
  }

  /** The partial unique index never stops the batch of a formal submit, in any reachable world. */
  lemma {:induction false} FormalIndexIsNeverHit(run: seq<World>, n: nat, b: Batch)
    requires Run(run) && n < |run| && b.Accept? && Violates(run[n].tables.db, b)
    ensures b.key in run[n].tables.db.proposals && !HasFormalResult(run[n].tables.db, b.job)
  {
    ReachableInv(run, n);
    PartialIndexIsNeverHit(run[n].tables.db, b);
    TerminalIffOneFormalResult(run[n].tables.db, b.job);
  }

  /**
   * Lease conservation: every CLAIMED event is matched by exactly one expiry, completion,
   * deferral or synthetic release, or by the lease row that exists now.
   */
  lemma {:induction false} LeaseConservation(run: seq<World>, n: nat, job: int)
    requires Run(run) && n < |run|
    ensures var t := run[n].tables;
      Events(t.db.log.events, CLAIMED, job) ==
        Events(t.db.log.events, LEASE_EXPIRED, job) + Events(t.db.log.events, COMPLETED, job)
        + One(job in t.db.deferrals) + Endings(t.endings, Released, job) + One(job in t.db.leases)
  {
    ReachableInv(run, n);
    assert Balanced(run[n].tables, job);
  }

  // ---------------------------------------------------------------------------------------
  // The meaning of the answers
  // ---------------------------------------------------------------------------------------

  lemma {:induction false} AnsweredSubmit(w: World, r: int)
    requires WorldInv(w) && SubmitDone(w, r)
    ensures var db, c := w.tables.db, w.calls[r];
      && ProposalInv(db) && AnswerHolds(db, r, c.submit, c.own, c.spc.answer) && SubmitRows(db, r, c.submit, c.own)
  {
    assert CallInv(w.tables.db, r, w.calls[r]);
  }

  /** ACCEPTED iff this call's own batch inserted its proposal and its terminal row. */
  lemma {:induction false} AcceptedIffOwnBatchWon(run: seq<World>, n: nat, r: int)
    requires Run(run) && n < |run| && SubmitDone(run[n], r)
    ensures Won(run[n], r) <==> WroteFormalResult(run[n], r)
    ensures Won(run[n], r) ==>
      var i, db := run[n].calls[r].submit, run[n].tables.db;
      i.job in db.terminals && db.terminals[i.job].proposal == run[n].calls[r].spc.answer.proposal
  {
    ReachableInv(run, n);
    AnsweredSubmit(run[n], r);
    hide WorldInv, Run, ProposalInv;
    if Won(run[n], r) {
      var db, i := run[n].tables.db, run[n].calls[r].submit;
      assert IsFormalResult(db.proposals[i.key], db.proposals[i.key].job);
    }
  }

  /** At most one call per job is ever answered ACCEPTED. */
  lemma {:induction false} AtMostOneAccepted(run: seq<World>, n: nat, r: int, q: int)
    requires Run(run) && n < |run| && Won(run[n], r) && Won(run[n], q)
    requires run[n].calls[r].submit.job == run[n].calls[q].submit.job
    ensures r == q
  {
    ReachableInv(run, n);
    AnsweredSubmit(run[n], r);
    AnsweredSubmit(run[n], q);
    hide WorldInv, Run, SubmitRows;
  }

  /** DEFERRED iff this call's own batch inserted the deferral. */
  lemma {:induction false} DeferredIffOwnBatchWon(run: seq<World>, n: nat, r: int)
    requires Run(run) && n < |run| && DeferDone(run[n], r)
    ensures DeferWon(run[n], r) <==> WroteDeferral(run[n], r)
  {
    ReachableInv(run, n);
    hide HistoryInv, RequestsKnown;
    assert CallInv(run[n].tables.db, r, run[n].calls[r]);
  }

  lemma {:induction false} StepReleasesTheLease(w: World, v: World, job: int)
    requires Step(w, v) && RowAppears(w.tables.db, v.tables.db, job)
    ensures job in w.tables.db.leases && job !in v.tables.db.leases
  {
    hide Execute, Resume, Holds;
    if r, c :| Begins(w, r, c, v) {
    } else {
      var r :| Proceeds(w, r, v);
      match Issues(w.calls[r], r)
      case None =>
      case Some(b) => NewRowReleasesTheLease(w.tables.db, b, job);
    }
  }

  /** At the very step at which a terminal or deferral row appears, the job's lease row goes. */
  lemma {:induction false} WinnerReleasesTheLease(run: seq<World>, n: nat, job: int)
    requires Run(run) && n + 1 < |run| && RowAppears(run[n].tables.db, run[n + 1].tables.db, job)
    ensures job in run[n].tables.db.leases && job !in run[n + 1].tables.db.leases
  {
    hide Step, RowAppears;
    assert Step(run[n], run[n + 1]);
    StepReleasesTheLease(run[n], run[n + 1], job);
  }

  lemma {:induction false} WinnerEndedALease(w: World, r: int)
    requires WorldInv(w) && Won(w, r)
    ensures Ended(w.tables, w.calls[r].submit.job, Completed, r)
  {
    var t, i := w.tables, w.calls[r].submit;
    assert Credited(t) && CallInv(t.db, r, w.calls[r]);
    hide HistoryInv, RequestsKnown, Ended, Inv;
    assert IsFormalResult(t.db.proposals[i.key], t.db.proposals[i.key].job);
  }

  lemma {:induction false} DeferrerEndedALease(w: World, r: int)
    requires WorldInv(w) && DeferWon(w, r)
    ensures Ended(w.tables, w.calls[r].defer.job, Deferred, r)
  {
    assert Credited(w.tables) && CallInv(w.tables.db, r, w.calls[r]);
    hide HistoryInv, RequestsKnown, Ended, Inv;
  }

  /** A winning submit and a winning defer consumed two different lease periods of the job. */
  lemma {:induction false} SubmitAndDeferNeverShareALease(run: seq<World>, n: nat, r: int,
          q: int) returns (a: nat, b: nat)
    requires Run(run) && n < |run| && Won(run[n], r) && DeferWon(run[n], q)
    ensures a < |run[n].tables.endings| && b < |run[n].tables.endings|
    ensures run[n].tables.endings[a].how == Completed && run[n].tables.endings[a].request == r
    ensures run[n].tables.endings[b].how == Deferred && run[n].tables.endings[b].request == q
    ensures run[n].tables.endings[a].job == run[n].calls[r].submit.job
    ensures run[n].tables.endings[b].job == run[n].calls[q].defer.job
    ensures run[n].tables.endings[a].token != run[n].tables.endings[b].token
  {
    hide WorldInv, Ended, EndedOnce;
    ReachableInv(run, n);
    WinnerEndedALease(run[n], r);
    DeferrerEndedALease(run[n], q);
    PeriodsEndOnce(run[n]);
    a, b := DistinctEndings(run[n].tables, run[n].calls[r].submit.job, r, run[n].calls[q].defer.job, q);
  }

  lemma {:induction false} PeriodsEndOnce(w: World)
    requires WorldInv(w)
    ensures EndedOnce(w.tables)
  {
  }

  lemma {:induction false} DistinctEndings(t: Traced, i: int, r: int, j: int, q: int) returns (a: nat, b: nat)
    requires EndedOnce(t) && Ended(t, i, Completed, r) && Ended(t, j, Deferred, q)
    ensures a < |t.endings| && t.endings[a] == Ending(t.endings[a].token, i, Completed, r)
    ensures b < |t.endings| && t.endings[b] == Ending(t.endings[b].token, j, Deferred, q)
    ensures t.endings[a].token != t.endings[b].token
  {
    a :| 0 <= a < |t.endings| && t.endings[a].job == i && t.endings[a].how == Completed && t.endings[a].request == r;
    b :| 0 <= b < |t.endings| && t.endings[b].job == j && t.endings[b].how == Deferred && t.endings[b].request == q;
  }

  /** Every other answer, too, states a fact about the stored rows that stays true. */
  lemma {:induction false} EveryAnswerHolds(run: seq<World>, n: nat, r: int)
    requires Run(run) && n < |run| && SubmitDone(run[n], r)
    ensures var c := run[n].calls[r];
      AnswerHolds(run[n].tables.db, r, c.submit, c.own, c.spc.answer)
  {
    ReachableInv(run, n);
    hide WorldInv, Run, AnswerHolds;
    AnsweredSubmit(run[n], r);
  }

  // ---------------------------------------------------------------------------------------
  // Idempotency under races
  // ---------------------------------------------------------------------------------------

  /** The rows of a db without its log and its id supply. */
  predicate SameRows(db: Db, d: Db) {
    db.leases == d.leases && db.terminals == d.terminals && db.proposals == d.proposals && db.deferrals == d.deferrals
  }

  /** An access of a submit call whose key another call holds changes no row, and logs only a conflict. */
  lemma {:induction false} TakenKeyChangesNothing(w: World, r: int, v: World)
    requires WorldInv(w) && Proceeds(w, r, v) && w.calls[r].SubmitCall?
    requires ForeignRow(w.tables.db, r, w.calls[r].submit.key)
    ensures SameRows(w.tables.db, v.tables.db)
    ensures ForeignRow(v.tables.db, r, w.calls[r].submit.key)
    ensures v.tables.db.log.events == w.tables.db.log.events
         || (&& w.calls[r].spc.SConflict?
             && v.tables.db.log.events[..|w.tables.db.log.events|] == w.tables.db.log.events
             && |v.tables.db.log.events| == |w.tables.db.log.events| + 1
             && v.tables.db.log.events[|w.tables.db.log.events|].kind == SUBMIT_CONFLICT)
  {
    hide LogInv, LeaseInv, DeferralInv, EndedOnce, Credited, Balanced, RequestsKnown;
    assert CallInv(w.tables.db, r, w.calls[r]);
    assert TerminalInv(w.tables.db);
  }

  /** What the holder of a key decides for every later submit of that key. */
  function VerdictAnswer(row: Proposal, digest: int): SubmitAnswer {
    match Verdict(row, digest) case Some(answer) => answer case None => Refused(CONFLICT, None)
  }

  /** Call `r` still has a read of its key ahead of it, or has already answered by it. */
  predicate DecidedByKey(db: Db, r: int, c: Call) {
    && c.SubmitCall? && ForeignRow(db, r, c.submit.key)
    && (match c.spc
        case SStart => !InputRefused(c.submit)
        case SConflict(_) => Verdict(db.proposals[c.submit.key], c.submit.prepared.digest) == None
        case SConfirmTerminal => false
        case SCheckTerminal => false
        case SDone(answer) => answer == VerdictAnswer(db.proposals[c.submit.key], c.submit.prepared.digest)
        case _ => !(c.submit.declared == Unknown && !c.spc.SReadKey?))
  }

  lemma {:induction false} OwnStepStaysDecided(db: Db, r: int, c: Call)
    requires CallInv(db, r, c) && DecidedByKey(db, r, c) && !IsDone(c)
    ensures DecidedByKey(After(db, Issues(c, r)), r, Resume(db, c, r))
  {
    hide Execute;
    if Issues(c, r).Some? {
      RowsAreKept(db, Issues(c, r).value);
    }
  }

  lemma {:induction false} OtherStepStaysDecided(db: Db, d: Db, r: int, c: Call)
    requires DecidedByKey(db, r, c)
    requires c.submit.key in d.proposals && d.proposals[c.submit.key] == db.proposals[c.submit.key]
    ensures DecidedByKey(d, r, c)
  {
  }

  lemma {:induction false} IsDecided(db: Db, r: int, c: Call)
    requires DecidedByKey(db, r, c)
    ensures c.SubmitCall? && c.submit.key in db.proposals
  {
  }

  lemma {:induction false} StepStaysDecided(w: World, v: World, r: int)
    requires WorldInv(w) && Step(w, v) && r in w.calls && DecidedByKey(w.tables.db, r, w.calls[r])
    ensures r in v.calls && DecidedByKey(v.tables.db, r, v.calls[r]) && v.calls[r].submit == w.calls[r].submit
    ensures v.tables.db.proposals[v.calls[r].submit.key] == w.tables.db.proposals[w.calls[r].submit.key]
  {
    var db, c := w.tables.db, w.calls[r];
    assert CallInv(db, r, c);
    hide WorldInv, Execute, CallInv, DecidedByKey, IsInitial, Issues;
    IsDecided(db, r, c);
    if q, d :| Begins(w, q, d, v) {
      assert q != r by { KnownCall(w, r); }
    } else {
      var q :| Proceeds(w, q, v);
      if Issues(w.calls[q], q).Some? {
        RowsAreKept(db, Issues(w.calls[q], q).value);
      }
      if q == r {
        OwnStepStaysDecided(db, r, c);
        IsDecided(v.tables.db, r, v.calls[r]);
      } else {
        OtherStepStaysDecided(db, v.tables.db, r, c);
      }
    }
  }

  lemma {:induction false} KnownCall(w: World, r: int)
    requires WorldInv(w) && r in w.calls
    ensures r in w.used
  {
  }

  /**
   * Idempotency: once another call's row holds a key, the row never changes, and every submit
   * of that key that can still read it answers the stored verdict: a replay or the stored
   * refusal for the same payload, CONFLICT for a different one.
   */
  lemma {:induction false} TakenKeyDecidesTheAnswer(run: seq<World>, m: nat, n: nat, r: int)
    requires Run(run) && m <= n < |run|
    requires r in run[m].calls && DecidedByKey(run[m].tables.db, r, run[m].calls[r])
    ensures r in run[n].calls && run[n].calls[r].SubmitCall? && run[n].calls[r].submit == run[m].calls[r].submit
    ensures var key := run[m].calls[r].submit.key;
      && key in run[n].tables.db.proposals
      && run[n].tables.db.proposals[key] == run[m].tables.db.proposals[key]
    ensures SubmitDone(run[n], r) ==>
      var i := run[m].calls[r].submit;
      run[n].calls[r].spc.answer == VerdictAnswer(run[m].tables.db.proposals[i.key], i.prepared.digest)
    ensures DecidedByKey(run[n].tables.db, r, run[n].calls[r])
  {
    hide WorldInv, Step;
    if m < n {
      TakenKeyDecidesTheAnswer(run, m, n - 1, r);
      ReachableInv(run, n - 1);
      StepStaysDecided(run[n - 1], run[n], r);
    }
  }

  /** SUBMIT_CONFLICT events of one call. */
  function Conflicts(events: seq<Event>, request: int): nat {
    if events == [] then 0 else
      var last := events[|events| - 1];
      Conflicts(events[..|events| - 1], request) + One(last.kind == SUBMIT_CONFLICT && last.request == request)
  }

  lemma {:induction false} EmitConflicts(db: Db, j: int, k: EventKind, actor: Principal, p: Option<int>,
          request: int, at: int, r: int)
    ensures Conflicts(Emit(db, j, k, actor, p, request, at).log.events, r)
         == Conflicts(db.log.events, r) + One(k == SUBMIT_CONFLICT && request == r)
  {
    var e := Event(db.nextId, j, k, actor, p, request, at);
    assert (db.log.events + [e])[..|db.log.events|] == db.log.events;
  }

  lemma {:induction false} BatchConflicts(db: Db, b: Batch, r: int)
    ensures Conflicts(Execute(db, b).log.events, r) == Conflicts(db.log.events, r) + One(b.Conflict? && b.request == r)
  {
    hide Emit, HasFormalResult, DeferKeyUsed, Conflicts;
    if Violates(db, b) { return; }
    match b
    case Claim(_, _, _, _) =>
      if Preemptable(db, b.job, b.now) {
        if b.job in db.leases {
          EmitConflicts(Draw(db), b.job, LEASE_EXPIRED, db.leases[b.job].owner, None, b.request, b.now, r);
        }
        EmitConflicts(Grant(db, b), b.job, CLAIMED, b.owner, None, b.request, b.now, r);
      }
    case Deny(j, owner, now, request) => EmitConflicts(db, j, CLAIM_DENIED, owner, None, request, now, r);
    case Conflict(j, existing, owner, now, request) =>
      EmitConflicts(db, j, SUBMIT_CONFLICT, owner, Some(existing), request, now, r);
    case Reject(j, _, owner, _, _, _, now, request) =>
      EmitConflicts(StoreProposal(db, b), j, SUBMIT_REJECTED, owner, Some(Drawn(db)), request, now, r);
    case AcceptSynthetic(j, _, owner, _, _, now, request) =>
      EmitConflicts(StoreProposal(db, b), j, SUBMIT_RECEIVED, owner, Some(Drawn(db)), request, now, r);
    case Accept(_, _, _, _, _, _, _) =>
      if Completes(db, b) {
        EmitConflicts(StoreResult(db, b), b.job, SUBMIT_RECEIVED, b.owner, Some(Drawn(db)), b.request, b.now, r);
        EmitConflicts(AuditReceipt(db, b), b.job, COMPLETED, b.owner, Some(Drawn(db)), b.request, b.now, r);
      }
    case Defer(_, _, _, _, _, _, _, _) =>
  }

  lemma {:induction false} UnknownRequestHasNoConflict(events: seq<Event>, r: int)
    requires forall e :: e in events ==> e.request != r
    ensures Conflicts(events, r) == 0
  {
    if events != [] {
      UnknownRequestHasNoConflict(events[..|events| - 1], r);
    }
  }

  predicate AnsweredConflict(c: Call) {
    c.SubmitCall? && c.spc.SDone? && c.spc.answer.Refused? && c.spc.answer.reason == CONFLICT
  }

  lemma {:induction false} ConflictIsAnsweredAfterItsEvent(db: Db, r: int, c: Call)
    requires ProposalInv(db) && CallInv(db, r, c) && !IsDone(c)
    ensures AnsweredConflict(Resume(db, c, r)) <==> Issues(c, r).Some? && Issues(c, r).value.Conflict?
  {
    hide Violates;
  }

  lemma {:induction false} NotDoneIsNotAnswered(c: Call)
    requires !IsDone(c)
    ensures !AnsweredConflict(c)
  {
  }

  /** One access of call `q` seen from call `r`. */
  lemma {:induction false} AccessConflicts(w: World, q: int, v: World, r: int)
    requires WorldInv(w) && Proceeds(w, q, v) && r in w.calls
    requires Conflicts(w.tables.db.log.events, r) == One(AnsweredConflict(w.calls[r]))
    ensures Conflicts(v.tables.db.log.events, r) == One(AnsweredConflict(v.calls[r]))
  {
    assert CallInv(w.tables.db, q, w.calls[q]) && ProposalInv(w.tables.db);
    hide WorldInv, CallInv, Conflicts, Execute, Resume, AnsweredConflict, ProposalInv;
    var batch := Issues(w.calls[q], q);
    if batch.Some? {
      BatchConflicts(w.tables.db, batch.value, r);
      IssuedIsWellBound(w.tables.db, q, w.calls[q]);
    }
    if q == r {
      ConflictIsAnsweredAfterItsEvent(w.tables.db, r, w.calls[r]);
      NotDoneIsNotAnswered(w.calls[r]);
    }
  }

  lemma {:induction false} FreshCallHasNoConflict(w: World, q: int, c: Call, v: World)
    requires WorldInv(w) && Begins(w, q, c, v)
    ensures Conflicts(v.tables.db.log.events, q) == One(AnsweredConflict(v.calls[q]))
  {
    UnknownRequestHasNoConflict(w.tables.db.log.events, q);
    NotDoneIsNotAnswered(c);
  }

  lemma {:induction false} StepConflicts(w: World, v: World, r: int)
    requires WorldInv(w) && Step(w, v) && r in v.calls
    requires r in w.calls ==> Conflicts(w.tables.db.log.events, r) == One(AnsweredConflict(w.calls[r]))
    ensures Conflicts(v.tables.db.log.events, r) == One(AnsweredConflict(v.calls[r]))
  {
    hide Conflicts, Execute, Resume, WorldInv, AnsweredConflict, Issues, IsInitial;
    if q, c :| Begins(w, q, c, v) {
      if q == r {
        FreshCallHasNoConflict(w, q, c, v);
      }
    } else {
      var q :| Proceeds(w, q, v);
      AccessConflicts(w, q, v, r);
    }
  }

  /** A different payload under a taken key appends exactly one SUBMIT_CONFLICT event; nothing else does. */
  lemma {:induction false} ConflictIsAuditedOnce(run: seq<World>, n: nat, r: int)
    requires Run(run) && n < |run| && r in run[n].calls
    ensures Conflicts(run[n].tables.db.log.events, r) == One(AnsweredConflict(run[n].calls[r]))
  {
    hide Conflicts, WorldInv, AnsweredConflict, Step;
    assert n != 0;
    ReachableInv(run, n - 1);
    if r in run[n - 1].calls {
      ConflictIsAuditedOnce(run, n - 1, r);
    }
    assert Step(run[n - 1], run[n - 1 + 1]);
    StepConflicts(run[n - 1], run[n], r);
  }

  // ---------------------------------------------------------------------------------------
  // Fencing
  // ---------------------------------------------------------------------------------------

  ghost predicate LeasedThroughout(run: seq<World>, m: nat, n: nat, job: int)
    requires m <= n < |run|
  {
    forall k :: m <= k <= n ==> job in run[k].tables.db.leases
  }

  lemma {:induction false} StepChangesLease(w: World, v: World, job: int)
    requires WorldInv(w) && Step(w, v)
    ensures LeaseChange(LeaseOf(w.tables.db, job), LeaseOf(v.tables.db, job), Drawn(w.tables.db))
  {
    hide WorldInv, Execute, Resume, LeaseChange;
    if r, c :| Begins(w, r, c, v) {
      hide Begins;
      KeptLease(LeaseOf(w.tables.db, job), Drawn(w.tables.db));
    } else {
      var r :| Proceeds(w, r, v);
      match Issues(w.calls[r], r)
      case None => KeptLease(LeaseOf(w.tables.db, job), Drawn(w.tables.db));
      case Some(b) => LeaseEvolution(w.tables.db, b, job);
    }
  }

  lemma {:induction false} KeptLease(l: Option<Lease>, token: int)
    ensures LeaseChange(l, l, token)
  {
  }

  /**
   * Between two releases of a lease row generations only rise, and a later lease starts no
   * earlier than any previous one expires, so lease periods never overlap.
   */
  lemma {:induction false} LeasePeriodsNeverOverlap(run: seq<World>, m: nat, n: nat, job: int)
    requires Run(run) && m <= n < |run| && LeasedThroughout(run, m, n, job)
    ensures var l, k := run[m].tables.db.leases[job], run[n].tables.db.leases[job];
      k == l || (k.count > l.count && k.claimedAt >= l.expiresAt && k.expiresAt > l.expiresAt)
  {
    hide WorldInv, Step;
    if m < n {
      LeasePeriodsNeverOverlap(run, m, n - 1, job);
      ReachableInv(run, n - 1);
      StepChangesLease(run[n - 1], run[n], job);
      assert run[n - 1].tables.db.leases[job].expiresAt == run[n - 1].tables.db.leases[job].claimedAt + LEASE_TTL by {
        LeaseHasTtl(run[n - 1], job);
      }
    }
  }

  lemma {:induction false} LeaseHasTtl(w: World, job: int)
    requires WorldInv(w) && job in w.tables.db.leases
    ensures w.tables.db.leases[job].expiresAt == w.tables.db.leases[job].claimedAt + LEASE_TTL
  {
  }

  /** The batch of a formal submit or defer that carries an overtaken generation has no effect. */
  lemma {:induction false} OvertakenGenerationIsFenced(run: seq<World>, m: nat, n: nat, job: int, b: Batch)
    requires Run(run) && m <= n < |run| && LeasedThroughout(run, m, n, job)
    requires run[n].tables.db.leases[job] != run[m].tables.db.leases[job]
    requires (b.Accept? || b.Defer?) && b.job == job && b.generation == run[m].tables.db.leases[job].count
    ensures var db := run[n].tables.db;
      SameRows(Execute(db, b), db) && Execute(db, b).log == db.log && !Violates(db, b)
  {
    LeasePeriodsNeverOverlap(run, m, n, job);
    StaleGenerationWritesNothing(run[n].tables.db, b);
  }

  // ---------------------------------------------------------------------------------------
  // What claim and defer answers mean
  // ---------------------------------------------------------------------------------------

  /** Some world of the run so far held a lease of the job with these terms. */
  ghost predicate WasLeased(run: seq<World>, n: nat, job: int, owner: Principal, expiresAt: int)
    requires n < |run|
  {
    exists k :: 0 <= k <= n && job in run[k].tables.db.leases
      && run[k].tables.db.leases[job].owner == owner && run[k].tables.db.leases[job].expiresAt == expiresAt
  }

  ghost predicate HeldAt(w: World, job: int, answer: ClaimAnswer) {
    job in w.tables.db.leases && Granted(w.tables.db.leases[job]) == answer
  }

  /** What a claim's program point says about the run so far. */
  ghost predicate ClaimFact(run: seq<World>, n: nat, i: ClaimInput, pc: ClaimPc)
    requires n < |run|
  {
    var db := run[n].tables.db;
    match pc
    case CDeny => i.job in db.terminals
    case CDone(answer) => (match answer
      case Claimed(owner, _, _, _) => owner == i.owner && exists k :: 0 <= k <= n && HeldAt(run[k], i.job, answer)
      case AlreadyClaimed(owner, expiresAt) =>
        owner != i.owner && expiresAt > i.now && WasLeased(run, n, i.job, owner, expiresAt)
      case NotClaimable(reason) => (match reason
        case NOT_FOUND => !i.visible
        case TERMINAL => i.job in db.terminals
        case DEFERRED => i.job in db.deferrals && db.deferrals[i.job].recheckAt > i.now)
      case ClaimUnavailable => true)
    case _ => true
  }

  /** The same deferral action is stored under the key, with this recheck time. */
  ghost predicate StoredAction(db: Db, i: DeferInput, recheckAt: int) {
    exists j :: j in db.deferrals && db.deferrals[j].key == i.key
      && db.deferrals[j].action == Some(WantedAction(i)) && db.deferrals[j].recheckAt == recheckAt
  }

  ghost predicate OtherAction(db: Db, i: DeferInput) {
    exists j :: j in db.deferrals && db.deferrals[j].key == i.key && db.deferrals[j].action != Some(WantedAction(i))
  }

  /** What a defer's program point says about the stored rows, now and ever after. */
  ghost predicate DeferFact(db: Db, i: DeferInput, pc: DeferPc) {
    match pc
    case DStatusTerminal(at) => StoredAction(db, i, at)
    case DStatusLease(at) => StoredAction(db, i, at)
    case DStatusDeferral(at) => StoredAction(db, i, at)
    case DDone(answer) => (match answer
      case DeferAccepted(at) => at == i.recheckAt && i.job in db.deferrals && db.deferrals[i.job].recheckAt == at
      case DeferReplayed(at, current) =>
        StoredAction(db, i, at) && (current == JobCompleted ==> i.job in db.terminals)
      case DeferRefused(reason, _) =>
        && (reason == CONFLICT ==> OtherAction(db, i) || i.job in db.deferrals)
        && (reason == SECOND_RESULT ==> i.job in db.terminals)
        && (reason == VALIDATION_FAILED ==> DeferInputRefused(i) || i.recheckAt <= i.now)
      case DeferUnavailable => true)
    case _ => true
  }

  ghost predicate CallFact(run: seq<World>, n: nat, c: Call)
    requires n < |run|
  {
    match c
    case ClaimCall(i, pc) => ClaimFact(run, n, i, pc)
    case DeferCall(i, pc) => DeferFact(run[n].tables.db, i, pc)
    case SubmitCall(_, _, _) => true
  }

  /** Terminals and deferrals are kept with their contents. */
  predicate KeepsRows(db: Db, d: Db) {
    && (forall j :: j in db.terminals ==> j in d.terminals)
    && (forall j :: j in db.deferrals ==> j in d.deferrals && d.deferrals[j] == db.deferrals[j])
  }

  lemma {:induction false} StepKeepsRows(w: World, v: World)
    requires Step(w, v)
    ensures KeepsRows(w.tables.db, v.tables.db)
  {
    hide Execute, Resume, Issues, Ends;
    if r, c :| Begins(w, r, c, v) {
    } else {
      var r :| Proceeds(w, r, v);
      if Issues(w.calls[r], r).Some? {
        RowsAreKept(w.tables.db, Issues(w.calls[r], r).value);
      }
    }
  }

  lemma {:induction false} DeferFactIsStable(db: Db, d: Db, i: DeferInput, pc: DeferPc)
    requires DeferFact(db, i, pc) && KeepsRows(db, d)
    ensures DeferFact(d, i, pc)
  {
    if OtherAction(db, i) {
      var j :| j in db.deferrals && db.deferrals[j].key == i.key && db.deferrals[j].action != Some(WantedAction(i));
      assert j in d.deferrals && d.deferrals[j] == db.deferrals[j];
      assert OtherAction(d, i);
    }
    forall at | StoredAction(db, i, at) ensures StoredAction(d, i, at) {
      var j :| j in db.deferrals && db.deferrals[j].key == i.key
        && db.deferrals[j].action == Some(WantedAction(i)) && db.deferrals[j].recheckAt == at;
      assert j in d.deferrals && d.deferrals[j] == db.deferrals[j];
    }
  }

  lemma {:induction false} ClaimFactIsStable(run: seq<World>, n: nat, i: ClaimInput, pc: ClaimPc)
    requires n + 1 < |run| && ClaimFact(run, n, i, pc) && KeepsRows(run[n].tables.db, run[n + 1].tables.db)
    ensures ClaimFact(run, n + 1, i, pc)
  {
    hide HeldAt, WasLeased;
    if pc.CDone? && pc.answer.AlreadyClaimed? {
      LeasedBefore(run, n, i.job, pc.answer.owner, pc.answer.expiresAt);
    }
  }

  lemma {:induction false} LeasedBefore(run: seq<World>, n: nat, job: int, owner: Principal, expiresAt: int)
    requires n + 1 < |run|
    ensures WasLeased(run, n, job, owner, expiresAt) ==> WasLeased(run, n + 1, job, owner, expiresAt)
  {
  }

  lemma {:induction false} ClaimAccessFact(run: seq<World>, n: nat, i: ClaimInput, pc: ClaimPc)
    requires n + 1 < |run| && ClaimFact(run, n, i, pc) && !pc.CDone?
    requires KeepsRows(run[n].tables.db, run[n + 1].tables.db)
    ensures ClaimFact(run, n + 1, i, ClaimResume(run[n].tables.db, i, pc))
  {
    var db, next := run[n].tables.db, ClaimResume(run[n].tables.db, i, pc);
    if next.CDone? && next.answer.Claimed? {
      assert HeldAt(run[n], i.job, next.answer);
    }
    if next.CDone? && next.answer.AlreadyClaimed? {
      assert WasLeased(run, n + 1, i.job, next.answer.owner, next.answer.expiresAt);
    }
  }

  lemma {:induction false} DeferAccessFact(db: Db, d: Db, i: DeferInput, pc: DeferPc, r: int)
    requires DeferFact(db, i, pc) && !pc.DDone? && KeepsRows(db, d)
    requires pc.DBatch? ==> d == Execute(db, DeferBatch(i, r))
    ensures DeferFact(d, i, DeferResume(db, i, pc, r))
  {
    hide Execute;
    var byKey := DeferralByKey(db, i.key);
    if byKey.Some? {
      assert byKey.value.action == Some(WantedAction(i)) ==> StoredAction(db, i, byKey.value.recheckAt);
      assert byKey.value.action != Some(WantedAction(i)) ==> OtherAction(db, i);
    }
    var next := DeferResume(db, i, pc, r);
    if pc.DBatch? && next.DDone? {
      DeferStores(db, DeferBatch(i, r));
    } else {
      assert DeferFact(db, i, next);
      DeferFactIsStable(db, d, i, next);
    }
  }

  lemma {:induction false} StepCallFact(run: seq<World>, n: nat, r: int)
    requires n + 1 < |run| && Step(run[n], run[n + 1]) && r in run[n + 1].calls
    requires r in run[n].calls ==> CallFact(run, n, run[n].calls[r])
    requires WorldInv(run[n])
    ensures CallFact(run, n + 1, run[n + 1].calls[r])
  {
    var w, v := run[n], run[n + 1];
    StepKeepsRows(w, v);
    if r in w.calls { KnownCall(w, r); }
    hide Step, KeepsRows, ClaimFact, DeferFact, Execute, ClaimResume, DeferResume, SubmitResume, WorldInv, Issues;
    StepOfCall(w, v, r);
    if r !in w.calls {
      InitialFact(run, n + 1, v.calls[r]);
    } else if v.calls[r] == w.calls[r] {
      match w.calls[r]
      case ClaimCall(i, pc) => ClaimFactIsStable(run, n, i, pc);
      case DeferCall(i, pc) => DeferFactIsStable(w.tables.db, v.tables.db, i, pc);
      case SubmitCall(_, _, _) =>
    } else {
      match w.calls[r]
      case ClaimCall(i, pc) => ClaimAccessFact(run, n, i, pc);
      case DeferCall(i, pc) => DeferAccessFact(w.tables.db, v.tables.db, i, pc, r);
      case SubmitCall(_, _, _) =>
    }
  }

  /** A step leaves a call alone, begins it, or makes its access. */
  lemma {:induction false} StepOfCall(w: World, v: World, r: int)
    requires Step(w, v) && r in v.calls && (r in w.calls ==> r in w.used)
    ensures r !in w.calls ==> IsInitial(v.calls[r])
    ensures r in w.calls && v.calls[r] != w.calls[r] ==>
      && !IsDone(w.calls[r]) && v.calls[r] == Resume(w.tables.db, w.calls[r], r)
      && (w.calls[r].DeferCall? && w.calls[r].dpc.DBatch? ==>
            v.tables.db == Execute(w.tables.db, DeferBatch(w.calls[r].defer, r)))
  {
    hide Execute, Resume, Ends, IsDone;
    if q, c :| Begins(w, q, c, v) {
    } else {
      var q :| Proceeds(w, q, v);
    }
  }

  lemma {:induction false} InitialFact(run: seq<World>, n: nat, c: Call)
    requires n < |run| && IsInitial(c)
    ensures CallFact(run, n, c)
  {
  }

  /** Over every run the answers of claims and defers, too, state facts of the run that stay true. */
  lemma {:induction false} ClaimAndDeferAnswersHold(run: seq<World>, n: nat, r: int)
    requires Run(run) && n < |run| && r in run[n].calls
    ensures CallFact(run, n, run[n].calls[r])
    decreases n
  {
    hide Step, WorldInv, CallFact;
    assert n != 0;
    if r in run[n - 1].calls {
      ClaimAndDeferAnswersHold(run, n - 1, r);
    }
    ReachableInv(run, n - 1);
    assert Step(run[n - 1], run[n - 1 + 1]);
    StepCallFact(run, n - 1, r);
  }

  predicate ClaimGranted(w: World, r: int, job: int) {
    && r in w.calls && w.calls[r].ClaimCall? && w.calls[r].claim.job == job
    && w.calls[r].cpc.CDone? && w.calls[r].cpc.answer.Claimed?
  }

  predicate Disjoint(a: ClaimAnswer, b: ClaimAnswer)
    requires a.Claimed? && b.Claimed?
  {
    b.claimedAt >= a.expiresAt || a.claimedAt >= b.expiresAt
  }

  /**
   * Two CLAIMED answers on one job were both read from its lease row, at two worlds of the run;
   * unless the row was released in between, answers of different owners name disjoint periods.
   */
  lemma {:induction false} ClaimedPeriodsNeverOverlap(run: seq<World>, n: nat, r: int, q: int, job: int)
    returns (k: nat, l: nat)
    requires Run(run) && n < |run| && ClaimGranted(run[n], r, job) && ClaimGranted(run[n], q, job)
    ensures k <= n && HeldAt(run[k], job, run[n].calls[r].cpc.answer)
    ensures l <= n && HeldAt(run[l], job, run[n].calls[q].cpc.answer)
    ensures var a, b := run[n].calls[r].cpc.answer, run[n].calls[q].cpc.answer;
      a.owner != b.owner && LeasedThroughout(run, if k <= l then k else l, if k <= l then l else k, job) ==>
        Disjoint(a, b)
  {
    hide Run, Step;
    ClaimAndDeferAnswersHold(run, n, r);
    ClaimAndDeferAnswersHold(run, n, q);
    var a, b := run[n].calls[r].cpc.answer, run[n].calls[q].cpc.answer;
    k :| 0 <= k <= n && HeldAt(run[k], job, a);
    l :| 0 <= l <= n && HeldAt(run[l], job, b);
    var first, later := if k <= l then k else l, if k <= l then l else k;
    if LeasedThroughout(run, first, later, job) {
      LeasePeriodsNeverOverlap(run, first, later, job);
    }
  }

  // ---------------------------------------------------------------------------------------
  // Receipts
  // ---------------------------------------------------------------------------------------

  lemma {:induction false} StepExtendsLog(w: World, v: World)
    requires WorldInv(w) && Step(w, v)
    ensures Extends(w.tables.db.log, v.tables.db.log)
  {
    assert LogInv(w.tables.db);
    hide Numbered, Execute, WorldInv, Resume;
    if r, c :| Begins(w, r, c, v) {
    } else {
      var r :| Proceeds(w, r, v);
      if Issues(w.calls[r], r).Some? {
        BatchExtendsLog(w.tables.db, Issues(w.calls[r], r).value);
      }
    }
  }

  lemma {:induction false} RunExtends(run: seq<World>, m: nat, n: nat)
    requires Run(run) && m <= n < |run|
    ensures Extends(run[m].tables.db.log, run[n].tables.db.log)
  {
    hide WorldInv, Step, Extends, Start;
    if m < n {
      RunExtends(run, m, n - 1);
      ReachableInv(run, n - 1);
      assert Step(run[n - 1], run[n - 1 + 1]);
      StepExtendsLog(run[n - 1], run[n]);
      ExtendsIsTransitive(run[m].tables.db.log, run[n - 1].tables.db.log, run[n].tables.db.log);
    } else {
      ReachableInv(run, m);
      LogIsNumbered(run[m]);
    }
  }

  lemma {:induction false} LogIsNumbered(w: World)
    requires WorldInv(w)
    ensures Extends(w.tables.db.log, w.tables.db.log)
  {
  }

  /** Over any run the receipt order only grows at its end, so feed consumers may follow the queue. */
  lemma {:induction false} RunExtendsLog(run: seq<World>, m: nat, n: nat)
    requires Run(run) && m <= n < |run|
    ensures Extends(run[m].tables.db.log, run[n].tables.db.log)
    ensures Feed(run[m].tables.db.log) <= Feed(run[n].tables.db.log)
  {
    hide WorldInv, Step, IsFeed, Numbered, Run;
    RunExtends(run, m, n);
    FeedIsPrefix(run[m].tables.db.log, run[n].tables.db.log);
  }
}
