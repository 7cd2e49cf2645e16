/**
 * Calls that run one after another: what a call does when nothing interleaves with it, and the
 * four job states it can meet.
 */
module LoneCalls {
  import opened Basics
  import opened ReceiptLog
  import opened WorkflowTables
  import opened WorkflowCalls

  function AttemptsLeft(attempt: nat): nat { if attempt < CLAIM_ATTEMPTS then CLAIM_ATTEMPTS - attempt else 0 }

  /** A bound on the accesses a call can still make. */
  function Remaining(c: Call): nat {
    match c
    case ClaimCall(_, pc) => (match pc
      case CVisible => 21 case CTerminal => 20 case CDeferral => 19
      case CBatch(a) => 6 * AttemptsLeft(a) + 6 case CLease(a, _) => 6 * AttemptsLeft(a) + 5
      case CTerminalAgain(a) => 6 * AttemptsLeft(a) + 4 case CDeferralAgain(a) => 6 * AttemptsLeft(a) + 3
      case CCurrent(a) => 6 * AttemptsLeft(a) + 2 case CDeny => 1 case CDone(_) => 0)
    case SubmitCall(_, pc, _) => (match pc
      case SStart => 9 case SReadKey => 8 case SReadLease => 7 case SReadFormal => 6
      case SReject(_, _) => 5 case SAccept => 5 case SSynthetic => 5
      case SConfirm => 4 case SConfirmTerminal => 3 case SFormalRace => 2 case SRace(_) => 2
      case SCheckTerminal => 1 case SConflict(_) => 1 case SDone(_) => 0)
    case DeferCall(_, pc) => (match pc
      case DStart => 10 case DReadKey => 9 case DReadDeferral => 8 case DBatch => 7
      case DAfterViolation => 6 case DReread => 6 case DRereadDeferral => 3 case DRereadTerminal => 2
      case DRereadLease => 1 case DStatusTerminal(_) => 3 case DStatusLease(_) => 2
      case DStatusDeferral(_) => 1 case DDone(_) => 0)
  }

  lemma {:induction false} EveryAccessCounts(db: Db, c: Call, r: int)
    requires !IsDone(c)
    ensures Remaining(Resume(db, c, r)) < Remaining(c)
  {
    hide Violates, Execute;
  }

  /** The call run to its answer with nothing in between. */
  ghost function Alone(db: Db, c: Call, r: int): (Db, Call)
    decreases Remaining(c)
  {
    if IsDone(c) then (db, c)
    else
      EveryAccessCounts(db, c, r);
      Alone(After(db, Issues(c, r)), Resume(db, c, r), r)
  }

  lemma {:induction false} Access(db: Db, c: Call, r: int)
    requires !IsDone(c)
    ensures Alone(db, c, r) == Alone(After(db, Issues(c, r)), Resume(db, c, r), r)
  {
  }

  // ---------------------------------------------------------------------------------------
  // Job status
  // ---------------------------------------------------------------------------------------

  /** Terminal, then live lease, then active deferral. */
  function StatusOf(db: Db, job: int, now: int): JobStatus {
    if job in db.terminals then JobCompleted
    else if LiveLease(db, job, now) then JobClaimed
    else if ActiveDeferral(db, job, now) then JobDeferred
    else JobQueued
  }

  /** The answer a claim owes its caller in each status. */
  function Dictated(db: Db, i: ClaimInput): ClaimAnswer {
    match StatusOf(db, i.job, i.now)
    case JobCompleted => NotClaimable(TERMINAL)
    case JobDeferred => NotClaimable(DEFERRED)
    case JobClaimed =>
      var l := db.leases[i.job];
      if l.owner == i.owner then Granted(l) else AlreadyClaimed(l.owner, l.expiresAt)
    case JobQueued => Granted(NewLease(db, i.job, i.owner, Drawn(db), i.now))
  }

  /** A live lease and an active deferral at once: possible only when a clock runs behind. */
  predicate Torn(db: Db, job: int, now: int) {
    job !in db.terminals && LiveLease(db, job, now) && ActiveDeferral(db, job, now)
  }

  lemma {:induction false} ClaimBatchEffect(db: Db, i: ClaimInput, r: int)
    requires LeaseInv(db)
    ensures var d := Execute(db, Claim(i.job, i.owner, i.now, r));
      && d.terminals == db.terminals && d.deferrals == db.deferrals
      && LeaseOf(d, i.job) == (if Preemptable(db, i.job, i.now)
                               then Some(NewLease(db, i.job, i.owner, Drawn(db), i.now)) else LeaseOf(db, i.job))
      && (i.job in db.leases ==> db.leases[i.job].token != Drawn(db))
  {
  }

  /** A lone claim needs at most one batch and answers in its first pass. */
  lemma {:induction false} LoneClaim(db: Db, i: ClaimInput, r: int)
    requires Inv(db) && i.visible
    ensures Alone(db, ClaimCall(i, CVisible), r) ==
      (if i.job in db.terminals then
         (Execute(db, Deny(i.job, i.owner, i.now, r)), ClaimCall(i, CDone(NotClaimable(TERMINAL))))
       else if ActiveDeferral(db, i.job, i.now) then (db, ClaimCall(i, CDone(NotClaimable(DEFERRED))))
       else (Execute(db, Claim(i.job, i.owner, i.now, r)), ClaimCall(i, CDone(Dictated(db, i)))))
  {
    hide Execute, Inv, Alone, Remaining, Violates;
    Access(db, ClaimCall(i, CVisible), r);
    Access(db, ClaimCall(i, CTerminal), r);
    if i.job in db.terminals {
      Access(db, ClaimCall(i, CDeny), r);
      AloneDone(Execute(db, Deny(i.job, i.owner, i.now, r)), ClaimCall(i, CDone(NotClaimable(TERMINAL))), r);
    } else {
      Access(db, ClaimCall(i, CDeferral), r);
      if ActiveDeferral(db, i.job, i.now) {
        AloneDone(db, ClaimCall(i, CDone(NotClaimable(DEFERRED))), r);
      } else {
        LoneClaimPass(db, i, r);
      }
    }
  }

  lemma {:induction false} AloneDone(db: Db, c: Call, r: int)
    requires IsDone(c)
    ensures Alone(db, c, r) == (db, c)
  {
  }

  lemma {:induction false} LoneClaimPass(db: Db, i: ClaimInput, r: int)
    requires Inv(db) && i.job !in db.terminals && !ActiveDeferral(db, i.job, i.now)
    ensures Alone(db, ClaimCall(i, CBatch(0)), r) ==
      (Execute(db, Claim(i.job, i.owner, i.now, r)), ClaimCall(i, CDone(Dictated(db, i))))
  {
    hide Execute, Alone, Remaining, Violates, LogInv, ProposalInv, TerminalInv, DeferralInv;
    var d := Execute(db, Claim(i.job, i.owner, i.now, r));
    ClaimBatchEffect(db, i, r);
    hide LeaseInv;
    Access(db, ClaimCall(i, CBatch(0)), r);
    Access(d, ClaimCall(i, CLease(0, Drawn(db))), r);
    if !Preemptable(db, i.job, i.now) {
      Access(d, ClaimCall(i, CTerminalAgain(0)), r);
      Access(d, ClaimCall(i, CDeferralAgain(0)), r);
      Access(d, ClaimCall(i, CCurrent(0)), r);
    }
    AloneDone(d, ClaimCall(i, CDone(Dictated(db, i))), r);
  }

  ghost function LoneClaimAnswer(db: Db, i: ClaimInput, r: int): ClaimPc {
    var c := Alone(db, ClaimCall(i, CVisible), r).1;
    if c.ClaimCall? then c.cpc else CVisible
  }

  /** The lone claim gives the answer its job's status dictates, except when the state is torn. */
  lemma {:induction false} ClaimFollowsStatus(db: Db, i: ClaimInput, r: int)
    requires Inv(db) && i.visible
    ensures LoneClaimAnswer(db, i, r) == CDone(Dictated(db, i)) <==> !Torn(db, i.job, i.now)
  {
    hide Execute, Inv, Alone, Remaining;
    LoneClaim(db, i, r);
  }

  /** Claim at 0, defer until 10 at once, claim again at 10. */
  function DeferredAndClaimed(owner: Principal): Db {
    var d1 := Execute(EMPTY, Claim(1, owner, 0, 1));
    var d2 := Execute(d1, Defer(1, 7, owner, 1, RECHECK_REQUIRED, 10, 0, 2));
    Execute(d2, Claim(1, owner, 10, 3))
  }

  /** After these three batches a clock at 5 sees a live lease and an active deferral at once. */
  lemma {:induction false} BackwardClockTearsStatus(owner: Principal)
    ensures var db := DeferredAndClaimed(owner);
      && Inv(db) && Torn(db, 1, 5)
      && StatusOf(db, 1, 5) == JobClaimed && !Torn(db, 1, 10)
    ensures forall i: ClaimInput, r :: i.visible && i.job == 1 && i.now == 5 ==>
      LoneClaimAnswer(DeferredAndClaimed(owner), i, r) != CDone(Dictated(DeferredAndClaimed(owner), i))
  {
    var a := Claim(1, owner, 0, 1);
    var b := Defer(1, 7, owner, 1, RECHECK_REQUIRED, 10, 0, 2);
    var c := Claim(1, owner, 10, 3);
    var d1 := Execute(EMPTY, a);
    var d2 := Execute(d1, b);
    var d3 := Execute(d2, c);
    hide Execute, Violates, LogInv, ProposalInv, TerminalInv, DeferralInv, LoneClaimAnswer, Dictated;
    EmptyInv();
    ExecuteKeepsInv(EMPTY, a);
    ExecuteKeepsInv(d1, b);
    ExecuteKeepsInv(d2, c);
    ClaimBatchEffect(EMPTY, ClaimInput(1, owner, true, 0), 1);
    assert d1.leases[1] == NewLease(EMPTY, 1, owner, 0, 0);
    assert !DeferKeyUsed(d1, 7);
    DeferEffect(d1, b);
    ClaimBatchEffect(d2, ClaimInput(1, owner, true, 10), 3);
    assert Torn(d3, 1, 5);
    forall i: ClaimInput, r | i.visible && i.job == 1 && i.now == 5
      ensures LoneClaimAnswer(d3, i, r) != CDone(Dictated(d3, i))
    {
      ClaimFollowsStatus(d3, i, r);
    }
  }

  // ---------------------------------------------------------------------------------------
  // Calls one after another at nondecreasing times
  // ---------------------------------------------------------------------------------------

  function Now(c: Call): int {
    match c
    case ClaimCall(i, _) => i.now
    case SubmitCall(i, _, _) => i.now
    case DeferCall(i, _) => i.now
  }

  /** `dbs[n]` is the state after the first `n` calls. */
  ghost predicate Sequential(dbs: seq<Db>, calls: seq<Call>) {
    && |dbs| == |calls| + 1
    && Inv(dbs[0]) && (calls != [] ==> ClaimedBy(dbs[0], Now(calls[0])))
    && (forall n :: 0 <= n < |calls| ==> IsInitial(calls[n]) && dbs[n + 1] == Alone(dbs[n], calls[n], n).0)
    && (forall m, n :: 0 <= m <= n < |calls| ==> Now(calls[m]) <= Now(calls[n]))
  }

  ghost predicate ClaimedBy(db: Db, t: int) {
    forall j :: j in db.leases ==> db.leases[j].claimedAt <= t
  }

  /** What the program points guarantee of the batches they bind. */
  predicate WellPlaced(c: Call) {
    c.SubmitCall? ==>
      && (c.spc.SReject? ==> c.spc.reason != CONFLICT)
      && (c.spc.SSynthetic? ==> EffectiveOrigin(c.submit) != CHATGPT)
  }

  lemma {:induction false} AccessKeepsTime(db: Db, c: Call, r: int)
    requires Inv(db) && WellPlaced(c) && !IsDone(c) && ClaimedBy(db, Now(c))
    ensures Inv(After(db, Issues(c, r))) && ClaimedBy(After(db, Issues(c, r)), Now(c))
    ensures WellPlaced(Resume(db, c, r)) && Now(Resume(db, c, r)) == Now(c)
  {
    hide Execute, Inv, Violates;
    if Issues(c, r).Some? {
      var b := Issues(c, r).value;
      ExecuteKeepsInv(db, b);
      forall j | j in Execute(db, b).leases ensures Execute(db, b).leases[j].claimedAt <= Now(c) {
        GrantedNow(db, b, j);
      }
    }
  }

  lemma {:induction false} GrantedNow(db: Db, b: Batch, job: int)
    requires job in Execute(db, b).leases
    ensures (job in db.leases && Execute(db, b).leases[job] == db.leases[job])
         || Execute(db, b).leases[job].claimedAt == b.now
  {
  }

  lemma {:induction false} AloneKeepsTime(db: Db, c: Call, r: int)
    requires Inv(db) && WellPlaced(c) && ClaimedBy(db, Now(c))
    ensures Inv(Alone(db, c, r).0) && ClaimedBy(Alone(db, c, r).0, Now(c))
    decreases Remaining(c)
  {
    hide Execute, Inv, ClaimedBy, Resume, Issues, WellPlaced;
    if !IsDone(c) {
      AccessKeepsTime(db, c, r);
      EveryAccessCounts(db, c, r);
      AloneKeepsTime(After(db, Issues(c, r)), Resume(db, c, r), r);
    }
  }

  lemma {:induction false} SequentialKeepsTime(dbs: seq<Db>, calls: seq<Call>, n: nat)
    requires Sequential(dbs, calls) && n <= |calls|
    ensures Inv(dbs[n])
    ensures n < |calls| ==> ClaimedBy(dbs[n], Now(calls[n]))
    ensures n > 0 ==> ClaimedBy(dbs[n], Now(calls[n - 1]))
  {
    hide Inv, Alone, Resume;
    if n > 0 {
      SequentialKeepsTime(dbs, calls, n - 1);
      AloneKeepsTime(dbs[n - 1], calls[n - 1], n - 1);
    }
  }

  /**
   * The four states partition: at any time from the last call on, an active deferral excludes
   * any lease row, and the next lone claim gives the answer the status dictates.
   */
  lemma {:induction false} StatesPartition(dbs: seq<Db>, calls: seq<Call>, n: nat, job: int, t: int)
    requires Sequential(dbs, calls) && 0 < n <= |calls| && t >= Now(calls[n - 1])
    ensures ActiveDeferral(dbs[n], job, t) ==> job !in dbs[n].leases
    ensures !Torn(dbs[n], job, t)
    ensures forall i: ClaimInput, r ::
      i.visible && i.job == job && i.now == t ==> LoneClaimAnswer(dbs[n], i, r) == CDone(Dictated(dbs[n], i))
  {
    SequentialKeepsTime(dbs, calls, n);
    hide Sequential, LogInv, ProposalInv, TerminalInv, DeferralInv, LoneClaimAnswer, Dictated;
    forall i: ClaimInput, r | i.visible && i.job == job && i.now == t
      ensures LoneClaimAnswer(dbs[n], i, r) == CDone(Dictated(dbs[n], i))
    {
      ClaimFollowsStatus(dbs[n], i, r);
    }
  }

  // ---------------------------------------------------------------------------------------
  // Lone submits and defers
  // ---------------------------------------------------------------------------------------

  /** Everything a formal submit must satisfy. */
  predicate Acceptable(db: Db, i: SubmitInput) {
    && !InputRefused(i) && i.declared != Unknown && !StructureFailed(i) && EffectiveOrigin(i) == CHATGPT
    && i.key !in db.proposals
    && Holds(db, i.job, i.caller, i.generation, i.now)
    && i.job !in db.terminals
  }

  ghost function LoneSubmit(db: Db, i: SubmitInput, r: int): (Db, Call) {
    Alone(db, SubmitCall(i, SStart, None), r)
  }

  lemma {:induction false} AcceptEffect(db: Db, b: Batch)
    requires b.Accept? && Completes(db, b) && !Violates(db, b)
    ensures var d := Execute(db, b);
      && b.key in d.proposals && d.proposals[b.key] == RowOf(db, b)
      && b.job in d.terminals && d.terminals[b.job].proposal == Drawn(db)
  {
  }

  lemma {:induction false} AcceptableIsAccepted(db: Db, i: SubmitInput, r: int)
    requires Inv(db) && Acceptable(db, i)
    ensures LoneSubmit(db, i, r) ==
      (Execute(db, Accept(i.job, i.key, i.caller, i.generation, i.prepared.digest, i.now, r)),
       SubmitCall(i, SDone(Accepted(Drawn(db))), Some(Drawn(db))))
  {
    hide Execute, Alone, Remaining, Violates, Inv;
    var b := Accept(i.job, i.key, i.caller, i.generation, i.prepared.digest, i.now, r);
    var d := Execute(db, b);
    TerminalIffOneFormalResult(db, i.job);
    PartialIndexIsNeverHit(db, b);
    AcceptEffect(db, b);
    hide HasFormalResult;
    Access(db, SubmitCall(i, SStart, None), r);
    Access(db, SubmitCall(i, SReadKey, None), r);
    Access(db, SubmitCall(i, SReadLease, None), r);
    Access(db, SubmitCall(i, SReadFormal, None), r);
    Access(db, SubmitCall(i, SAccept, None), r);
    Access(d, SubmitCall(i, SConfirm, Some(Drawn(db))), r);
    Access(d, SubmitCall(i, SConfirmTerminal, Some(Drawn(db))), r);
    AloneDone(d, SubmitCall(i, SDone(Accepted(Drawn(db))), Some(Drawn(db))), r);
  }

  /** The lone submit, case by case, in the order in which the checks are made. */
  function SubmitDecision(db: Db, i: SubmitInput): SubmitAnswer {
    if InputRefused(i) then Refused(VALIDATION_FAILED, None)
    else if i.key in db.proposals then
      (match Verdict(db.proposals[i.key], i.prepared.digest) case Some(a) => a case None => Refused(CONFLICT, None))
    else if i.declared == Unknown || StructureFailed(i) then Refused(VALIDATION_FAILED, None)
    else
      var fault := LeaseFaultOf(db, i.job, i.caller, i.generation, i.now);
      if fault.Some? then Refused(LEASE_INVALID, fault)
      else if EffectiveOrigin(i) == CHATGPT then Accepted(Drawn(db)) else AcceptedSynthetic(Drawn(db))
  }

  /**
   * What a lone submit answers. SECOND_RESULT never appears: a completed job has no lease, so
   * a later result under a new key is refused as LEASE_INVALID / NO_LEASE before that check.
   */
  lemma {:induction false} LoneSubmitAnswer(db: Db, i: SubmitInput, r: int)
    requires Inv(db)
    ensures var c := LoneSubmit(db, i, r).1; c.SubmitCall? && c.spc == SDone(SubmitDecision(db, i))
    ensures SubmitDecision(db, i).Accepted? <==> Acceptable(db, i)
    ensures
      && i.job in db.terminals && !InputRefused(i) && i.key !in db.proposals
      && i.declared != Unknown && !StructureFailed(i) ==>
        SubmitDecision(db, i) == Refused(LEASE_INVALID, Some(NO_LEASE))
  {
    hide Execute, Alone, Remaining, HasFormalResult;
    assert i.job in db.terminals ==> i.job !in db.leases;
    hide Inv;
    Access(db, SubmitCall(i, SStart, None), r);
    if InputRefused(i) {
      AloneDone(db, SubmitCall(i, SDone(SubmitDecision(db, i)), None), r);
    } else if Acceptable(db, i) {
      AcceptableIsAccepted(db, i, r);
    } else {
      Access(db, SubmitCall(i, SReadKey, None), r);
      if i.key in db.proposals {
        LoneVerdict(db, i, r);
      } else if i.declared == Unknown {
        AloneDone(db, SubmitCall(i, SDone(SubmitDecision(db, i)), None), r);
      } else if StructureFailed(i) {
        LoneReject(db, i, VALIDATION_FAILED, None, r);
      } else {
        Access(db, SubmitCall(i, SReadLease, None), r);
        var fault := LeaseFaultOf(db, i.job, i.caller, i.generation, i.now);
        if fault.Some? {
          LoneReject(db, i, LEASE_INVALID, fault, r);
        } else {
          var b := AcceptSynthetic(i.job, i.key, i.caller, EffectiveOrigin(i), i.prepared.digest, i.now, r);
          Access(db, SubmitCall(i, SSynthetic, None), r);
          AloneDone(Execute(db, b), SubmitCall(i, SDone(AcceptedSynthetic(Drawn(db))), Some(Drawn(db))), r);
        }
      }
    }
  }

  lemma {:induction false} LoneVerdict(db: Db, i: SubmitInput, r: int)
    requires i.key in db.proposals && !InputRefused(i)
    ensures var c := Alone(db, SubmitCall(i, AfterVerdict(db.proposals[i.key], i.prepared.digest), None), r).1;
      c.SubmitCall? && c.spc == SDone(SubmitDecision(db, i))
  {
    hide Execute, Alone, Remaining;
    var row := db.proposals[i.key];
    if Verdict(row, i.prepared.digest).None? {
      var d := Execute(db, Conflict(i.job, row.id, i.caller, i.now, r));
      Access(db, SubmitCall(i, SConflict(row.id), None), r);
      AloneDone(d, SubmitCall(i, SDone(SubmitDecision(db, i)), None), r);
    } else {
      AloneDone(db, SubmitCall(i, SDone(SubmitDecision(db, i)), None), r);
    }
  }

  lemma {:induction false} LoneReject(db: Db, i: SubmitInput, reason: SubmitReason, fault: Option<LeaseFault>, r: int)
    requires i.key !in db.proposals
    ensures var c := Alone(db, SubmitCall(i, SReject(reason, fault), None), r).1;
      c.SubmitCall? && c.spc == SDone(Refused(reason, fault))
  {
    hide Execute, Alone, Remaining;
    var b := SubmitBatch(i, SReject(reason, fault), r);
    Access(db, SubmitCall(i, SReject(reason, fault), None), r);
    AloneDone(Execute(db, b), SubmitCall(i, SDone(Refused(reason, fault)), Some(Drawn(db))), r);
  }

  /** Retrying an accepted submit, at any time, replays it and changes nothing. */
  lemma {:induction false} AcceptedRetryReplays(db: Db, i: SubmitInput, r: int, again: SubmitInput, q: int)
    requires Inv(db) && Acceptable(db, i)
    requires again == i.(now := again.now)
    ensures var d := LoneSubmit(db, i, r).0;
      LoneSubmit(d, again, q) == (d, SubmitCall(again, SDone(Replayed(Drawn(db), i.now)), None))
  {
    hide Execute, Alone, Remaining, Violates, Inv;
    var b := Accept(i.job, i.key, i.caller, i.generation, i.prepared.digest, i.now, r);
    var d := Execute(db, b);
    AcceptableIsAccepted(db, i, r);
    PartialIndexIsNeverHit(db, b);
    AcceptEffect(db, b);
    Access(d, SubmitCall(again, SStart, None), q);
    Access(d, SubmitCall(again, SReadKey, None), q);
    AloneDone(d, SubmitCall(again, SDone(Replayed(Drawn(db), i.now)), None), q);
  }

  predicate Deferrable(db: Db, i: DeferInput) {
    && !DeferInputRefused(i) && i.recheckAt > i.now
    && !DeferKeyUsed(db, i.key) && i.job !in db.deferrals
    && Holds(db, i.job, i.caller, i.generation, i.now)
    && i.job !in db.terminals
  }

  lemma {:induction false} DeferEffect(db: Db, b: Batch)
    requires b.Defer? && Holds(db, b.job, b.owner, b.generation, b.now) && b.job !in db.terminals
    requires b.job !in db.deferrals && !DeferKeyUsed(db, b.key)
    ensures !Violates(db, b)
    ensures var d := Execute(db, b);
      && d.leases == db.leases - {b.job} && d.terminals == db.terminals
      && d.deferrals == db.deferrals[b.job :=
           Deferral(b.key, b.owner, b.why, b.recheckAt, b.now, b.request, Some(ActionOf(b)))]
  {
  }

  /** A deferrable call answers DEFERRED; its job is then deferred until the recheck time and queued after. */
  lemma {:induction false} DeferrableIsDeferred(db: Db, i: DeferInput, r: int, t: int)
    requires Inv(db) && Deferrable(db, i)
    ensures var (d, c) := Alone(db, DeferCall(i, DStart), r);
      && d == Execute(db, DeferBatch(i, r)) && c == DeferCall(i, DDone(DeferAccepted(i.recheckAt)))
      && StatusOf(d, i.job, t) == (if t < i.recheckAt then JobDeferred else JobQueued)
  {
    hide Execute, Alone, Remaining, Violates, Inv, DeferKeyUsed;
    var b := DeferBatch(i, r);
    DeferEffect(db, b);
    Access(db, DeferCall(i, DStart), r);
    Access(db, DeferCall(i, DReadKey), r);
    Access(db, DeferCall(i, DReadDeferral), r);
    Access(db, DeferCall(i, DBatch), r);
    AloneDone(Execute(db, b), DeferCall(i, DDone(DeferAccepted(i.recheckAt))), r);
  }
}
