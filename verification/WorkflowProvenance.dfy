/**
 * What the rows and events of a run say about the calls that wrote them: whose input a row
 * carries, which origin it may have, which lease its caller held, what a defer key is bound to,
 * and the audit trail of every call.
 */
module WorkflowProvenance {
  import opened Basics
  import opened ReceiptLog
  import opened WorkflowTables
  import opened LeaseHistory
  import opened WorkflowCalls
  import opened WorkflowRuns
  import opened WorkflowAnswers

  // ---------------------------------------------------------------------------------------
  // Rows carry the input of their call
  // ---------------------------------------------------------------------------------------

  /** A declared origin that stands for a production result: none at all, or CHATGPT. */
  predicate ClaimsFormal(d: Declared) { d == Unset || d == Declared(CHATGPT) }

  /** An informal caller never files under CHATGPT; a formal one under what it declares. */
  predicate OriginFits(caller: Principal, d: Declared, origin: Origin) {
    && (ClaimsFormal(d) ==> origin == (if caller.Formal? then CHATGPT else SYNTHETIC))
    && (!ClaimsFormal(d) ==> d == Declared(origin))
  }

  /** What the source refuses as malformed: a formal caller must claim a formal result. */
  predicate Malformed(i: SubmitInput) {
    i.prepared.oversize || i.prepared.structureError || (i.caller.Formal? && !ClaimsFormal(i.declared))
  }

  /** The proposal row is the one this submit may store. */
  predicate SubmittedRow(row: Proposal, i: SubmitInput) {
    && row.job == i.job && row.caller == i.caller && row.digest == i.prepared.digest && row.createdAt == i.now
    && OriginFits(i.caller, i.declared, row.origin)
    && i.generation >= 1 && i.keyWellFormed
    && (row.status == REJECTED(VALIDATION_FAILED) <==> Malformed(i))
    && row.status != REJECTED(CONFLICT)
  }

  predicate DeferredRow(row: Deferral, job: int, i: DeferInput) {
    && i.why.Some? && i.generation >= 1 && i.keyWellFormed && job == i.job
    && row.key == i.key && row.owner == i.caller && row.reason == i.why.value
    && row.recheckAt == i.recheckAt && row.deferredAt == i.now
    && row.action == Some(DeferAction(i.job, i.caller, i.generation, i.why.value, i.recheckAt))
  }

  ghost predicate Carries(db: Db, r: int, c: Call) {
    && (forall k :: k in db.proposals && db.proposals[k].request == r ==>
          c.SubmitCall? && k == c.submit.key && SubmittedRow(db.proposals[k], c.submit))
    && (forall j :: j in db.deferrals && db.deferrals[j].request == r ==>
          c.DeferCall? && DeferredRow(db.deferrals[j], j, c.defer))
  }

  lemma {:induction false} AccessCarries(db: Db, r: int, c: Call)
    requires CallInv(db, r, c) && !IsDone(c) && Carries(db, r, c)
    ensures Carries(After(db, Issues(c, r)), r, Resume(db, c, r))
  {
    hide Execute, Violates, SubmitResume, ClaimResume, DeferResume;
    if Issues(c, r).Some? {
      var b := Issues(c, r).value;
      StoredRows(db, b);
      forall j | j in Execute(db, b).deferrals && Execute(db, b).deferrals[j].request == r
        ensures c.DeferCall? && DeferredRow(Execute(db, b).deferrals[j], j, c.defer)
      {
        if j in db.deferrals { RowsAreKept(db, b); } else { NewDeferral(db, b, j); }
      }
    }
  }

  lemma {:induction false} OthersCarry(db: Db, d: Db, q: int, r: int, c: Call)
    requires Carries(db, r, c) && OnlyAdds(db, d, q) && q != r
    ensures Carries(d, r, c)
  {
  }

  lemma {:induction false} FreshCarries(w: World, r: int, c: Call, v: World)
    requires WorldInv(w) && Begins(w, r, c, v)
    ensures Carries(v.tables.db, r, c)
  {
  }

  lemma {:induction false} StepCarries(w: World, v: World, r: int)
    requires WorldInv(w) && Step(w, v) && r in v.calls
    requires r in w.calls ==> Carries(w.tables.db, r, w.calls[r])
    ensures Carries(v.tables.db, r, v.calls[r])
  {
    hide WorldInv, Execute, Resume, IsInitial, Issues, Carries, OnlyAdds, IsDone;
    if q, c :| Begins(w, q, c, v) {
      if q == r { FreshCarries(w, r, c, v); }
    } else {
      var q :| Proceeds(w, q, v);
      KnownPoint(w, q);
      if q == r {
        AccessCarries(w.tables.db, r, w.calls[r]);
      } else if Issues(w.calls[q], q).Some? {
        IssuedIsWellBound(w.tables.db, q, w.calls[q]);
        BatchOnlyAdds(w.tables.db, Issues(w.calls[q], q).value);
        OthersCarry(w.tables.db, v.tables.db, q, r, w.calls[r]);
      }
    }
  }

  lemma {:induction false} KnownPoint(w: World, r: int)
    requires WorldInv(w) && r in w.calls
    ensures CallInv(w.tables.db, r, w.calls[r]) && ProposalInv(w.tables.db)
  {
  }

  /** Over every run a row carries exactly the input of the call that wrote it. */
  lemma {:induction false} RowsCarryTheirInput(run: seq<World>, n: nat, r: int)
    requires Run(run) && n < |run| && r in run[n].calls
    ensures Carries(run[n].tables.db, r, run[n].calls[r])
  {
    hide Step, WorldInv, Carries;
    assert n != 0;
    if r in run[n - 1].calls {
      RowsCarryTheirInput(run, n - 1, r);
    }
    ReachableInv(run, n - 1);
    assert Step(run[n - 1], run[n - 1 + 1]);
    StepCarries(run[n - 1], run[n], r);
  }

  /** A formal result written by a call of the run is a formal caller's, who declared nothing or CHATGPT. */
  lemma {:induction false} FormalResultsAreFormalCallers(run: seq<World>, n: nat, k: int)
    requires Run(run) && n < |run| && k in run[n].tables.db.proposals
    requires run[n].tables.db.proposals[k].request in run[n].calls
    ensures var row := run[n].tables.db.proposals[k];
      var c := run[n].calls[row.request];
      && c.SubmitCall? && row.caller == c.submit.caller
      && (row.origin == CHATGPT <==> row.caller.Formal? && ClaimsFormal(c.submit.declared))
      && (row.status == RECEIVED ==> (row.origin == CHATGPT <==> row.caller.Formal?))
  {
    hide Run;
    RowsCarryTheirInput(run, n, run[n].tables.db.proposals[k].request);
  }

  /** Only formal callers are ever ACCEPTED, only informal ones ACCEPTED_SYNTHETIC. */
  lemma {:induction false} OnlyFormalCallersAreAccepted(run: seq<World>, n: nat, r: int)
    requires Run(run) && n < |run| && SubmitDone(run[n], r)
    ensures var i, answer := run[n].calls[r].submit, run[n].calls[r].spc.answer;
      && (answer.Accepted? ==> i.caller.Formal? && ClaimsFormal(i.declared))
      && (answer.AcceptedSynthetic? ==> i.caller.Informal?)
      && (answer.Accepted? || answer.AcceptedSynthetic? ==> !Malformed(i) && i.generation >= 1 && i.keyWellFormed)
  {
    hide Run;
    RowsCarryTheirInput(run, n, r);
    EveryAnswerHolds(run, n, r);
  }

  // ---------------------------------------------------------------------------------------
  // Which lease an answer rests on
  // ---------------------------------------------------------------------------------------

  /** The caller's live lease of this generation. */
  predicate HoldsLease(db: Db, job: int, caller: Principal, generation: int, now: int) {
    && job in db.leases && db.leases[job].expiresAt > now
    && db.leases[job].owner == caller && db.leases[job].count == generation
  }

  /** What each reported fault says of the lease row; the earlier checks have passed. */
  predicate Faulty(db: Db, job: int, caller: Principal, generation: int, now: int, fault: LeaseFault) {
    match fault
    case NO_LEASE => job !in db.leases
    case EXPIRED => job in db.leases && db.leases[job].expiresAt <= now
    case OWNER_MISMATCH => job in db.leases && db.leases[job].expiresAt > now && db.leases[job].owner != caller
    case GENERATION_STALE =>
      && job in db.leases && db.leases[job].expiresAt > now
      && db.leases[job].owner == caller && db.leases[job].count != generation
  }

  ghost predicate Held(run: seq<World>, n: nat, job: int, caller: Principal, generation: int, now: int)
    requires n < |run|
  {
    exists k :: 0 <= k <= n && HoldsLease(run[k].tables.db, job, caller, generation, now)
  }

  ghost predicate Faulted(run: seq<World>, n: nat, job: int, caller: Principal, generation: int, now: int,
                          fault: LeaseFault)
    requires n < |run|
  {
    exists k :: 0 <= k <= n && Faulty(run[k].tables.db, job, caller, generation, now, fault)
  }

  ghost predicate AnswerRests(run: seq<World>, n: nat, i: SubmitInput, answer: SubmitAnswer)
    requires n < |run|
  {
    match answer
    case Accepted(_) => Held(run, n, i.job, i.caller, i.generation, i.now)
    case AcceptedSynthetic(_) => Held(run, n, i.job, i.caller, i.generation, i.now)
    case Replayed(_, _) => true
    case Refused(reason, fault) =>
      fault.Some? ==> reason == LEASE_INVALID && Faulted(run, n, i.job, i.caller, i.generation, i.now, fault.value)
  }

  ghost predicate SubmitRests(run: seq<World>, n: nat, i: SubmitInput, pc: SubmitPc)
    requires n < |run|
  {
    match pc
    case SReject(reason, fault) => AnswerRests(run, n, i, Refused(reason, fault))
    case SRace(fallback) => AnswerRests(run, n, i, fallback)
    case SDone(answer) => AnswerRests(run, n, i, answer)
    case SReadFormal => Held(run, n, i.job, i.caller, i.generation, i.now)
    case SAccept => Held(run, n, i.job, i.caller, i.generation, i.now)
    case SSynthetic => Held(run, n, i.job, i.caller, i.generation, i.now)
    case SConfirm => Held(run, n, i.job, i.caller, i.generation, i.now)
    case SConfirmTerminal => Held(run, n, i.job, i.caller, i.generation, i.now)
    case _ => true
  }

  ghost predicate WasClaimed(run: seq<World>, n: nat, job: int, now: int)
    requires n < |run|
  {
    exists k :: 0 <= k <= n && job in run[k].tables.db.leases && run[k].tables.db.leases[job].expiresAt > now
  }

  ghost predicate WasUndeferred(run: seq<World>, n: nat, job: int, now: int)
    requires n < |run|
  {
    exists k :: 0 <= k <= n
      && (job in run[k].tables.db.deferrals ==> run[k].tables.db.deferrals[job].recheckAt <= now)
  }

  /** A lost defer batch is explained by a later read; a lease held by then is reported as NO_LEASE. */
  ghost predicate DeferRests(run: seq<World>, n: nat, i: DeferInput, pc: DeferPc)
    requires n < |run|
  {
    match pc
    case DDone(answer) => (match answer
      case DeferAccepted(at) => Held(run, n, i.job, i.caller, i.generation, i.now)
      case DeferReplayed(_, current) => (match current
        case JobCompleted => i.job in run[n].tables.db.terminals
        case JobClaimed => WasClaimed(run, n, i.job, i.now)
        case JobDeferred =>
          i.job in run[n].tables.db.deferrals && run[n].tables.db.deferrals[i.job].recheckAt > i.now
        case JobQueued => WasUndeferred(run, n, i.job, i.now))
      case DeferRefused(reason, fault) => fault.Some? || reason == LEASE_INVALID ==>
        && reason == LEASE_INVALID && fault.Some?
        && (|| Faulted(run, n, i.job, i.caller, i.generation, i.now, fault.value)
            || (fault.value == NO_LEASE && Held(run, n, i.job, i.caller, i.generation, i.now)))
      case DeferUnavailable => true)
    case _ => true
  }

  /** Only this call's own grant carries the token it drew. */
  ghost predicate TokenIsOwn(db: Db, i: ClaimInput, token: int) {
    && token < db.nextId
    && forall j :: j in db.leases && db.leases[j].token == token ==>
         j == i.job && db.leases[j].claimedAt == i.now && db.leases[j].expiresAt == i.now + LEASE_TTL
  }

  ghost predicate ClaimRests(db: Db, i: ClaimInput, pc: ClaimPc) {
    match pc
    case CLease(_, token) => TokenIsOwn(db, i, token)
    case CDone(answer) => answer.Claimed? ==> answer.owner == i.owner && answer.expiresAt > i.now
    case _ => true
  }

  ghost predicate Rests(run: seq<World>, n: nat, c: Call)
    requires n < |run|
  {
    match c
    case ClaimCall(i, pc) => ClaimRests(run[n].tables.db, i, pc)
    case SubmitCall(i, pc, _) => SubmitRests(run, n, i, pc)
    case DeferCall(i, pc) => DeferRests(run, n, i, pc)
  }

  lemma {:induction false} HeldBefore(run: seq<World>, n: nat, job: int, caller: Principal, generation: int, now: int)
    requires n + 1 < |run|
    ensures Held(run, n, job, caller, generation, now) ==> Held(run, n + 1, job, caller, generation, now)
    ensures forall f :: Faulted(run, n, job, caller, generation, now, f) ==>
      Faulted(run, n + 1, job, caller, generation, now, f)
    ensures WasClaimed(run, n, job, now) ==> WasClaimed(run, n + 1, job, now)
    ensures WasUndeferred(run, n, job, now) ==> WasUndeferred(run, n + 1, job, now)
  {
  }

  lemma {:induction false} TokenStaysOwn(w: World, v: World, i: ClaimInput, token: int)
    requires WorldInv(w) && Step(w, v) && TokenIsOwn(w.tables.db, i, token)
    ensures TokenIsOwn(v.tables.db, i, token)
  {
    hide WorldInv, Step;
    StepDraws(w, v);
    forall j | j in v.tables.db.leases && v.tables.db.leases[j].token == token
      ensures j == i.job && v.tables.db.leases[j].claimedAt == i.now
      ensures v.tables.db.leases[j].expiresAt == i.now + LEASE_TTL
    {
      StepChangesLease(w, v, j);
    }
  }

  lemma {:induction false} StepDraws(w: World, v: World)
    requires Step(w, v)
    ensures w.tables.db.nextId <= v.tables.db.nextId
  {
    hide Execute, Resume, Issues, Ends;
    if r, c :| Begins(w, r, c, v) {
    } else {
      var r :| Proceeds(w, r, v);
      if Issues(w.calls[r], r).Some? { RowsAreKept(w.tables.db, Issues(w.calls[r], r).value); }
    }
  }

  lemma {:induction false} GrantDrawsToken(db: Db, i: ClaimInput, r: int)
    requires LeaseInv(db)
    ensures TokenIsOwn(Execute(db, Claim(i.job, i.owner, i.now, r)), i, Drawn(db))
  {
  }

  lemma {:induction false} ClaimAccessRests(db: Db, d: Db, i: ClaimInput, pc: ClaimPc, r: int)
    requires LeaseInv(db) && ClaimRests(db, i, pc) && !pc.CDone? && d == After(db, ClaimIssues(i, pc, r))
    ensures ClaimRests(d, i, ClaimResume(db, i, pc))
  {
    hide Execute;
    if pc.CBatch? { GrantDrawsToken(db, i, r); }
  }

  lemma {:induction false} StillRests(run: seq<World>, n: nat, c: Call)
    requires n + 1 < |run| && Rests(run, n, c) && KeepsRows(run[n].tables.db, run[n + 1].tables.db)
    requires Step(run[n], run[n + 1]) && WorldInv(run[n])
    ensures Rests(run, n + 1, c)
  {
    hide Held, Faulted, WasClaimed, WasUndeferred, Step, WorldInv, TokenIsOwn;
    match c
    case ClaimCall(i, pc) =>
      if pc.CLease? { TokenStaysOwn(run[n], run[n + 1], i, pc.token); }
    case SubmitCall(i, _, _) => HeldBefore(run, n, i.job, i.caller, i.generation, i.now);
    case DeferCall(i, _) => HeldBefore(run, n, i.job, i.caller, i.generation, i.now);
  }

  lemma {:induction false} LeaseIsRead(run: seq<World>, n: nat, job: int, caller: Principal, generation: int, now: int)
    requires n < |run|
    ensures var fault := LeaseFaultOf(run[n].tables.db, job, caller, generation, now);
      && (fault.Some? ==> Faulted(run, n, job, caller, generation, now, fault.value))
      && (fault.None? ==> Held(run, n, job, caller, generation, now))
    ensures Holds(run[n].tables.db, job, caller, generation, now) ==> Held(run, n, job, caller, generation, now)
    ensures LiveLease(run[n].tables.db, job, now) ==> WasClaimed(run, n, job, now)
    ensures !ActiveDeferral(run[n].tables.db, job, now) ==> WasUndeferred(run, n, job, now)
  {
    var db := run[n].tables.db;
    var fault := LeaseFaultOf(db, job, caller, generation, now);
    if fault.Some? {
      assert Faulty(db, job, caller, generation, now, fault.value);
    } else {
      assert HoldsLease(db, job, caller, generation, now);
    }
    if Holds(db, job, caller, generation, now) {
      assert HoldsLease(db, job, caller, generation, now);
    }
  }

  lemma {:induction false} SubmitAccessRests(run: seq<World>, n: nat, i: SubmitInput, pc: SubmitPc,
          own: Option<int>, r: int)
    requires n < |run| && SubmitRests(run, n, i, pc) && !pc.SDone?
    ensures SubmitRests(run, n, i, SubmitResume(run[n].tables.db, i, pc, own, r))
  {
    hide Held, Faulted, WasClaimed, WasUndeferred, Violates, LeaseFaultOf, HasFormalResult;
    LeaseIsRead(run, n, i.job, i.caller, i.generation, i.now);
  }

  lemma {:induction false} DeferAccessRests(run: seq<World>, n: nat, i: DeferInput, pc: DeferPc, r: int)
    requires n < |run| && DeferRests(run, n, i, pc) && !pc.DDone?
    ensures DeferRests(run, n, i, DeferResume(run[n].tables.db, i, pc, r))
  {
    hide Held, Faulted, WasClaimed, WasUndeferred, Violates, LeaseFaultOf;
    LeaseIsRead(run, n, i.job, i.caller, i.generation, i.now);
  }

  lemma {:induction false} StepRests(run: seq<World>, n: nat, r: int)
    requires n + 1 < |run| && Step(run[n], run[n + 1]) && r in run[n + 1].calls && WorldInv(run[n])
    requires r in run[n].calls ==> Rests(run, n, run[n].calls[r])
    ensures Rests(run, n + 1, run[n + 1].calls[r])
  {
    var w, v := run[n], run[n + 1];
    StepKeepsRows(w, v);
    if r in w.calls { KnownCall(w, r); }
    if r in w.calls { KnownPoint(w, r); }
    assert LeaseInv(w.tables.db);
    hide Step, KeepsRows, SubmitRests, DeferRests, ClaimRests, Execute, WorldInv, Issues, LeaseInv, CallInv;
    hide ProposalInv, SubmitResume, ClaimResume, DeferResume;
    StepOfCall(w, v, r);
    if r !in w.calls {
      InitialRests(run, n + 1, v.calls[r]);
    } else if v.calls[r] == w.calls[r] {
      StillRests(run, n, v.calls[r]);
    } else {
      match w.calls[r]
      case ClaimCall(i, pc) =>
        StepOfClaim(w, v, r);
        ClaimAccessRests(w.tables.db, v.tables.db, i, pc, r);
      case SubmitCall(i, pc, own) =>
        SubmitAccessRests(run, n, i, pc, own, r);
        StillRests(run, n, v.calls[r]);
      case DeferCall(i, pc) =>
        DeferAccessRests(run, n, i, pc, r);
        StillRests(run, n, v.calls[r]);
    }
  }

  /** The tables after a claim's own access. */
  lemma {:induction false} StepOfClaim(w: World, v: World, r: int)
    requires Step(w, v) && r in w.calls && r in w.used && r in v.calls && v.calls[r] != w.calls[r]
    requires w.calls[r].ClaimCall?
    ensures v.tables.db == After(w.tables.db, ClaimIssues(w.calls[r].claim, w.calls[r].cpc, r))
  {
    hide Execute, Resume, Ends, IsDone;
    if q, c :| Begins(w, q, c, v) {
    } else {
      var q :| Proceeds(w, q, v);
    }
  }

  lemma {:induction false} InitialRests(run: seq<World>, n: nat, c: Call)
    requires n < |run| && IsInitial(c)
    ensures Rests(run, n, c)
  {
  }

  /**
   * Over every run: an acceptance rests on the caller's live lease of its generation, a reported
   * fault on a lease row that had it, and a replay's status on what the tables said.
   */
  lemma {:induction false} AnswersRestOnTheLease(run: seq<World>, n: nat, r: int)
    requires Run(run) && n < |run| && r in run[n].calls
    ensures Rests(run, n, run[n].calls[r])
    decreases n
  {
    hide Step, WorldInv, Rests;
    assert n != 0;
    if r in run[n - 1].calls {
      AnswersRestOnTheLease(run, n - 1, r);
    }
    ReachableInv(run, n - 1);
    assert Step(run[n - 1], run[n - 1 + 1]);
    StepRests(run, n - 1, r);
  }

  lemma {:induction false} StepRowIsTheHolders(w: World, v: World, job: int) returns (r: int)
    requires Step(w, v) && RowAppears(w.tables.db, v.tables.db, job)
    ensures r in w.calls
    ensures var c := w.calls[r];
      || (&& c.SubmitCall? && c.spc.SAccept? && c.submit.job == job
          && HoldsLease(w.tables.db, job, c.submit.caller, c.submit.generation, c.submit.now))
      || (&& c.DeferCall? && c.dpc.DBatch? && c.defer.job == job
          && HoldsLease(w.tables.db, job, c.defer.caller, c.defer.generation, c.defer.now))
  {
    hide Execute, Resume;
    if q, c :| Begins(w, q, c, v) {
      r := q;
    } else {
      r :| Proceeds(w, r, v);
      if Issues(w.calls[r], r).Some? {
        NewRowReleasesTheLease(w.tables.db, Issues(w.calls[r], r).value, job);
      }
    }
  }

  /**
   * At the very step at which a terminal or deferral row appears, its call holds the job's live
   * lease of the generation it names, however long ago it read it.
   */
  lemma {:induction false} RowsAppearForTheHolder(run: seq<World>, n: nat, job: int) returns (r: int)
    requires Run(run) && n + 1 < |run| && RowAppears(run[n].tables.db, run[n + 1].tables.db, job)
    ensures r in run[n].calls
    ensures var c := run[n].calls[r];
      || (&& c.SubmitCall? && c.spc.SAccept? && c.submit.job == job
          && HoldsLease(run[n].tables.db, job, c.submit.caller, c.submit.generation, c.submit.now))
      || (&& c.DeferCall? && c.dpc.DBatch? && c.defer.job == job
          && HoldsLease(run[n].tables.db, job, c.defer.caller, c.defer.generation, c.defer.now))
  {
    hide Step, RowAppears, WorldInv, HoldsLease;
    ReachableInv(run, n);
    assert Step(run[n], run[n + 1]);
    r := StepRowIsTheHolders(run[n], run[n + 1], job);
  }

  lemma {:induction false} BatchReleases(db: Db, b: Batch, job: int)
    requires job in db.leases && job !in Execute(db, b).leases
    ensures b.job == job && !Violates(db, b)
    ensures b.AcceptSynthetic?
         || ((b.Accept? || b.Defer?) && HoldsLease(db, job, b.owner, b.generation, b.now))
  {
    hide HasFormalResult, DeferKeyUsed, Append;
  }

  /**
   * Who ends a lease period: the holder itself by a formal result or a deferral, or an informal
   * caller by a synthetic one, which releases whatever lease the job has by then.
   */
  lemma {:induction false} LeaseEndsBy(run: seq<World>, n: nat, job: int) returns (r: int)
    requires Run(run) && n + 1 < |run|
    requires job in run[n].tables.db.leases && job !in run[n + 1].tables.db.leases
    ensures r in run[n].calls
    ensures var c := run[n].calls[r];
      || (&& c.SubmitCall? && c.spc.SAccept? && c.submit.job == job && c.submit.caller.Formal?
          && HoldsLease(run[n].tables.db, job, c.submit.caller, c.submit.generation, c.submit.now))
      || (&& c.DeferCall? && c.dpc.DBatch? && c.defer.job == job
          && HoldsLease(run[n].tables.db, job, c.defer.caller, c.defer.generation, c.defer.now))
      || (c.SubmitCall? && c.spc.SSynthetic? && c.submit.job == job && c.submit.caller.Informal?)
  {
    hide Step, WorldInv, HoldsLease;
    ReachableInv(run, n);
    assert Step(run[n], run[n + 1]);
    r := StepEndsLease(run[n], run[n + 1], job);
  }

  lemma {:induction false} StepEndsLease(w: World, v: World, job: int) returns (r: int)
    requires WorldInv(w) && Step(w, v) && job in w.tables.db.leases && job !in v.tables.db.leases
    ensures r in w.calls
    ensures var c := w.calls[r];
      || (&& c.SubmitCall? && c.spc.SAccept? && c.submit.job == job && c.submit.caller.Formal?
          && HoldsLease(w.tables.db, job, c.submit.caller, c.submit.generation, c.submit.now))
      || (&& c.DeferCall? && c.dpc.DBatch? && c.defer.job == job
          && HoldsLease(w.tables.db, job, c.defer.caller, c.defer.generation, c.defer.now))
      || (c.SubmitCall? && c.spc.SSynthetic? && c.submit.job == job && c.submit.caller.Informal?)
  {
    hide Execute, Resume, WorldInv, HoldsLease;
    if q, c :| Begins(w, q, c, v) {
      r := q;
    } else {
      r :| Proceeds(w, r, v);
      if Issues(w.calls[r], r).Some? {
        BatchReleases(w.tables.db, Issues(w.calls[r], r).value, job);
        KnownPoint(w, r);
        CallersByPoint(w.tables.db, r, w.calls[r]);
      }
    }
  }

  lemma {:induction false} CallersByPoint(db: Db, r: int, c: Call)
    requires CallInv(db, r, c)
    ensures c.SubmitCall? && c.spc.SAccept? ==> c.submit.caller.Formal?
    ensures c.SubmitCall? && c.spc.SSynthetic? ==> c.submit.caller.Informal?
  {
  }

  // ---------------------------------------------------------------------------------------
  // What a claim is refused for
  // ---------------------------------------------------------------------------------------

  /** Where a claim can be that is going to see the completion of its job. */
  predicate MeetsCompletion(db: Db, c: Call) {
    && c.ClaimCall? && c.claim.job in db.terminals
    && (|| (c.cpc.CVisible? && c.claim.visible) || c.cpc.CTerminal? || c.cpc.CBatch? || c.cpc.CLease?
        || c.cpc.CTerminalAgain? || c.cpc.CDeny? || c.cpc == CDone(NotClaimable(TERMINAL)))
  }

  /** Where a claim can be that is going to see the deferral of its job, if not its completion. */
  predicate MeetsDeferral(db: Db, c: Call) {
    && c.ClaimCall? && c.claim.job in db.deferrals && db.deferrals[c.claim.job].recheckAt > c.claim.now
    && (|| (c.cpc.CVisible? && c.claim.visible) || c.cpc.CTerminal? || c.cpc.CDeferral?
        || c.cpc.CTerminalAgain? || c.cpc.CDeferralAgain? || (c.cpc.CDeny? && c.claim.job in db.terminals)
        || c.cpc == CDone(NotClaimable(DEFERRED))
        || (c.cpc == CDone(NotClaimable(TERMINAL)) && c.claim.job in db.terminals))
  }

  lemma {:induction false} AccessMeets(db: Db, d: Db, c: Call, r: int)
    requires !IsDone(c) && KeepsRows(db, d) && (forall j :: j in db.terminals ==> j !in db.leases)
    ensures MeetsCompletion(db, c) ==> MeetsCompletion(d, Resume(db, c, r))
    ensures MeetsDeferral(db, c) ==> MeetsDeferral(d, Resume(db, c, r))
  {
    hide SubmitResume, DeferResume;
  }

  lemma {:induction false} StepMeets(w: World, v: World, r: int)
    requires WorldInv(w) && Step(w, v) && r in w.calls
    ensures r in v.calls
    ensures MeetsCompletion(w.tables.db, w.calls[r]) ==> MeetsCompletion(v.tables.db, v.calls[r])
    ensures MeetsDeferral(w.tables.db, w.calls[r]) ==> MeetsDeferral(v.tables.db, v.calls[r])
    ensures w.calls[r].ClaimCall? ==> v.calls[r].ClaimCall? && v.calls[r].claim == w.calls[r].claim
  {
    assert TerminalInv(w.tables.db);
    KnownCall(w, r);
    StepKeepsRows(w, v);
    StepKeepsCalls(w, v, r);
    hide Step, WorldInv, ClaimResume, SubmitResume, DeferResume;
    StepOfCall(w, v, r);
    if v.calls[r] != w.calls[r] {
      AccessMeets(w.tables.db, v.tables.db, w.calls[r], r);
    }
  }

  /**
   * A claim that still reads the terminal row of a completed job is answered TERMINAL; one that
   * still reads an active deferral is answered DEFERRED, or TERMINAL if the job is completed by then.
   */
  lemma {:induction false} ClaimSeesTheEnd(run: seq<World>, m: nat, n: nat, r: int)
    requires Run(run) && m <= n < |run| && r in run[m].calls && run[m].calls[r].ClaimCall?
    ensures r in run[n].calls && run[n].calls[r].ClaimCall? && run[n].calls[r].claim == run[m].calls[r].claim
    ensures MeetsCompletion(run[m].tables.db, run[m].calls[r]) ==>
      && MeetsCompletion(run[n].tables.db, run[n].calls[r])
      && (run[n].calls[r].cpc.CDone? ==> run[n].calls[r].cpc.answer == NotClaimable(TERMINAL))
    ensures MeetsDeferral(run[m].tables.db, run[m].calls[r]) ==>
      && MeetsDeferral(run[n].tables.db, run[n].calls[r])
      && (run[n].calls[r].cpc.CDone? ==> run[n].calls[r].cpc.answer in {NotClaimable(DEFERRED), NotClaimable(TERMINAL)})
  {
    hide WorldInv, Step;
    if m < n {
      ClaimSeesTheEnd(run, m, n - 1, r);
      ReachableInv(run, n - 1);
      assert Step(run[n - 1], run[n - 1 + 1]);
      StepMeets(run[n - 1], run[n], r);
    }
  }

  // ---------------------------------------------------------------------------------------
  // What a defer key is bound to
  // ---------------------------------------------------------------------------------------

  /** The row under the key stands for this very request: five fields, compared one by one. */
  predicate SameRequest(row: Deferral, i: DeferInput) {
    && row.action.Some? && i.why.Some?
    && row.action.value.job == i.job && row.action.value.owner == i.caller
    && row.action.value.generation == i.generation && row.action.value.reason == i.why.value
    && row.action.value.recheckAt == i.recheckAt
  }

  predicate RefusedAsMalformed(i: DeferInput) { i.generation < 1 || !i.keyWellFormed || i.why == None }

  /** The call still reads its key before anything else can decide. */
  predicate ReadsItsKey(i: DeferInput, pc: DeferPc) {
    (pc.DStart? && !RefusedAsMalformed(i)) || pc.DReadKey? || pc.DBatch? || pc.DAfterViolation? || pc.DReread?
  }

  predicate Replaying(at: int, pc: DeferPc) {
    || pc == DStatusTerminal(at) || pc == DStatusLease(at) || pc == DStatusDeferral(at)
    || (pc.DDone? && pc.answer.DeferReplayed? && pc.answer.recheckAt == at)
  }

  predicate Conflicted(pc: DeferPc) { pc == DDone(DeferRefused(CONFLICT, None)) }

  /** Where a defer call can be once `j` holds the row of its key. */
  predicate BoundByKey(db: Db, c: Call, j: int) {
    && c.DeferCall? && j in db.deferrals && db.deferrals[j].key == c.defer.key
    && (|| ReadsItsKey(c.defer, c.dpc)
        || (c.dpc.DReadDeferral? && !SameRequest(db.deferrals[j], c.defer))
        || (if SameRequest(db.deferrals[j], c.defer) then Replaying(c.defer.recheckAt, c.dpc) else Conflicted(c.dpc)))
  }

  lemma {:induction false} RowUnderKey(db: Db, i: DeferInput, j: int)
    requires DeferralInv(db) && j in db.deferrals && db.deferrals[j].key == i.key && i.why.Some?
    ensures DeferralByKey(db, i.key) == Some(db.deferrals[j])
    ensures AfterDeferral(db.deferrals[j], i)
      == if SameRequest(db.deferrals[j], i) then DStatusTerminal(i.recheckAt) else DDone(DeferRefused(CONFLICT, None))
  {
  }

  lemma {:induction false} OwnAccessIsBound(db: Db, d: Db, c: Call, r: int, j: int)
    requires DeferralInv(db) && CallInv(db, r, c) && BoundByKey(db, c, j) && !IsDone(c)
    requires j in d.deferrals && d.deferrals[j] == db.deferrals[j]
    ensures BoundByKey(d, Resume(db, c, r), j)
  {
    var i := c.defer;
    hide DeferralInv;
    if i.why.Some? { RowUnderKey(db, i, j); }
  }

  lemma {:induction false} StepIsBound(w: World, v: World, r: int, j: int)
    requires WorldInv(w) && Step(w, v) && r in w.calls && BoundByKey(w.tables.db, w.calls[r], j)
    ensures r in v.calls && BoundByKey(v.tables.db, v.calls[r], j)
    ensures v.calls[r].defer == w.calls[r].defer && v.tables.db.deferrals[j] == w.tables.db.deferrals[j]
  {
    assert CallInv(w.tables.db, r, w.calls[r]) && DeferralInv(w.tables.db);
    KnownCall(w, r);
    StepKeepsRows(w, v);
    hide WorldInv, CallInv, Execute, DeferResume, Issues, DeferralInv, SameRequest;
    hide Step;
    StepKeepsCalls(w, v, r);
    StepOfCall(w, v, r);
    if v.calls[r] != w.calls[r] {
      OwnAccessIsBound(w.tables.db, v.tables.db, w.calls[r], r, j);
    }
  }

  lemma {:induction false} StepKeepsCalls(w: World, v: World, r: int)
    requires Step(w, v) && r in w.calls
    ensures r in v.calls
  {
    hide Execute, Resume, Ends, IsDone;
  }

  /**
   * A stored deferral decides every later defer of its key that still reads it: the same
   * request is answered by a replay of its recheck time, one that differs in job, owner,
   * generation, reason or recheck time by CONFLICT.
   */
  lemma {:induction false} DeferKeyDecidesTheAnswer(run: seq<World>, m: nat, n: nat, r: int, j: int)
    requires Run(run) && m <= n < |run| && r in run[m].calls && BoundByKey(run[m].tables.db, run[m].calls[r], j)
    ensures r in run[n].calls && BoundByKey(run[n].tables.db, run[n].calls[r], j)
    ensures run[n].calls[r].defer == run[m].calls[r].defer
    ensures run[n].tables.db.deferrals[j] == run[m].tables.db.deferrals[j]
    ensures DeferDone(run[n], r) ==>
      var i, answer := run[n].calls[r].defer, run[n].calls[r].dpc.answer;
      if SameRequest(run[m].tables.db.deferrals[j], i)
      then answer.DeferReplayed? && answer.recheckAt == i.recheckAt
      else answer == DeferRefused(CONFLICT, None)
  {
    hide WorldInv, Step, SameRequest;
    if m < n {
      DeferKeyDecidesTheAnswer(run, m, n - 1, r, j);
      ReachableInv(run, n - 1);
      assert Step(run[n - 1], run[n - 1 + 1]);
      StepIsBound(run[n - 1], run[n], r, j);
    }
  }

  /** The row under the key stands for this request, or for another one. */
  ghost predicate KeyStandsFor(db: Db, i: DeferInput, same: bool) {
    exists j :: j in db.deferrals && db.deferrals[j].key == i.key && SameRequest(db.deferrals[j], i) == same
  }

  /** A replay means that the very same request is stored; CONFLICT, another one or a deferred job. */
  lemma {:induction false} DeferAnswersNameTheRow(run: seq<World>, n: nat, r: int)
    requires Run(run) && n < |run| && DeferDone(run[n], r)
    ensures var db, i, answer := run[n].tables.db, run[n].calls[r].defer, run[n].calls[r].dpc.answer;
      && (answer.DeferReplayed? ==>
            answer.recheckAt == i.recheckAt && i.job in db.deferrals && KeyStandsFor(db, i, true))
      && (answer.DeferRefused? && answer.reason == CONFLICT ==> KeyStandsFor(db, i, false) || i.job in db.deferrals)
  {
    ReachableInv(run, n);
    assert CallInv(run[n].tables.db, r, run[n].calls[r]) && DeferralInv(run[n].tables.db);
    ClaimAndDeferAnswersHold(run, n, r);
    ReplaysAreWellFormed(run, n, r);
    hide WorldInv, CallInv, Run;
    var db, i, answer := run[n].tables.db, run[n].calls[r].defer, run[n].calls[r].dpc.answer;
    if answer.DeferReplayed? {
      var j :| j in db.deferrals && db.deferrals[j].key == i.key
        && db.deferrals[j].action == Some(WantedAction(i)) && db.deferrals[j].recheckAt == answer.recheckAt;
      assert SameRequest(db.deferrals[j], i);
    }
    if answer.DeferRefused? && answer.reason == CONFLICT && OtherAction(db, i) {
      var j :| j in db.deferrals && db.deferrals[j].key == i.key && db.deferrals[j].action != Some(WantedAction(i));
      assert !SameRequest(db.deferrals[j], i);
    }
  }

  predicate PastItsChecks(c: Call) {
    c.DeferCall? && !c.dpc.DStart? && !(c.dpc.DDone? && !c.dpc.answer.DeferReplayed?) ==>
      !RefusedAsMalformed(c.defer)
  }

  lemma {:induction false} AccessPassesChecks(db: Db, c: Call, r: int)
    requires PastItsChecks(c) && !IsDone(c)
    ensures PastItsChecks(Resume(db, c, r))
  {
    hide Violates;
  }

  lemma {:induction false} ReplaysAreWellFormed(run: seq<World>, n: nat, r: int)
    requires Run(run) && n < |run| && r in run[n].calls
    ensures PastItsChecks(run[n].calls[r])
  {
    hide Step, WorldInv, PastItsChecks;
    assert n != 0;
    if r in run[n - 1].calls {
      ReplaysAreWellFormed(run, n - 1, r);
    }
    ReachableInv(run, n - 1);
    assert Step(run[n - 1], run[n - 1 + 1]);
    StepPassesChecks(run[n - 1], run[n], r);
  }

  lemma {:induction false} StepPassesChecks(w: World, v: World, r: int)
    requires WorldInv(w) && Step(w, v) && r in v.calls && (r in w.calls ==> PastItsChecks(w.calls[r]))
    ensures PastItsChecks(v.calls[r])
  {
    if r in w.calls { KnownCall(w, r); }
    StepOfCall(w, v, r);
    hide WorldInv, Step, Resume;
    if r in w.calls && v.calls[r] != w.calls[r] {
      AccessPassesChecks(w.tables.db, w.calls[r], r);
    }
  }

  /** A retry that read its key before the original stored it is answered CONFLICT, not by a replay. */
  lemma {:induction false} RacingRetryConflicts(run: seq<World>, m: nat, n: nat, r: int)
    requires Run(run) && m <= n < |run| && r in run[m].calls && run[m].calls[r].DeferCall?
    requires run[m].calls[r].dpc.DReadDeferral? && run[m].calls[r].defer.job in run[m].tables.db.deferrals
    ensures r in run[n].calls && run[n].calls[r].DeferCall? && run[n].calls[r].defer == run[m].calls[r].defer
    ensures run[n].calls[r].dpc.DReadDeferral? || run[n].calls[r].dpc == DDone(DeferRefused(CONFLICT, None))
    ensures run[n].calls[r].defer.job in run[n].tables.db.deferrals
  {
    hide WorldInv, Step;
    if m < n {
      RacingRetryConflicts(run, m, n - 1, r);
      ReachableInv(run, n - 1);
      assert Step(run[n - 1], run[n - 1 + 1]);
      KnownCall(run[n - 1], r);
      StepKeepsRows(run[n - 1], run[n]);
      StepKeepsCalls(run[n - 1], run[n], r);
      StepOfCall(run[n - 1], run[n], r);
    }
  }

  // ---------------------------------------------------------------------------------------
  // The audit trail
  // ---------------------------------------------------------------------------------------

  /** What an event says beside its id. */
  datatype Entry = Entry(job: int, kind: EventKind, actor: Principal, proposal: Option<int>, at: int)

  /** The entries of one call, in the order they were written. */
  function Trail(events: seq<Event>, request: int): seq<Entry> {
    if events == [] then [] else
      var e := events[|events| - 1];
      Trail(events[..|events| - 1], request)
        + if e.request == request then [Entry(e.job, e.kind, e.actor, e.proposal, e.at)] else []
  }

  lemma {:induction false} EmitTrail(db: Db, job: int, kind: EventKind, actor: Principal, p: Option<int>,
          request: int, at: int, r: int)
    ensures Trail(Emit(db, job, kind, actor, p, request, at).log.events, r)
      == Trail(db.log.events, r) + if request == r then [Entry(job, kind, actor, p, at)] else []
  {
    var e := Event(db.nextId, job, kind, actor, p, request, at);
    assert (db.log.events + [e])[..|db.log.events|] == db.log.events;
  }

  lemma {:induction false} UnknownTrail(events: seq<Event>, r: int)
    requires forall e :: e in events ==> e.request != r
    ensures Trail(events, r) == []
  {
    if events != [] {
      UnknownTrail(events[..|events| - 1], r);
    }
  }

  /** The events a batch writes: an overwritten lease, a grant, a refusal, a stored row, a completion. */
  function Written(db: Db, b: Batch): seq<Entry> {
    match b
    case Claim(job, owner, now, _) =>
      if !Preemptable(db, job, now) then []
      else (if job in db.leases then [Entry(job, LEASE_EXPIRED, db.leases[job].owner, None, now)] else [])
           + [Entry(job, CLAIMED, owner, None, now)]
    case Deny(job, owner, now, _) => [Entry(job, CLAIM_DENIED, owner, None, now)]
    case Conflict(job, existing, owner, now, _) => [Entry(job, SUBMIT_CONFLICT, owner, Some(existing), now)]
    case Reject(job, _, owner, _, _, _, now, _) =>
      if Stores(db, b) then [Entry(job, SUBMIT_REJECTED, owner, Some(db.nextId), now)] else []
    case AcceptSynthetic(job, _, owner, _, _, now, _) =>
      if Stores(db, b) then [Entry(job, SUBMIT_RECEIVED, owner, Some(db.nextId), now)] else []
    case Accept(job, _, owner, _, _, now, _) =>
      if Stores(db, b) then [Entry(job, SUBMIT_RECEIVED, owner, Some(db.nextId), now),
                             Entry(job, COMPLETED, owner, Some(db.nextId), now)] else []
    case Defer(_, _, _, _, _, _, _, _) => []
  }

  lemma {:induction false} BatchTrail(db: Db, b: Batch, r: int)
    ensures Trail(Execute(db, b).log.events, r)
      == Trail(db.log.events, r) + if b.request == r then Written(db, b) else []
  {
    hide Emit, HasFormalResult, DeferKeyUsed, Trail;
    if Violates(db, b) { return; }
    match b
    case Claim(_, _, _, _) =>
      if Preemptable(db, b.job, b.now) {
        if b.job in db.leases {
          EmitTrail(Draw(db), b.job, LEASE_EXPIRED, db.leases[b.job].owner, None, b.request, b.now, r);
        }
        EmitTrail(Grant(db, b), b.job, CLAIMED, b.owner, None, b.request, b.now, r);
      }
    case Deny(j, owner, now, request) => EmitTrail(db, j, CLAIM_DENIED, owner, None, request, now, r);
    case Conflict(j, existing, owner, now, request) =>
      EmitTrail(db, j, SUBMIT_CONFLICT, owner, Some(existing), request, now, r);
    case Reject(j, _, owner, _, _, _, now, request) =>
      EmitTrail(StoreProposal(db, b), j, SUBMIT_REJECTED, owner, Some(Drawn(db)), request, now, r);
    case AcceptSynthetic(j, _, owner, _, _, now, request) =>
      EmitTrail(StoreProposal(db, b), j, SUBMIT_RECEIVED, owner, Some(Drawn(db)), request, now, r);
    case Accept(_, _, _, _, _, _, _) =>
      if Completes(db, b) {
        EmitTrail(StoreResult(db, b), b.job, SUBMIT_RECEIVED, b.owner, Some(Drawn(db)), b.request, b.now, r);
        EmitTrail(AuditReceipt(db, b), b.job, COMPLETED, b.owner, Some(Drawn(db)), b.request, b.now, r);
      }
    case Defer(_, _, _, _, _, _, _, _) =>
  }

  /** The trail a submit owes: that of the row it stored, or of the conflict it answered. */
  function SubmitTrail(db: Db, r: int, i: SubmitInput, pc: SubmitPc): seq<Entry> {
    if OwnsRow(db, r, i.key) then RowTrail(db.proposals[i.key], i)
    else if pc == SDone(Refused(CONFLICT, None)) && i.key in db.proposals then
      [Entry(i.job, SUBMIT_CONFLICT, i.caller, Some(db.proposals[i.key].id), i.now)]
    else []
  }

  function RowTrail(row: Proposal, i: SubmitInput): seq<Entry> {
    match row.status
    case REJECTED(_) => [Entry(i.job, SUBMIT_REJECTED, i.caller, Some(row.id), i.now)]
    case RECEIVED =>
      [Entry(i.job, SUBMIT_RECEIVED, i.caller, Some(row.id), i.now)]
        + (if row.origin == CHATGPT then [Entry(i.job, COMPLETED, i.caller, Some(row.id), i.now)] else [])
  }

  /** At most `n` grants, each preceded by the expiry of the lease it takes over, if there was one. */
  predicate Grants(t: seq<Entry>, i: ClaimInput, n: nat) {
    var last := |t| - 1;
    t == [] ||
    (&& n > 0 && t[last] == Entry(i.job, CLAIMED, i.owner, None, i.now)
     && (|| Grants(t[..last], i, n - 1)
         || (&& last > 0 && t[last - 1] == Entry(i.job, LEASE_EXPIRED, t[last - 1].actor, None, i.now)
             && Grants(t[..last - 1], i, n - 1))))
  }

  /** How many claim batches a claim may have sent by a program point. */
  function BatchesSent(pc: ClaimPc): nat {
    match pc
    case CBatch(a) => a
    case CLease(a, _) => a + 1
    case CTerminalAgain(a) => a + 1
    case CDeferralAgain(a) => a + 1
    case CCurrent(a) => a + 1
    case CVisible => 0 case CTerminal => 0 case CDeferral => 0
    case CDeny => CLAIM_ATTEMPTS case CDone(_) => CLAIM_ATTEMPTS
  }

  predicate ClaimTrail(t: seq<Entry>, i: ClaimInput, pc: ClaimPc) {
    if pc == CDone(NotClaimable(TERMINAL)) then
      t != [] && t[|t| - 1] == Entry(i.job, CLAIM_DENIED, i.owner, None, i.now)
      && Grants(t[..|t| - 1], i, CLAIM_ATTEMPTS)
    else
      && Grants(t, i, BatchesSent(pc)) && BatchesSent(pc) <= CLAIM_ATTEMPTS
      && (pc.CBatch? ==> pc.attempt < CLAIM_ATTEMPTS)
  }

  predicate Audited(db: Db, r: int, c: Call) {
    match c
    case ClaimCall(i, pc) => ClaimTrail(Trail(db.log.events, r), i, pc)
    case SubmitCall(i, pc, _) => Trail(db.log.events, r) == SubmitTrail(db, r, i, pc)
    case DeferCall(_, _) => Trail(db.log.events, r) == []
  }

  lemma {:induction false} OneMoreGrant(t: seq<Entry>, i: ClaimInput, n: nat, db: Db, r: int)
    requires Grants(t, i, n)
    ensures Grants(t + Written(db, Claim(i.job, i.owner, i.now, r)), i, n + 1)
  {
    var more := Written(db, Claim(i.job, i.owner, i.now, r));
    var u := t + more;
    if more == [] {
      assert u == t;
      MoreGrants(t, i, n, n + 1);
    } else if |more| == 1 {
      assert u[..|u| - 1] == t;
    } else {
      assert u[..|u| - 2] == t;
    }
  }

  lemma {:induction false} MoreGrants(t: seq<Entry>, i: ClaimInput, m: nat, n: nat)
    requires Grants(t, i, m) && m <= n
    ensures Grants(t, i, n)
  {
    if t != [] {
      if Grants(t[..|t| - 1], i, m - 1) {
        MoreGrants(t[..|t| - 1], i, m - 1, n - 1);
      } else {
        MoreGrants(t[..|t| - 2], i, m - 1, n - 1);
      }
    }
  }

  lemma {:induction false} ClaimAccessAudited(db: Db, r: int, i: ClaimInput, pc: ClaimPc)
    requires Audited(db, r, ClaimCall(i, pc)) && !pc.CDone?
    ensures Audited(After(db, ClaimIssues(i, pc, r)), r, ClaimCall(i, ClaimResume(db, i, pc)))
  {
    hide Execute, Violates, Grants, Written, Trail;
    var t, next := Trail(db.log.events, r), ClaimResume(db, i, pc);
    match pc
    case CBatch(a) =>
      BatchTrail(db, Claim(i.job, i.owner, i.now, r), r);
      OneMoreGrant(t, i, a, db, r);
    case CDeny =>
      BatchTrail(db, Deny(i.job, i.owner, i.now, r), r);
      DenyIsWritten(db, i, r);
      assert (t + [Entry(i.job, CLAIM_DENIED, i.owner, None, i.now)])[..|t|] == t;
    case _ =>
      if BatchesSent(pc) <= BatchesSent(next) { MoreGrants(t, i, BatchesSent(pc), BatchesSent(next)); }
  }

  lemma {:induction false} DenyIsWritten(db: Db, i: ClaimInput, r: int)
    ensures Written(db, Deny(i.job, i.owner, i.now, r)) == [Entry(i.job, CLAIM_DENIED, i.owner, None, i.now)]
  {
  }

  lemma {:induction false} SubmitWriteAudited(db: Db, r: int, i: SubmitInput, pc: SubmitPc, own: Option<int>)
    requires ProposalInv(db) && CallInv(db, r, SubmitCall(i, pc, own)) && IsSubmitBatch(pc)
    requires Audited(db, r, SubmitCall(i, pc, own))
    ensures Audited(Execute(db, SubmitBatch(i, pc, r)), r, Resume(db, SubmitCall(i, pc, own), r))
  {
    hide Execute, Trail;
    var b := SubmitBatch(i, pc, r);
    StoredRows(db, b);
    BatchTrail(db, b, r);
  }

  lemma {:induction false} SubmitReadAudited(db: Db, r: int, i: SubmitInput, pc: SubmitPc, own: Option<int>)
    requires ProposalInv(db) && CallInv(db, r, SubmitCall(i, pc, own)) && !IsSubmitBatch(pc) && !pc.SDone?
    requires Audited(db, r, SubmitCall(i, pc, own))
    ensures Audited(db, r, Resume(db, SubmitCall(i, pc, own), r))
  {
    hide Trail;
  }

  lemma {:induction false} AccessAudited(db: Db, r: int, c: Call)
    requires ProposalInv(db) && CallInv(db, r, c) && Audited(db, r, c) && !IsDone(c)
    ensures Audited(After(db, Issues(c, r)), r, Resume(db, c, r))
  {
    hide Execute, CallInv, Trail, SubmitResume, ClaimResume, DeferResume, SubmitTrail, ClaimTrail;
    match c
    case ClaimCall(i, pc) => ClaimAccessAudited(db, r, i, pc);
    case SubmitCall(i, pc, own) =>
      if IsSubmitBatch(pc) { SubmitWriteAudited(db, r, i, pc, own); } else { SubmitReadAudited(db, r, i, pc, own); }
    case DeferCall(i, pc) =>
      if pc.DBatch? { BatchTrail(db, DeferBatch(i, r), r); }
  }

  lemma {:induction false} OthersAudited(db: Db, b: Batch, r: int, c: Call)
    requires CallInv(db, r, c) && Audited(db, r, c) && b.request != r
    ensures Audited(Execute(db, b), r, c)
  {
    hide Execute, Trail, ClaimTrail;
    BatchTrail(db, b, r);
    BatchOnlyAdds(db, b);
    assert Trail(Execute(db, b).log.events, r) == Trail(db.log.events, r);
    if c.SubmitCall? {
      assert SubmitTrail(db, r, c.submit, c.spc) == SubmitTrail(Execute(db, b), r, c.submit, c.spc);
    }
  }

  lemma {:induction false} FreshAudited(w: World, r: int, c: Call, v: World)
    requires WorldInv(w) && Begins(w, r, c, v)
    ensures Audited(v.tables.db, r, c)
  {
    UnknownTrail(w.tables.db.log.events, r);
  }

  lemma {:induction false} StepAudited(w: World, v: World, r: int)
    requires WorldInv(w) && Step(w, v) && r in v.calls
    requires r in w.calls ==> Audited(w.tables.db, r, w.calls[r])
    ensures Audited(v.tables.db, r, v.calls[r])
  {
    if r in w.calls { KnownPoint(w, r); }
    hide WorldInv, CallInv, Execute, Resume, IsInitial, Issues, Audited, IsDone, ProposalInv;
    if q, c :| Begins(w, q, c, v) {
      if q == r { FreshAudited(w, r, c, v); }
    } else {
      var q :| Proceeds(w, q, v);
      KnownPoint(w, q);
      if q == r {
        AccessAudited(w.tables.db, r, w.calls[r]);
      } else if Issues(w.calls[q], q).Some? {
        IssuedIsWellBound(w.tables.db, q, w.calls[q]);
        OthersAudited(w.tables.db, Issues(w.calls[q], q).value, r, w.calls[r]);
      }
    }
  }

  /**
   * The audit trail of every call, at every world of every run: a submit has the entries of the
   * row it stored, or one SUBMIT_CONFLICT that names the row it met; a claim the grants it made
   * and one CLAIM_DENIED iff it was answered TERMINAL; a defer none.
   */
  lemma {:induction false} AuditTrailIsExact(run: seq<World>, n: nat, r: int)
    requires Run(run) && n < |run| && r in run[n].calls
    ensures Audited(run[n].tables.db, r, run[n].calls[r])
  {
    hide Step, WorldInv, Audited;
    assert n != 0;
    if r in run[n - 1].calls {
      AuditTrailIsExact(run, n - 1, r);
    }
    ReachableInv(run, n - 1);
    assert Step(run[n - 1], run[n - 1 + 1]);
    StepAudited(run[n - 1], run[n], r);
  }
}
