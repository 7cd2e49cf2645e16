/**
 * Any number of claim, submit and defer calls, interleaved access by access, each with its own
 * clock. A world holds the shared tables and every call that has begun.
 */
module WorkflowRuns {
  import opened Basics
  import opened ReceiptLog
  import opened WorkflowTables
  import opened LeaseHistory
  import opened WorkflowCalls

  /** `used` holds every request id ever issued; a new call gets a fresh one. */
  datatype World = World(tables: Traced, calls: map<int, Call>, used: set<int>)

  ghost predicate Begins(w: World, r: int, c: Call, v: World) {
    && r !in w.used && IsInitial(c)
    && v == World(w.tables, w.calls[r := c], w.used + {r})
  }

  /** Call `r` makes its next access. */
  ghost predicate Proceeds(w: World, r: int, v: World) {
    && r in w.calls && !IsDone(w.calls[r])
    && v.used == w.used
    && v.calls == w.calls[r := Resume(w.tables.db, w.calls[r], r)]
    && v.tables == (match Issues(w.calls[r], r) case None => w.tables case Some(b) => Next(w.tables, b))
  }

  ghost predicate Step(w: World, v: World) {
    || (exists r, c :: Begins(w, r, c, v))
    || (exists r :: Proceeds(w, r, v))
  }

  /** Before any call of the run; the tables may already hold the rows of earlier ones. */
  ghost predicate Start(w: World) {
    && HistoryInv(w.tables) && w.calls == map[]
    && (forall k :: k in w.tables.db.proposals ==> w.tables.db.proposals[k].request in w.used)
    && (forall j :: j in w.tables.db.deferrals ==> w.tables.db.deferrals[j].request in w.used)
    && (forall e :: e in w.tables.db.log.events ==> e.request in w.used)
  }

  ghost predicate Run(run: seq<World>) {
    && run != [] && Start(run[0])
    && forall i :: 0 <= i < |run| - 1 ==> Step(run[i], run[i + 1])
  }

  lemma {:induction false} EmptyStart()
    ensures Start(World(Traced(EMPTY, []), map[], {}))
  {
    EmptyHistory();
  }

  // ---------------------------------------------------------------------------------------
  // What a submit call may rely on at each program point
  // ---------------------------------------------------------------------------------------

  /** The row under the call's key was written by this call. */
  predicate OwnsRow(db: Db, r: int, key: int) {
    key in db.proposals && db.proposals[key].request == r
  }

  predicate ForeignRow(db: Db, r: int, key: int) {
    key in db.proposals && db.proposals[key].request != r
  }

  /** This call's own formal batch stored its result and completed the job. */
  predicate OwnResult(db: Db, r: int, i: SubmitInput) {
    && OwnsRow(db, r, i.key)
    && IsFormalResult(db.proposals[i.key], i.job)
    && i.job in db.terminals && db.terminals[i.job].proposal == db.proposals[i.key].id
  }

  /** What each submit answer says about the stored rows, at this instant and ever after. */
  predicate AnswerHolds(db: Db, r: int, i: SubmitInput, own: Option<int>, answer: SubmitAnswer) {
    match answer
    case Accepted(id) => OwnResult(db, r, i) && own == Some(id) && db.proposals[i.key].id == id
    case AcceptedSynthetic(id) =>
      && OwnsRow(db, r, i.key) && db.proposals[i.key].id == id
      && db.proposals[i.key].status == RECEIVED && db.proposals[i.key].origin != CHATGPT
    case Replayed(id, createdAt) =>
      && ForeignRow(db, r, i.key) && db.proposals[i.key].digest == i.prepared.digest
      && db.proposals[i.key].status == RECEIVED
      && db.proposals[i.key].id == id && db.proposals[i.key].createdAt == createdAt
    case Refused(reason, _) =>
      if OwnsRow(db, r, i.key) then db.proposals[i.key].status == REJECTED(reason)
      else if reason == CONFLICT then ForeignRow(db, r, i.key) && db.proposals[i.key].digest != i.prepared.digest
      else
        || (ForeignRow(db, r, i.key) && db.proposals[i.key].digest == i.prepared.digest
            && db.proposals[i.key].status == REJECTED(reason))
        || (reason == VALIDATION_FAILED && (InputRefused(i) || i.declared == Unknown))
        || (reason == SECOND_RESULT && i.job in db.terminals)
        || reason == LEASE_INVALID
  }

  predicate PassedStructure(i: SubmitInput, own: Option<int>) {
    own == None && !InputRefused(i) && i.declared != Unknown && !StructureFailed(i)
  }

  predicate SubmitPoint(db: Db, r: int, i: SubmitInput, pc: SubmitPc, own: Option<int>) {
    match pc
    case SStart => own == None
    case SReadKey => own == None && !InputRefused(i)
    case SConflict(id) =>
      ForeignRow(db, r, i.key) && db.proposals[i.key].digest != i.prepared.digest && db.proposals[i.key].id == id
    case SReadLease => PassedStructure(i, own)
    case SReadFormal => PassedStructure(i, own) && EffectiveOrigin(i) == CHATGPT
    case SReject(reason, fault) =>
      && own == None && !InputRefused(i) && i.declared != Unknown && reason != CONFLICT
      && (reason == VALIDATION_FAILED <==> StructureFailed(i)) && (fault.Some? ==> reason == LEASE_INVALID)
    case SAccept => PassedStructure(i, own) && EffectiveOrigin(i) == CHATGPT
    case SSynthetic => PassedStructure(i, own) && EffectiveOrigin(i) != CHATGPT
    case SConfirm => OwnsRow(db, r, i.key) ==> OwnResult(db, r, i)
    case SConfirmTerminal => OwnResult(db, r, i)
    case SFormalRace => !OwnsRow(db, r, i.key)
    case SRace(_) => ForeignRow(db, r, i.key)
    case SCheckTerminal => !OwnsRow(db, r, i.key)
    case SDone(answer) => AnswerHolds(db, r, i, own, answer)
  }

  /** Request ids and proposal ids identify the same rows. */
  ghost predicate SubmitRows(db: Db, r: int, i: SubmitInput, own: Option<int>) {
    && (forall k :: k in db.proposals && db.proposals[k].request == r ==> k == i.key && own == Some(db.proposals[k].id))
    && (own.Some? ==> own.value < db.nextId)
    && (own.Some? ==> forall k :: k in db.proposals && db.proposals[k].id == own.value ==> db.proposals[k].request == r)
  }

  /** This call's own defer batch stored the deferral. */
  predicate OwnDeferral(db: Db, r: int, i: DeferInput) {
    && i.job in db.deferrals && db.deferrals[i.job].request == r
    && db.deferrals[i.job].action == Some(WantedAction(i)) && db.deferrals[i.job].key == i.key
  }

  ghost predicate DeferPoint(db: Db, r: int, i: DeferInput, pc: DeferPc) {
    && (forall j :: j in db.deferrals && db.deferrals[j].request == r ==>
          j == i.job && pc == DDone(DeferAccepted(i.recheckAt)))
    && (!pc.DStart? && !pc.DDone? ==> !DeferInputRefused(i))
    && (pc.DDone? && pc.answer.DeferAccepted? ==> OwnDeferral(db, r, i) && pc.answer == DeferAccepted(i.recheckAt))
  }

  ghost predicate CallInv(db: Db, r: int, c: Call) {
    match c
    case ClaimCall(_, _) =>
      && (forall k :: k in db.proposals ==> db.proposals[k].request != r)
      && (forall j :: j in db.deferrals ==> db.deferrals[j].request != r)
    case SubmitCall(i, pc, own) =>
      && SubmitPoint(db, r, i, pc, own) && SubmitRows(db, r, i, own)
      && (forall j :: j in db.deferrals ==> db.deferrals[j].request != r)
    case DeferCall(i, pc) =>
      && DeferPoint(db, r, i, pc)
      && (forall k :: k in db.proposals ==> db.proposals[k].request != r)
  }

  ghost predicate RequestsKnown(db: Db, used: set<int>) {
    && (forall k :: k in db.proposals ==> db.proposals[k].request in used)
    && (forall j :: j in db.deferrals ==> db.deferrals[j].request in used)
    && (forall e :: e in db.log.events ==> e.request in used)
  }

  ghost predicate WorldInv(w: World) {
    && HistoryInv(w.tables)
    && RequestsKnown(w.tables.db, w.used)
    && (forall r :: r in w.calls ==> r in w.used)
    && (forall r :: r in w.calls ==> CallInv(w.tables.db, r, w.calls[r]))
  }

  // ---------------------------------------------------------------------------------------
  // Preservation
  // ---------------------------------------------------------------------------------------

  /** Another call's batch adds only rows of its own and keeps all others. */
  ghost predicate OnlyAdds(db: Db, d: Db, request: int) {
    && db.nextId <= d.nextId
    && (forall k :: k in db.proposals ==> k in d.proposals && d.proposals[k] == db.proposals[k])
    && (forall k :: k in d.proposals && k !in db.proposals ==>
          d.proposals[k].request == request && d.proposals[k].id >= db.nextId)
    && (forall j :: j in db.terminals ==> j in d.terminals && d.terminals[j] == db.terminals[j])
    && (forall j :: j in db.deferrals ==> j in d.deferrals && d.deferrals[j] == db.deferrals[j])
    && (forall j :: j in d.deferrals && j !in db.deferrals ==> d.deferrals[j].request == request)
  }

  lemma {:induction false} NewDeferral(db: Db, b: Batch, job: int)
    requires job in Execute(db, b).deferrals && job !in db.deferrals
    ensures b.Defer? && job == b.job && !Violates(db, b)
    ensures Holds(db, b.job, b.owner, b.generation, b.now) && b.job !in db.terminals
    ensures Execute(db, b).deferrals[job] ==
      Deferral(b.key, b.owner, b.why, b.recheckAt, b.now, b.request, Some(ActionOf(b)))
  {
  }

  lemma {:induction false} BatchOnlyAdds(db: Db, b: Batch)
    ensures OnlyAdds(db, Execute(db, b), b.request)
  {
    hide Execute, Violates;
    RowsAreKept(db, b);
    StoredRows(db, b);
    forall j | j in Execute(db, b).deferrals && j !in db.deferrals
      ensures Execute(db, b).deferrals[j].request == b.request
    {
      NewDeferral(db, b, j);
    }
  }

  /** What a call knows survives every batch of every other call. */
  lemma {:induction false} CallInvIsStable(db: Db, d: Db, request: int, r: int, c: Call)
    requires CallInv(db, r, c) && OnlyAdds(db, d, request) && request != r
    ensures CallInv(d, r, c)
  {
    match c
    case ClaimCall(_, _) =>
    case SubmitCall(i, pc, own) =>
    case DeferCall(i, pc) =>
  }

  lemma {:induction false} ClaimProceeds(db: Db, r: int, i: ClaimInput, pc: ClaimPc)
    requires CallInv(db, r, ClaimCall(i, pc)) && !pc.CDone?
    ensures CallInv(After(db, ClaimIssues(i, pc, r)), r, Resume(db, ClaimCall(i, pc), r))
  {
    hide Execute, Violates;
    if pc.CBatch? || pc.CDeny? {
      var b := ClaimIssues(i, pc, r).value;
      StoredRows(db, b);
      forall j | j in Execute(db, b).deferrals ensures Execute(db, b).deferrals[j].request != r {
        if j !in db.deferrals {
          NewDeferral(db, b, j);
        } else {
          RowsAreKept(db, b);
        }
      }
    }
  }

  lemma {:induction false} IssuedIsWellBound(db: Db, r: int, c: Call)
    requires CallInv(db, r, c) && Issues(c, r).Some?
    ensures WellBound(Issues(c, r).value) && Issues(c, r).value.request == r
  {
  }

  lemma {:induction false} SubmitReads(db: Db, r: int, i: SubmitInput, pc: SubmitPc, own: Option<int>)
    requires ProposalInv(db) && CallInv(db, r, SubmitCall(i, pc, own))
    requires !pc.SDone? && !IsSubmitBatch(pc)
    ensures CallInv(db, r, Resume(db, SubmitCall(i, pc, own), r))
  {
    hide Violates;
  }

  lemma {:induction false} SubmitWrites(db: Db, r: int, i: SubmitInput, pc: SubmitPc, own: Option<int>)
    requires ProposalInv(db) && CallInv(db, r, SubmitCall(i, pc, own)) && IsSubmitBatch(pc)
    ensures CallInv(Execute(db, SubmitBatch(i, pc, r)), r, Resume(db, SubmitCall(i, pc, own), r))
  {
    hide Execute;
    var b := SubmitBatch(i, pc, r);
    var d := Execute(db, b);
    StoredRows(db, b);
    if !pc.SConflict? {
      BatchDraws(db, b);
    }
    assert d.deferrals == db.deferrals by { NoNewDeferral(db, b); }
  }

  lemma {:induction false} BatchDraws(db: Db, b: Batch)
    requires b.Reject? || b.Accept? || b.AcceptSynthetic?
    ensures Drawn(db) < Execute(db, b).nextId
  {
  }

  lemma {:induction false} NoNewDeferral(db: Db, b: Batch)
    requires !b.Defer?
    ensures Execute(db, b).deferrals == db.deferrals
  {
  }

  lemma {:induction false} DeferProceeds(db: Db, r: int, i: DeferInput, pc: DeferPc)
    requires CallInv(db, r, DeferCall(i, pc)) && !pc.DDone?
    ensures CallInv(After(db, DeferIssues(i, pc, r)), r, Resume(db, DeferCall(i, pc), r))
  {
    hide Execute;
    if pc.DBatch? {
      var b := DeferBatch(i, r);
      var d := Execute(db, b);
      StoredRows(db, b);
      RowsAreKept(db, b);
      forall j | j in d.deferrals && d.deferrals[j].request == r
        ensures j == i.job && Resume(db, DeferCall(i, pc), r).dpc == DDone(DeferAccepted(i.recheckAt))
      {
        if j !in db.deferrals {
          NewDeferral(db, b, j);
        }
      }
      if Resume(db, DeferCall(i, pc), r).dpc.DDone? {
        DeferStores(db, b);
      }
    }
  }

  /** An unviolated defer batch on the caller's live lease stores the row and removes the lease. */
  lemma {:induction false} DeferStores(db: Db, b: Batch)
    requires b.Defer? && !Violates(db, b)
    requires Holds(db, b.job, b.owner, b.generation, b.now) && b.job !in db.terminals
    ensures b.job in Execute(db, b).deferrals && b.job !in Execute(db, b).leases
    ensures Execute(db, b).deferrals[b.job] ==
      Deferral(b.key, b.owner, b.why, b.recheckAt, b.now, b.request, Some(ActionOf(b)))
  {
  }

  lemma {:induction false} CallProceeds(db: Db, r: int, c: Call)
    requires ProposalInv(db) && CallInv(db, r, c) && !IsDone(c)
    ensures CallInv(After(db, Issues(c, r)), r, Resume(db, c, r))
  {
    hide CallInv, Execute, Resume;
    match c
    case ClaimCall(i, pc) => ClaimProceeds(db, r, i, pc);
    case SubmitCall(i, pc, own) =>
      if IsSubmitBatch(pc) { SubmitWrites(db, r, i, pc, own); } else { SubmitReads(db, r, i, pc, own); }
    case DeferCall(i, pc) => DeferProceeds(db, r, i, pc);
  }

  lemma {:induction false} RequestsStayKnown(db: Db, b: Batch, used: set<int>)
    requires RequestsKnown(db, used) && b.request in used
    ensures RequestsKnown(Execute(db, b), used)
  {
    hide Execute;
    BatchOnlyAdds(db, b);
    LogGrows(db, b);
    var events := Execute(db, b).log.events;
    forall e | e in events ensures e.request in used {
      var n :| 0 <= n < |events| && events[n] == e;
      if n < |db.log.events| {
        assert e == events[..|db.log.events|][n];
        assert e in db.log.events;
      }
    }
  }

  lemma {:induction false} ProceedKeepsInv(w: World, r: int, v: World)
    requires WorldInv(w) && Proceeds(w, r, v)
    ensures WorldInv(v)
  {
    hide CallInv, Execute, Resume, HistoryInv, RequestsKnown, IsDone, Issues, OnlyAdds;
    var db, c := w.tables.db, w.calls[r];
    var issued := Issues(c, r);
    assert ProposalInv(db) by { HistoryHasProposals(w.tables); }
    CallProceeds(db, r, c);
    if issued.Some? {
      var b := issued.value;
      IssuedIsWellBound(db, r, c);
      NextKeepsHistory(w.tables, b);
      RequestsStayKnown(db, b, w.used);
      BatchOnlyAdds(db, b);
    }
    forall q | q in v.calls ensures CallInv(v.tables.db, q, v.calls[q]) {
      if q != r && issued.Some? {
        CallInvIsStable(db, v.tables.db, r, q, w.calls[q]);
      }
    }
  }

  lemma {:induction false} HistoryHasProposals(t: Traced)
    requires HistoryInv(t)
    ensures ProposalInv(t.db)
  {
  }

  lemma {:induction false} BeginKeepsInv(w: World, r: int, c: Call, v: World)
    requires WorldInv(w) && Begins(w, r, c, v)
    ensures WorldInv(v)
  {
    hide HistoryInv;
  }

  /** Every invariant holds in every world of every interleaving, with arbitrary clocks. */
  lemma {:induction false} ReachableInv(run: seq<World>, n: nat)
    requires Run(run) && n < |run|
    ensures WorldInv(run[n])
  {
    if n > 0 {
      ReachableInv(run, n - 1);
      StepKeepsInv(run[n - 1], run[n]);
    }
  }

  lemma {:induction false} StepKeepsInv(w: World, v: World)
    requires WorldInv(w) && Step(w, v)
    ensures WorldInv(v)
  {
    hide WorldInv, Begins, Proceeds;
    if r, c :| Begins(w, r, c, v) {
      BeginKeepsInv(w, r, c, v);
    } else {
      var r :| Proceeds(w, r, v);
      ProceedKeepsInv(w, r, v);
    }
  }
}
