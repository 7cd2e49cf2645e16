/**
 * Calls that run one after another are runs of the interleaved machine, so what a lone call
 * reaches is reachable.
 */
module LoneRuns {
  import opened Basics
  import opened ReceiptLog
  import opened WorkflowTables
  import opened LeaseHistory
  import opened WorkflowCalls
  import opened WorkflowRuns
  import opened LoneCalls

  ghost function Last(run: seq<World>): World
    requires run != []
  {
    run[|run| - 1]
  }

  lemma {:induction false} RunThen(run: seq<World>, v: World)
    requires Run(run) && Step(Last(run), v)
    ensures Run(run + [v])
  {
    hide Step, Start;
    var longer := run + [v];
    forall i | 0 <= i < |longer| - 1 ensures Step(longer[i], longer[i + 1]) {
      if i < |run| - 1 {
        assert longer[i] == run[i] && longer[i + 1] == run[i + 1];
      }
    }
  }

  /** The next access of call `r`, as a step. */
  ghost function Proceeded(w: World, r: int): World
    requires r in w.calls
  {
    var issued := Issues(w.calls[r], r);
    World(match issued case None => w.tables case Some(b) => Next(w.tables, b),
          w.calls[r := Resume(w.tables.db, w.calls[r], r)], w.used)
  }

  lemma {:induction false} ProceededIsStep(w: World, r: int)
    requires r in w.calls && !IsDone(w.calls[r])
    ensures Step(w, Proceeded(w, r))
    ensures Proceeded(w, r).tables.db == After(w.tables.db, Issues(w.calls[r], r))
    ensures Proceeded(w, r).used == w.used && Proceeded(w, r).calls == w.calls[r := Resume(w.tables.db, w.calls[r], r)]
  {
    hide Execute, Resume, Ends;
    assert Proceeds(w, r, Proceeded(w, r));
  }

  /** Every other call stays at its program point. */
  predicate OthersWait(w: World, v: World, r: int) {
    forall q :: q in w.calls && q != r ==> q in v.calls && v.calls[q] == w.calls[q]
  }

  /** From `w` to `v` call `r` has run to its answer, and nothing else has happened. */
  ghost predicate RanAlone(w: World, v: World, r: int)
    requires r in w.calls
  {
    && v.used == w.used && OthersWait(w, v, r) && r in v.calls
    && (v.tables.db, v.calls[r]) == Alone(w.tables.db, w.calls[r], r)
  }

  lemma {:induction false} OneAccessEarlier(w: World, u: World, r: int)
    requires r in w.calls && !IsDone(w.calls[r]) && RanAlone(Proceeded(w, r), u, r)
    ensures RanAlone(w, u, r)
  {
    hide Execute, Resume, Issues, Alone, Remaining, IsDone, Proceeded;
    ProceededIsStep(w, r);
    Access(w.tables.db, w.calls[r], r);
  }

  lemma {:induction false} DoneRanAlone(w: World, r: int)
    requires r in w.calls && IsDone(w.calls[r])
    ensures RanAlone(w, w, r)
  {
    hide Alone;
    AloneDone(w.tables.db, w.calls[r], r);
  }

  lemma {:induction false} CallRunsOn(run: seq<World>, r: int) returns (longer: seq<World>)
    requires Run(run) && r in Last(run).calls
    ensures Run(longer) && run <= longer && RanAlone(Last(run), Last(longer), r)
    decreases Remaining(Last(run).calls[r])
  {
    var w := Last(run);
    hide Run, RanAlone, Proceeded, Resume, Issues, Remaining, After, IsDone;
    longer := run;
    if IsDone(w.calls[r]) {
      DoneRanAlone(w, r);
    } else {
      var v := Proceeded(w, r);
      ProceededIsStep(w, r);
      RunThen(run, v);
      EveryAccessCounts(w.tables.db, w.calls[r], r);
      longer := CallRunsOn(run + [v], r);
      OneAccessEarlier(w, Last(longer), r);
    }
  }

  ghost function Begun(w: World, r: int, c: Call): World { World(w.tables, w.calls[r := c], w.used + {r}) }

  lemma {:induction false} CallBegins(run: seq<World>, r: int, c: Call)
    requires Run(run) && r !in Last(run).used && IsInitial(c)
    ensures Run(run + [Begun(Last(run), r, c)])
  {
    hide Start, Proceeds;
    assert Begins(Last(run), r, c, Begun(Last(run), r, c));
    RunThen(run, Begun(Last(run), r, c));
  }

  /** From the end of any run a call may run alone: some run goes on to the tables it leaves. */
  lemma {:induction false} LoneCallIsARun(run: seq<World>, r: int, c: Call) returns (longer: seq<World>)
    requires Run(run) && r !in Last(run).used && IsInitial(c)
    ensures Run(longer) && run <= longer && Last(longer).used == Last(run).used + {r}
    ensures Last(longer).tables.db == Alone(Last(run).tables.db, c, r).0
    ensures OthersWait(Last(run), Last(longer), r)
    ensures r in Last(longer).calls && Last(longer).calls[r] == Alone(Last(run).tables.db, c, r).1
  {
    hide Alone, Step, Start, IsInitial;
    CallBegins(run, r, c);
    longer := CallRunsOn(run + [Begun(Last(run), r, c)], r);
  }

  lemma {:induction false} EmptyRun()
    ensures Run([World(Traced(EMPTY, []), map[], {})])
  {
    EmptyStart();
  }

  lemma {:induction false} FirstClaim(owner: Principal)
    ensures var db := Execute(EMPTY, Claim(1, owner, 0, 1));
      && Inv(EMPTY) && Inv(db) && Alone(EMPTY, ClaimCall(ClaimInput(1, owner, true, 0), CVisible), 1).0 == db
      && Holds(db, 1, owner, 1, 0) && Holds(db, 1, owner, 1, 5)
      && db.terminals == map[] && db.proposals == map[] && db.deferrals == map[]
  {
    hide Alone, Remaining, Inv;
    EmptyInv();
    LoneClaim(EMPTY, ClaimInput(1, owner, true, 0), 1);
    ExecuteKeepsInv(EMPTY, Claim(1, owner, 0, 1));
  }

  /** The torn state is the end of a run of three calls, each running alone. */
  lemma {:induction false} TornStateIsReached(owner: Principal) returns (run: seq<World>)
    ensures Run(run) && Last(run).tables.db == DeferredAndClaimed(owner) && Torn(Last(run).tables.db, 1, 5)
  {
    hide Alone, Remaining, Run, Execute, Inv, Violates, Torn;
    var claim := ClaimInput(1, owner, true, 0);
    var defer := DeferInput(1, owner, 1, 7, true, Some(RECHECK_REQUIRED), 10, 0);
    var again := ClaimInput(1, owner, true, 10);
    EmptyRun();
    run := [World(Traced(EMPTY, []), map[], {})];
    FirstClaim(owner);
    run := LoneCallIsARun(run, 1, ClaimCall(claim, CVisible));
    var d1 := Execute(EMPTY, Claim(1, owner, 0, 1));
    assert Last(run).tables.db == d1;
    NoDeferralYet(d1, defer);
    DeferrableIsDeferred(d1, defer, 2, 0);
    run := LoneCallIsARun(run, 2, DeferCall(defer, DStart));
    var b := DeferBatch(defer, 2);
    var d2 := Execute(d1, b);
    ExecuteKeepsInv(d1, b);
    DeferEffect(d1, b);
    LoneClaim(d2, again, 3);
    run := LoneCallIsARun(run, 3, ClaimCall(again, CVisible));
    BackwardClockTearsStatus(owner);
  }

  lemma {:induction false} NoDeferralYet(db: Db, i: DeferInput)
    requires db.deferrals == map[] && db.terminals == map[] && !DeferInputRefused(i) && i.recheckAt > i.now
    requires Holds(db, i.job, i.caller, i.generation, i.now)
    ensures Deferrable(db, i) && !Violates(db, DeferBatch(i, 2))
  {
  }

  lemma {:induction false} OneAccess(run: seq<World>, r: int) returns (longer: seq<World>)
    requires Run(run) && r in Last(run).calls && !IsDone(Last(run).calls[r])
    ensures longer != [] && Run(longer) && Last(longer) == Proceeded(Last(run), r)
    ensures Last(longer).tables.db == After(Last(run).tables.db, Issues(Last(run).calls[r], r))
  {
    hide Execute, Resume, Ends, Step, Start;
    ProceededIsStep(Last(run), r);
    RunThen(run, Proceeded(Last(run), r));
    longer := run + [Proceeded(Last(run), r)];
  }

  /** A retry that passes its key read first: it stands before the job read with nothing stored yet. */
  lemma {:induction false} RetryReadsItsKey(run: seq<World>, r: int, i: DeferInput) returns (longer: seq<World>)
    requires Run(run) && r !in Last(run).used && !DeferInputRefused(i) && i.recheckAt > i.now
    requires !DeferKeyUsed(Last(run).tables.db, i.key)
    ensures Run(longer) && Last(longer).used == Last(run).used + {r} && Last(longer).tables == Last(run).tables
    ensures r in Last(longer).calls && Last(longer).calls[r] == DeferCall(i, DReadDeferral)
  {
    hide Execute, Step, Start, DeferKeyUsed;
    CallBegins(run, r, DeferCall(i, DStart));
    longer := OneAccess(run + [Begun(Last(run), r, DeferCall(i, DStart))], r);
    longer := OneAccess(longer, r);
  }

  /** A defer and its retry, interleaved: the original is stored and its own retry answers CONFLICT. */
  lemma {:induction false} RacingRetryIsReached(owner: Principal) returns (run: seq<World>)
    ensures var i := DeferInput(1, owner, 1, 7, true, Some(RECHECK_REQUIRED), 10, 0);
      && Run(run) && 3 in Last(run).calls && 1 in Last(run).tables.db.deferrals
      && Last(run).tables.db.deferrals[1].action == Some(DeferAction(1, owner, 1, RECHECK_REQUIRED, 10))
      && Last(run).calls[3] == DeferCall(i, DDone(DeferRefused(CONFLICT, None)))
  {
    hide Alone, Remaining, Run, Execute, Inv, Violates;
    var claim := ClaimInput(1, owner, true, 0);
    var i := DeferInput(1, owner, 1, 7, true, Some(RECHECK_REQUIRED), 10, 0);
    EmptyRun();
    run := [World(Traced(EMPTY, []), map[], {})];
    FirstClaim(owner);
    run := LoneCallIsARun(run, 1, ClaimCall(claim, CVisible));
    var db := Last(run).tables.db;
    NoDeferralYet(db, i);
    run := RetryReadsItsKey(run, 3, i);
    DeferrableIsDeferred(db, i, 2, 0);
    DeferEffect(db, DeferBatch(i, 2));
    run := LoneCallIsARun(run, 2, DeferCall(i, DStart));
    run := OneAccess(run, 3);
  }

  // ---------------------------------------------------------------------------------------
  // A synthetic submit releases whatever lease its job has
  // ---------------------------------------------------------------------------------------

  /** A submit that passes its lease read: it stands before its batch with nothing stored yet. */
  lemma {:induction false} SubmitReadsItsLease(run: seq<World>, r: int, i: SubmitInput) returns (longer: seq<World>)
    requires Run(run) && r !in Last(run).used
    requires !InputRefused(i) && i.declared != Unknown && !StructureFailed(i) && EffectiveOrigin(i) != CHATGPT
    requires i.key !in Last(run).tables.db.proposals
    requires LeaseFaultOf(Last(run).tables.db, i.job, i.caller, i.generation, i.now).None?
    ensures Run(longer) && Last(longer).used == Last(run).used + {r} && Last(longer).tables == Last(run).tables
    ensures r in Last(longer).calls && Last(longer).calls[r] == SubmitCall(i, SSynthetic, None)
    ensures OthersWait(Last(run), Last(longer), r)
  {
    hide Execute, Step, Start, LeaseFaultOf, StructureFailed, EffectiveOrigin;
    CallBegins(run, r, SubmitCall(i, SStart, None));
    longer := OneAccess(run + [Begun(Last(run), r, SubmitCall(i, SStart, None))], r);
    longer := OneAccess(longer, r);
    longer := OneAccess(longer, r);
  }

  lemma {:induction false} SyntheticFrees(db: Db, i: SubmitInput, r: int)
    requires i.key !in db.proposals
    ensures var d := Execute(db, SubmitBatch(i, SSynthetic, r));
      d.leases == db.leases - {i.job} && d.terminals == db.terminals && d.deferrals == db.deferrals
  {
  }

  function LateSubmit(owner: Principal): SubmitInput {
    SubmitInput(1, owner, 1, 7, true, Unset, Prepared(0, false, false), 0)
  }

  lemma {:induction false} TakenOver(a: int, b: Principal)
    ensures var d1 := Execute(EMPTY, Claim(1, Informal(a), 0, 1));
      var d2 := Execute(d1, Claim(1, b, 3_600_000, 3));
      && Inv(d1) && Inv(d2) && d1.proposals == map[] && d2.proposals == map[]
      && LeaseFaultOf(d1, 1, Informal(a), 1, 0).None? && !ActiveDeferral(d1, 1, 3_600_000) && 1 !in d1.terminals
      && Dictated(d1, ClaimInput(1, b, true, 3_600_000)) == Claimed(b, 3_600_000, 7_200_000, 2)
      && d2.terminals == map[] && d2.deferrals == map[]
  {
    hide Inv, Emit;
    var d1 := Execute(EMPTY, Claim(1, Informal(a), 0, 1));
    EmptyInv();
    ExecuteKeepsInv(EMPTY, Claim(1, Informal(a), 0, 1));
    ExecuteKeepsInv(d1, Claim(1, b, 3_600_000, 3));
    hide Execute;
    ClaimBatchEffect(EMPTY, ClaimInput(1, Informal(a), true, 0), 1) by { LeasesOfEmpty(); }
    StoredRows(EMPTY, Claim(1, Informal(a), 0, 1));
    StoredRows(d1, Claim(1, b, 3_600_000, 3));
    NoNewDeferral(d1, Claim(1, b, 3_600_000, 3));
    NoNewDeferral(EMPTY, Claim(1, Informal(a), 0, 1));
    assert d1.leases[1] == NewLease(EMPTY, 1, Informal(a), Drawn(EMPTY), 0);
  }

  lemma {:induction false} LeasesOfEmpty()
    ensures LeaseInv(EMPTY)
  {
  }

  /**
   * The release of a synthetic submit names the job alone: sent after the caller's lease was taken
   * over it ends the new holder's, and a third caller is granted a period that overlaps it.
   */
  lemma {:induction false} OverlappingGrantsAreReached(a: int, b: Principal, c: Principal) returns (run: seq<World>)
    requires b != c
    ensures Run(run) && {2, 3, 4} <= Last(run).calls.Keys
    ensures Last(run).calls[3]
      == ClaimCall(ClaimInput(1, b, true, 3_600_000), CDone(Claimed(b, 3_600_000, 7_200_000, 2)))
    ensures Last(run).calls[4]
      == ClaimCall(ClaimInput(1, c, true, 3_600_000), CDone(Claimed(c, 3_600_000, 7_200_000, 1)))
    ensures Last(run).calls[2].SubmitCall? && Last(run).calls[2].submit == LateSubmit(Informal(a))
      && Last(run).calls[2].spc.SDone? && Last(run).calls[2].spc.answer.AcceptedSynthetic?
  {
    hide Alone, Remaining, Run, Execute, Inv, Dictated, LeaseFaultOf;
    var i := LateSubmit(Informal(a));
    EmptyRun();
    run := [World(Traced(EMPTY, []), map[], {})];
    FirstClaim(Informal(a));
    TakenOver(a, b);
    run := LoneCallIsARun(run, 1, ClaimCall(ClaimInput(1, Informal(a), true, 0), CVisible));
    var d1 := Last(run).tables.db;
    run := SubmitReadsItsLease(run, 2, i);
    LoneClaim(d1, ClaimInput(1, b, true, 3_600_000), 3);
    run := LoneCallIsARun(run, 3, ClaimCall(ClaimInput(1, b, true, 3_600_000), CVisible));
    var d2 := Last(run).tables.db;
    SyntheticFrees(d2, i, 2);
    run := OneAccess(run, 2);
    var d3 := Last(run).tables.db;
    ExecuteKeepsInv(d2, SubmitBatch(i, SSynthetic, 2));
    var again := ClaimInput(1, c, true, 3_600_000);
    LoneClaim(d3, again, 4);
    assert Dictated(d3, again) == Claimed(c, 3_600_000, 7_200_000, 1) by { FreeIsGranted(d3, again); }
    run := LoneCallIsARun(run, 4, ClaimCall(again, CVisible));
  }

  lemma {:induction false} FreeIsGranted(db: Db, i: ClaimInput)
    requires i.job !in db.terminals && i.job !in db.deferrals && i.job !in db.leases
    ensures Dictated(db, i) == Claimed(i.owner, i.now, i.now + 3_600_000, 1)
  {
  }
}
