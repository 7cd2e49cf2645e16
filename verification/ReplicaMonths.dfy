/**
 * The monthly write limit of the research replica over every interleaving: what each month is
 * granted, exactly which steps lose the limit, and clocks that keep it.
 */
module ReplicaMonths {
  import opened Basics
  import opened ReplicaQuota

  // ---------------------------------------------------------------------------------------
  // What a month's ingests write
  // ---------------------------------------------------------------------------------------

  /** Writes an ingest dated in the month may still make. */
  function OwedPuts(i: Ingest, period: int): nat {
    if i.period != period then 0
    else match i.at
      case PuttingJournal => Writes(i)
      case PuttingObject => 1
      case _ => 0
  }

  function Owed(w: World, period: int): map<int, nat> { map c | c in w.ingests :: OwedPuts(w.ingests[c], period) }

  /** What a month's ingests have made and may still make, they were granted. */
  ghost predicate Authorized(w: World, period: int) {
    Consistent(w) && At(w.made, period) + Sum(Owed(w, period)) <= At(w.granted, period)
  }

  lemma {:induction false} MoveOwes(w: World, c: int, i: Ingest, period: int)
    ensures Sum(Owed(Move(w, c, i), period))
         == Sum(Owed(w, period)) - (if c in w.ingests then OwedPuts(w.ingests[c], period) else 0) + OwedPuts(i, period)
  {
    hide OwedPuts, Sum;
    assert Owed(Move(w, c, i), period) == Owed(w, period)[c := OwedPuts(i, period)];
    SumUpdate(Owed(w, period), c, OwedPuts(i, period));
  }

  predicate Puts(i: Ingest) { i.at == PuttingJournal || (i.at == PuttingObject && i.blob.Some?) }

  /** What an access does to the history of the months. */
  lemma {:induction false} AccessHistory(w: World, c: int)
    requires c in w.ingests
    ensures var i, v := w.ingests[c], Access(w, c);
      && v.granted == (if Grants(w, i) then Plus(w.granted, i.period, Writes(i)) else w.granted)
      && v.made == (if Puts(i) then Plus(w.made, i.period, 1) else w.made)
  {
    hide Plus, Fits, Charge, Open, Roll, Bytes, Writes;
  }

  lemma {:induction false} PlusAt(m: map<int, nat>, k: int, v: nat, l: int)
    ensures At(Plus(m, k, v), l) == At(m, l) + if l == k then v else 0
  {
  }

  /** No access makes a write that was not owed, nor owes one that was not granted. */
  lemma {:induction false} AccessBalances(w: World, c: int, period: int)
    requires c in w.ingests && Consistent(w)
    ensures var v := Access(w, c);
      && c in v.ingests && v.ingests == w.ingests[c := v.ingests[c]]
      && At(v.made, period) + OwedPuts(v.ingests[c], period) + At(w.granted, period)
         <= At(w.made, period) + OwedPuts(w.ingests[c], period) + At(v.granted, period)
  {
    var i := w.ingests[c];
    assert i.at == PuttingObject ==> i.blob.Some?;
    hide Access, At, Plus, Consistent, Fits;
    AccessHistory(w, c);
    PlusAt(w.made, i.period, 1, period);
    PlusAt(w.granted, i.period, Writes(i), period);
  }

  lemma {:induction false} AccessKeepsAuthorized(w: World, c: int, period: int)
    requires Authorized(w, period) && c in w.ingests && Consistent(Access(w, c))
    ensures Authorized(Access(w, c), period)
  {
    hide Sum, Access, OwedPuts, At;
    AccessBalances(w, c, period);
    var v := Access(w, c);
    MoveOwes(w, c, v.ingests[c], period);
    assert Owed(v, period) == Owed(Move(w, c, v.ingests[c]), period);
  }

  lemma {:induction false} StepKeepsAuthorized(w: World, v: World, period: int)
    requires Authorized(w, period) && Consistent(v) && Step(w, v)
    ensures Authorized(v, period)
  {
    hide Access, Move, Sum, OwedPuts, Owed;
    if c, i: Ingest :| c !in w.ingests && i.at == Checking && v == Move(w, c, i) {
      MoveOwes(w, c, i, period);
      MoveKeepsHistory(w, c, i);
      EndedOwesNothing(i, period);
    } else if c :| c in w.ingests && v == Access(w, c) {
      AccessKeepsAuthorized(w, c, period);
    } else {
      var c :| c in w.ingests && v == Move(w, c, w.ingests[c].(at := Ended));
      MoveOwes(w, c, w.ingests[c].(at := Ended), period);
      MoveKeepsHistory(w, c, w.ingests[c].(at := Ended));
      EndedOwesNothing(w.ingests[c].(at := Ended), period);
    }
  }

  lemma {:induction false} EndedOwesNothing(i: Ingest, period: int)
    requires i.at == Ended || i.at == Checking
    ensures OwedPuts(i, period) == 0
  {
  }

  lemma {:induction false} MoveKeepsHistory(w: World, c: int, i: Ingest)
    ensures Move(w, c, i).granted == w.granted && Move(w, c, i).made == w.made && Move(w, c, i).usage == w.usage
  {
  }

  /** Over every run the writes of a month's ingests stay within what the month was granted. */
  lemma {:induction false} MonthIsAuthorized(run: seq<World>, n: nat, period: int)
    requires Run(run) && n < |run| && At(run[0].made, period) <= At(run[0].granted, period)
    ensures Authorized(run[n], period)
    ensures At(run[n].made, period) <= At(run[n].granted, period)
    decreases n
  {
    hide Step, Sum, OwedPuts;
    QuotaHolds(run, n);
    if n == 0 {
      SumZero(Owed(run[0], period));
    } else {
      MonthIsAuthorized(run, n - 1, period);
      assert Step(run[n - 1], run[n - 1 + 1]);
      StepKeepsAuthorized(run[n - 1], run[n], period);
    }
  }

  /** Without a row nothing was granted yet. */
  predicate RowRemembers(w: World) { w.usage.None? ==> forall p :: p in w.granted ==> w.granted[p] == 0 }

  predicate WithinMonths(w: World) { forall p :: p in w.granted ==> w.granted[p] <= MAX_MONTHLY_WRITES }

  /** The row counts at least what its month was granted, and every month is within the limit. */
  predicate Accounted(w: World) {
    && RowRemembers(w) && WithinMonths(w)
    && (w.usage.Some? ==> At(w.granted, w.usage.value.period) <= w.usage.value.writeOps)
  }

  /** A roll that resets the row into a month that was already granted writes. */
  predicate Reopens(w: World, c: int)
    requires c in w.ingests
  {
    var i := w.ingests[c];
    i.at == Rolling && w.usage.Some? && w.usage.value.period != i.period && At(w.granted, i.period) > 0
  }

  /**
   * A charge that fits the row although another month was rolled in since the ingest's own
   * roll, and although its own month has no room left.
   */
  predicate Overcharges(w: World, c: int)
    requires c in w.ingests
  {
    var i := w.ingests[c];
    && i.at == Reserving && Fits(w.usage, Bytes(i), Writes(i)) && w.usage.value.period != i.period
    && At(w.granted, i.period) + Writes(i) > MAX_MONTHLY_WRITES
  }

  ghost predicate Offends(w: World, v: World) {
    exists c :: c in w.ingests && v == Access(w, c) && (Reopens(w, c) || Overcharges(w, c))
  }

  lemma {:induction false} RollAccountsIff(w: World, c: int)
    requires Accounted(w) && c in w.ingests && w.ingests[c].at in {Opening, Rolling}
    ensures Accounted(Access(w, c)) <==> !Reopens(w, c)
  {
    hide Plus;
    assert Access(w, c).granted == w.granted;
  }

  lemma {:induction false} ChargeAccountsIff(w: World, c: int)
    requires Accounted(w) && c in w.ingests && Grants(w, w.ingests[c])
    requires w.usage.value.writeOps + Writes(w.ingests[c]) <= MAX_MONTHLY_WRITES
    ensures Accounted(Access(w, c)) <==> !Overcharges(w, c)
  {
    var i, v := w.ingests[c], Access(w, c);
    assert v.granted == Plus(w.granted, i.period, Writes(i));
    PlusAt(w.granted, i.period, Writes(i), i.period);
    PlusAt(w.granted, i.period, Writes(i), w.usage.value.period);
    assert i.period in v.granted && v.granted[i.period] == At(w.granted, i.period) + Writes(i);
    assert forall p :: p in v.granted && p != i.period ==> p in w.granted && v.granted[p] == w.granted[p];
  }

  lemma {:induction false} AccessAccountsIff(w: World, c: int)
    requires Accounted(w) && c in w.ingests
    ensures Accounted(Access(w, c)) <==> !(Reopens(w, c) || Overcharges(w, c))
  {
    hide Accounted, Plus, At;
    var i := w.ingests[c];
    if i.at in {Opening, Rolling} {
      RollAccountsIff(w, c);
    } else if Grants(w, i) {
      ChargeAccountsIff(w, c);
    } else {
      SameMonthsAccountAlike(w, Access(w, c));
    }
  }

  lemma {:induction false} SameMonthsAccountAlike(w: World, v: World)
    requires v.usage == w.usage && v.granted == w.granted
    ensures Accounted(v) == Accounted(w)
  {
  }

  /** One step keeps the months accounted exactly when it neither reopens nor overcharges one. */
  lemma {:induction false} StepAccountsIff(w: World, v: World)
    requires Accounted(w) && Step(w, v)
    ensures Accounted(v) <==> !Offends(w, v)
  {
    hide Access, Reopens, Overcharges, Accounted;
    forall c | c in w.ingests && v == Access(w, c) ensures Accounted(v) <==> !(Reopens(w, c) || Overcharges(w, c)) {
      AccessAccountsIff(w, c);
    }
    if c, i: Ingest :| c !in w.ingests && i.at == Checking && v == Move(w, c, i) {
      SameMonthsAccountAlike(w, v);
    } else if c :| c in w.ingests && v == Access(w, c) {
    } else {
      var c :| c in w.ingests && v == Move(w, c, w.ingests[c].(at := Ended));
      SameMonthsAccountAlike(w, v);
    }
  }

  ghost predicate AccountedUpTo(run: seq<World>, n: nat)
    requires n < |run|
  {
    forall k :: 0 <= k <= n ==> Accounted(run[k])
  }

  ghost predicate NoOffence(run: seq<World>, n: nat)
    requires n < |run|
  {
    forall k :: 0 <= k < n ==> !Offends(run[k], run[k + 1])
  }

  /**
   * Monthly limit over every interleaving with failures: as long as no roll reopens a granted
   * month and no charge overcharges the ingest's own month, no month is granted more than the
   * limit, and the row counts what its month was granted; and only so long.
   */
  lemma {:induction false} MonthlyLimit(run: seq<World>, n: nat)
    requires Run(run) && n < |run| && Accounted(run[0])
    ensures AccountedUpTo(run, n) <==> NoOffence(run, n)
    ensures NoOffence(run, n) ==> WithinMonths(run[n])
    decreases n
  {
    hide Step, Offends, Accounted, Covered;
    if n > 0 {
      MonthlyLimit(run, n - 1);
      assert Step(run[n - 1], run[n - 1 + 1]);
      if Accounted(run[n - 1]) {
        StepAccountsIff(run[n - 1], run[n]);
      }
      assert NoOffence(run, n) <==> NoOffence(run, n - 1) && !Offends(run[n - 1], run[n]);
    }
    assert Accounted(run[n]) ==> WithinMonths(run[n]) by { AccountedIsWithin(run[n]); }
  }

  lemma {:induction false} AccountedIsWithin(w: World)
    ensures Accounted(w) ==> WithinMonths(w)
  {
  }

  // ---------------------------------------------------------------------------------------
  // Nothing weaker than accounting keeps the limit
  // ---------------------------------------------------------------------------------------

  /** A continuation without offences. */
  ghost predicate Continues(run: seq<World>) {
    run != [] && forall k :: 0 <= k < |run| - 1 ==> Step(run[k], run[k + 1]) && !Offends(run[k], run[k + 1])
  }

  /** The monthly limit holds now and at the end of every continuation without offences. */
  ghost predicate BoundedOnward(w: World) {
    forall run :: Continues(run) && run[0] == w ==> WithinMonths(run[|run| - 1])
  }

  lemma {:induction false} StepKeepsQuota(w: World, v: World)
    requires WithinQuota(w.usage) && Step(w, v)
    ensures WithinQuota(v.usage)
  {
    hide Access;
    if c, i: Ingest :| c !in w.ingests && i.at == Checking && v == Move(w, c, i) {
    } else if c :| c in w.ingests && v == Access(w, c) {
      AccessUsage(w, c);
    } else {
      var c :| c in w.ingests && v == Move(w, c, w.ingests[c].(at := Ended));
    }
  }

  lemma {:induction false} AccessUsage(w: World, c: int)
    requires c in w.ingests
    ensures WithinQuota(w.usage) ==> WithinQuota(Access(w, c).usage)
    ensures w.usage.Some? ==> Access(w, c).usage.Some?
  {
    hide Plus, Moved;
  }

  lemma {:induction false} ContinuationStaysAccounted(run: seq<World>)
    requires Continues(run) && Accounted(run[0])
    ensures Accounted(run[|run| - 1])
    decreases |run|
  {
    hide Step, Offends, Accounted;
    if |run| > 1 {
      var before := run[..|run| - 1];
      assert Continues(before);
      ContinuationStaysAccounted(before);
      var k := |run| - 2;
      assert Step(run[k], run[k + 1]) && !Offends(run[k], run[k + 1]);
      StepAccountsIff(run[k], run[k + 1]);
    }
  }

  lemma {:induction false} Unused(s: set<int>) returns (x: int)
    ensures x !in s
    decreases |s|
  {
    x := 0;
    if x in s {
      x := Above(s);
    }
  }

  lemma {:induction false} Above(s: set<int>) returns (x: int)
    ensures forall y :: y in s ==> y < x
    decreases |s|
  {
    x := 0;
    if y :| y in s {
      var below := Above(s - {y});
      x := if below > y then below else y + 1;
      assert forall z :: z in s ==> z == y || z in s - {y};
    }
  }

  /** A one-write ingest of the row's own month, run up to its grant. */
  function GrantedOnce(w: World, c: int, i: Ingest): seq<World> {
    var w1 := Move(w, c, i);
    var w2 := Move(w1, c, i.(at := Opening));
    var w3 := Move(w2, c, i.(at := Rolling));
    var w4 := Move(w3, c, i.(at := Reserving));
    [w, w1, w2, w3, w4, Access(w4, c)]
  }

  lemma {:induction false} QuietAccess(w: World, c: int)
    requires c in w.ingests && w.usage.Some? && w.usage.value.period == w.ingests[c].period
    requires w.ingests[c].at == Checking ==> w.ingests[c].message !in w.recorded
    requires w.ingests[c].at in {Checking, Opening, Rolling}
    ensures Access(w, c) == Move(w, c, Moved(w, w.ingests[c]))
    ensures Step(w, Access(w, c)) && !Offends(w, Access(w, c))
  {
    OnlyActorOffends(w, c);
  }

  /** Only the ingest that moves can be the one that offends. */
  lemma {:induction false} OnlyActorOffends(w: World, c: int)
    requires c in w.ingests && w.ingests[c].at in {Checking, Opening, Rolling, Reserving}
    ensures Offends(w, Access(w, c)) <==> Reopens(w, c) || Overcharges(w, c)
  {
    hide Open, Roll, Charge, Plus, Fits;
    var v := Access(w, c);
    assert v.ingests == w.ingests[c := Moved(w, w.ingests[c])];
    assert v.ingests[c].at != w.ingests[c].at;
    forall d | d in w.ingests && v == Access(w, d) ensures d == c {
      assert Access(w, d).ingests == w.ingests[d := Moved(w, w.ingests[d])];
    }
  }

  lemma {:induction false} BeginIsQuiet(w: World, c: int, i: Ingest)
    requires c !in w.ingests && i.at == Checking
    ensures Step(w, Move(w, c, i)) && !Offends(w, Move(w, c, i))
  {
    hide Open, Roll, Charge, Plus, Fits;
    var v := Move(w, c, i);
    forall d | d in w.ingests ensures v != Access(w, d) {
      assert Access(w, d).ingests == w.ingests[d := Moved(w, w.ingests[d])];
      assert c in v.ingests && c !in Access(w, d).ingests;
    }
  }

  lemma {:induction false} GrantedOnceContinues(w: World, c: int, i: Ingest)
    requires w.usage.Some? && WithinQuota(w.usage) && w.usage.value.writeOps < MAX_MONTHLY_WRITES
    requires c !in w.ingests && i.message !in w.recorded
    requires i == Ingest(i.message, 0, None, w.usage.value.period, Checking, 0)
    ensures var run := GrantedOnce(w, c, i);
      && Continues(run)
      && run[5].usage == Some(w.usage.value.(writeOps := w.usage.value.writeOps + 1))
      && run[5].granted == Plus(w.granted, w.usage.value.period, 1)
  {
    var run := GrantedOnce(w, c, i);
    hide Step, Offends;
    BeginIsQuiet(w, c, i);
    QuietAccess(run[1], c);
    QuietAccess(run[2], c);
    QuietAccess(run[3], c);
    OnlyActorOffends(run[4], c);
    assert Step(run[4], run[5]) by { AccessIsStep(run[4], c); }
  }

  lemma {:induction false} AccessIsStep(w: World, c: int)
    requires c in w.ingests
    ensures Step(w, Access(w, c))
  {
  }

  lemma {:induction false} JoinRuns(a: seq<World>, b: seq<World>)
    requires Continues(a) && Continues(b) && a[|a| - 1] == b[0]
    ensures Continues(a + b[1..])
    ensures (a + b[1..])[0] == a[0] && (a + b[1..])[|a + b[1..]| - 1] == b[|b| - 1]
  {
    hide Step, Offends;
    var run := a + b[1..];
    forall k | 0 <= k < |run| - 1 ensures Step(run[k], run[k + 1]) && !Offends(run[k], run[k + 1]) {
      if k < |a| - 1 {
        assert run[k] == a[k] && run[k + 1] == a[k + 1];
      } else {
        var j := k - (|a| - 1);
        assert run[k] == b[j] && run[k + 1] == b[j + 1];
      }
    }
  }

  /** When the row counts less than its month was granted, ordinary ingests exceed the limit. */
  lemma {:induction false} UndercountExceeds(w: World) returns (run: seq<World>)
    requires w.usage.Some? && WithinQuota(w.usage)
    requires At(w.granted, w.usage.value.period) > w.usage.value.writeOps
    ensures Continues(run) && run[0] == w && !WithinMonths(run[|run| - 1])
    decreases MAX_MONTHLY_WRITES - w.usage.value.writeOps
  {
    var p := w.usage.value.period;
    run := [w];
    if At(w.granted, p) <= MAX_MONTHLY_WRITES {
      var c := Unused(w.ingests.Keys);
      var m := Unused(w.recorded);
      var i := Ingest(m, 0, None, p, Checking, 0);
      GrantedOnceContinues(w, c, i);
      var first := GrantedOnce(w, c, i);
      PlusAt(w.granted, p, 1, p);
      hide Continues, WithinMonths, At, Plus, GrantedOnce;
      var rest := UndercountExceeds(first[5]);
      JoinRuns(first, rest);
      run := first + rest[1..];
    }
  }

  /** The limit holds from here on iff the months are accounted: the row must count its month. */
  lemma {:induction false} BoundedOnwardIff(w: World)
    requires WithinQuota(w.usage) && RowRemembers(w)
    ensures BoundedOnward(w) <==> Accounted(w)
  {
    hide Step, Offends;
    if Accounted(w) {
      forall run | Continues(run) && run[0] == w ensures WithinMonths(run[|run| - 1]) {
        ContinuationStaysAccounted(run);
        AccountedIsWithin(run[|run| - 1]);
      }
    } else {
      var run := [w];
      if WithinMonths(w) {
        run := UndercountExceeds(w);
      }
      assert Continues(run) && run[0] == w && !WithinMonths(run[|run| - 1]);
    }
  }

  /**
   * Exactly these steps lose the limit: from a world in which it holds onward, a step leads to
   * one in which it holds onward iff it neither reopens nor overcharges a month.
   */
  lemma {:induction false} StepStaysBoundedIff(w: World, v: World)
    requires WithinQuota(w.usage) && RowRemembers(w) && BoundedOnward(w) && Step(w, v)
    ensures BoundedOnward(v) <==> !Offends(w, v)
  {
    hide Step, Offends, BoundedOnward, Accounted, WithinQuota;
    BoundedOnwardIff(w);
    StepAccountsIff(w, v);
    StepKeepsQuota(w, v);
    StepRemembers(w, v);
    BoundedOnwardIff(v);
  }

  lemma {:induction false} StepRemembers(w: World, v: World)
    requires RowRemembers(w) && Step(w, v)
    ensures RowRemembers(v)
  {
    hide Access, Plus;
    if c, i: Ingest :| c !in w.ingests && i.at == Checking && v == Move(w, c, i) {
    } else if c :| c in w.ingests && v == Access(w, c) {
      AccessUsage(w, c);
      AccessHistory(w, c);
    } else {
      var c :| c in w.ingests && v == Move(w, c, w.ingests[c].(at := Ended));
    }
  }

  // ---------------------------------------------------------------------------------------
  // Clocks that suffice, and clocks that do not
  // ---------------------------------------------------------------------------------------

  /** No roll goes back behind the row's month, and no charge is granted in another month's row. */
  ghost predicate Forward(w: World, v: World) {
    forall c :: c in w.ingests && v == Access(w, c) ==>
      && (w.ingests[c].at == Rolling && w.usage.Some? ==> w.usage.value.period <= w.ingests[c].period)
      && (Grants(w, w.ingests[c]) ==> w.usage.value.period == w.ingests[c].period)
  }

  /** No month later than the row's was granted anything. */
  predicate NoLaterMonth(w: World) {
    forall p :: p in w.granted && w.granted[p] > 0 ==> w.usage.Some? && p <= w.usage.value.period
  }

  lemma {:induction false} ForwardStep(w: World, v: World)
    requires Accounted(w) && NoLaterMonth(w) && Step(w, v) && Forward(w, v)
    ensures NoLaterMonth(v) && !Offends(w, v)
  {
    hide Access, Plus;
    if c, i: Ingest :| c !in w.ingests && i.at == Checking && v == Move(w, c, i) {
    } else if c :| c in w.ingests && v == Access(w, c) {
      ForwardAccess(w, c);
    } else {
      var c :| c in w.ingests && v == Move(w, c, w.ingests[c].(at := Ended));
    }
  }

  lemma {:induction false} ForwardAccess(w: World, c: int)
    requires Accounted(w) && NoLaterMonth(w) && c in w.ingests
    requires w.ingests[c].at == Rolling && w.usage.Some? ==> w.usage.value.period <= w.ingests[c].period
    requires Grants(w, w.ingests[c]) ==> w.usage.value.period == w.ingests[c].period
    ensures NoLaterMonth(Access(w, c))
  {
    hide Moved;
  }

  /** Rolls that never go back and charges in their own month's row suffice. */
  lemma {:induction false} ForwardRunsAreBounded(run: seq<World>, n: nat)
    requires Run(run) && n < |run| && Accounted(run[0]) && NoLaterMonth(run[0])
    requires forall k :: 0 <= k < n ==> Forward(run[k], run[k + 1])
    ensures NoOffence(run, n) && NoLaterMonth(run[n]) && Accounted(run[n]) && WithinMonths(run[n])
    decreases n
  {
    hide Step, Offends, Accounted, NoLaterMonth, Forward, WithinMonths;
    if n > 0 {
      ForwardRunsAreBounded(run, n - 1);
      var k := n - 1;
      assert Step(run[k], run[k + 1]) && Forward(run[k], run[k + 1]);
      ForwardStep(run[k], run[k + 1]);
    }
    MonthlyLimit(run, n);
  }

  /** The world the migrations leave: one row in the epoch month, and nothing stored or granted. */
  function Migrated(epochMonth: int): World {
    World(Some(Usage(epochMonth, 0, 0)), map[], map[], {}, map[], 0, 0, map[], map[])
  }

  lemma {:induction false} MigratedIsAccounted(epochMonth: int)
    ensures var w := Migrated(epochMonth); Start(w) && Accounted(w) && NoLaterMonth(w)
  {
    var none: map<int, nat> := map[];
    SumZero(none);
  }

  /** A month that has used its whole limit, and nothing else. */
  function FullMonth(month: int): World {
    World(Some(Usage(month, 0, MAX_MONTHLY_WRITES)), map[], map[], {}, map[], 0, MAX_MONTHLY_WRITES,
          map[month := MAX_MONTHLY_WRITES], map[month := MAX_MONTHLY_WRITES])
  }

  /** An ingest of one small journal. */
  function Dated(month: int, message: int): Ingest { Ingest(message, 0, None, month, Checking, 0) }

  lemma {:induction false} FullMonthStarts(month: int)
    ensures Start(FullMonth(month)) && Accounted(FullMonth(month)) && NoLaterMonth(FullMonth(month))
  {
    var none: map<int, nat> := map[];
    SumZero(none);
  }

  /** The accesses up to the roll. */
  function UpToRoll(w: World, c: int, i: Ingest): (part: seq<World>)
    requires c !in w.ingests && i.at == Checking
    ensures |part| == 4 && part[3].ingests.Keys == w.ingests.Keys + {c}
  {
    var w1 := Move(w, c, i);
    var w2 := Access(w1, c);
    var w3 := Access(w2, c);
    [w1, w2, w3, Access(w3, c)]
  }

  lemma {:induction false} UpToRollIs(w: World, c: int, i: Ingest)
    requires c !in w.ingests && i.at == Checking && i.message !in w.recorded && w.usage.Some?
    ensures var part := UpToRoll(w, c, i);
      && Step(w, part[0]) && Step(part[0], part[1]) && Step(part[1], part[2]) && Step(part[2], part[3])
      && part[2].ingests == w.ingests[c := i.(at := Rolling)]
      && part[2].usage == w.usage && part[2].granted == w.granted
      && part[3] == Access(part[2], c) && part[3].granted == w.granted && part[3].recorded == w.recorded
      && part[3].usage == Roll(w.usage, i.period) && part[3].ingests == w.ingests[c := i.(at := Reserving)]
  {
    hide Step;
    var part := UpToRoll(w, c, i);
    BeginIsStep(w, c, i);
    AccessIsStep(part[0], c);
    AccessIsStep(part[1], c);
    AccessIsStep(part[2], c);
  }

  lemma {:induction false} BeginIsStep(w: World, c: int, i: Ingest)
    requires c !in w.ingests && i.at == Checking
    ensures Step(w, Move(w, c, i))
  {
  }

  /** An ingest of month 1 rolls, one of month 2 begins and rolls, and then ingest `last` charges. */
  function TwoIngests(w: World, last: int): seq<World>
    requires w.ingests == map[] && last in {1, 2}
  {
    var first := UpToRoll(w, 1, Dated(1, 1));
    var second := UpToRoll(first[3], 2, Dated(2, 2));
    [w] + first + second + [Access(second[3], last)]
  }

  ghost predicate Stepwise(run: seq<World>) {
    forall n :: 0 <= n < |run| - 1 ==> Step(run[n], run[n + 1])
  }

  lemma {:induction false} StepwiseConcat(a: seq<World>, b: seq<World>)
    requires a != [] && b != [] && Stepwise(a) && Stepwise(b) && Step(a[|a| - 1], b[0])
    ensures Stepwise(a + b)
  {
    hide Step;
    var run := a + b;
    forall n | 0 <= n < |run| - 1 ensures Step(run[n], run[n + 1]) {
      if n < |a| - 1 {
        assert run[n] == a[n] && run[n + 1] == a[n + 1];
      } else if n >= |a| {
        assert run[n] == b[n - |a|] && run[n + 1] == b[n - |a| + 1];
      }
    }
  }

  lemma {:induction false} UpToRollSteps(w: World, c: int, i: Ingest)
    requires c !in w.ingests && i.at == Checking && i.message !in w.recorded && w.usage.Some?
    ensures Stepwise(UpToRoll(w, c, i)) && Step(w, UpToRoll(w, c, i)[0])
  {
    hide Step, UpToRoll;
    UpToRollIs(w, c, i);
  }

  lemma {:induction false} TwoIngestsStep(month: int, last: int)
    requires last in {1, 2}
    ensures var run := TwoIngests(FullMonth(month), last); |run| == 10 && run[0] == FullMonth(month) && Stepwise(run)
  {
    hide Step, UpToRoll, Stepwise, Access;
    var w := FullMonth(month);
    UpToRollIs(w, 1, Dated(1, 1));
    UpToRollSteps(w, 1, Dated(1, 1));
    var first := UpToRoll(w, 1, Dated(1, 1));
    UpToRollIs(first[3], 2, Dated(2, 2));
    UpToRollSteps(first[3], 2, Dated(2, 2));
    var second := UpToRoll(first[3], 2, Dated(2, 2));
    var x := Access(second[3], last);
    AccessIsStep(second[3], last);
    OneWorld(w);
    OneWorld(x);
    StepwiseConcat([w], first);
    StepwiseConcat([w] + first, second);
    StepwiseConcat([w] + first + second, [x]);
  }

  lemma {:induction false} OneWorld(w: World)
    ensures Stepwise([w])
  {
  }

  lemma {:induction false} TwoIngestsAreARun(month: int, last: int)
    requires last in {1, 2}
    ensures var run := TwoIngests(FullMonth(month), last); Run(run) && |run| == 10 && Accounted(run[0])
  {
    hide Step, Start, Accounted, TwoIngests;
    FullMonthStarts(month);
    TwoIngestsStep(month, last);
    assert Stepwise(TwoIngests(FullMonth(month), last));
  }

  /** Both have rolled, the row is month 2's, and the next access charges. */
  lemma {:induction false} BothHaveRolled(month: int, last: int)
    requires last in {1, 2}
    ensures var run := TwoIngests(FullMonth(month), last);
      && |run| == 10 && run[8].usage == Some(Usage(2, 0, 0))
      && run[8].granted == map[month := MAX_MONTHLY_WRITES]
      && run[8].ingests == map[1 := Dated(1, 1).(at := Reserving), 2 := Dated(2, 2).(at := Reserving)]
      && run[9] == Access(run[8], last)
  {
    hide Step, UpToRoll, Access;
    var w := FullMonth(month);
    UpToRollIs(w, 1, Dated(1, 1));
    var first := UpToRoll(w, 1, Dated(1, 1));
    UpToRollIs(first[3], 2, Dated(2, 2));
  }

  /**
   * The months arrive in order and no roll goes back, yet month 1 is granted one write more than
   * the limit: month 2 was rolled in between the first ingest's roll and its charge.
   */
  lemma {:induction false} RollBetweenExceeds()
    ensures var run := TwoIngests(FullMonth(1), 1);
      && Run(run) && |run| == 10 && Accounted(run[0])
      && At(run[9].granted, 1) == MAX_MONTHLY_WRITES + 1
      && Overcharges(run[8], 1) && run[9] == Access(run[8], 1)
  {
    hide Run, Accounted, TwoIngests;
    TwoIngestsAreARun(1, 1);
    BothHaveRolled(1, 1);
  }

  /** A month-1 ingest that rolls late lets month 2, already full, be granted another write. */
  lemma {:induction false} RollBackExceeds()
    ensures var run := TwoIngests(FullMonth(2), 2);
      && Run(run) && |run| == 10 && Accounted(run[0])
      && At(run[9].granted, 2) == MAX_MONTHLY_WRITES + 1
      && (exists k :: 0 <= k < 9 && Offends(run[k], run[k + 1]))
  {
    hide Run, Accounted, TwoIngests, Offends, WithinMonths;
    TwoIngestsAreARun(2, 2);
    BothHaveRolled(2, 2);
    var run := TwoIngests(FullMonth(2), 2);
    MonthlyLimit(run, 9);
    assert !WithinMonths(run[9]) by { OverTheLimit(run[9], 2); }
  }

  lemma {:induction false} OverTheLimit(w: World, period: int)
    requires At(w.granted, period) > MAX_MONTHLY_WRITES
    ensures !WithinMonths(w)
  {
  }

  // ---------------------------------------------------------------------------------------
  // Requests one after another
  // ---------------------------------------------------------------------------------------

  datatype Request = Request(period: int, bytes: nat, writes: nat)

  function ReserveAll(u: Option<Usage>, requests: seq<Request>): Option<Usage> {
    if requests == [] then u
    else
      var r := requests[|requests| - 1];
      Reserve(ReserveAll(u, requests[..|requests| - 1]), r.period, r.bytes, r.writes)
  }

  /** Writes granted to the requests of one month. */
  function GrantedWrites(u: Option<Usage>, requests: seq<Request>, period: int): nat {
    if requests == [] then 0
    else
      var before, r := requests[..|requests| - 1], requests[|requests| - 1];
      GrantedWrites(u, before, period)
      + if r.period == period && Granted(ReserveAll(u, before), r.period, r.bytes, r.writes) then r.writes else 0
  }

  predicate InOrder(requests: seq<Request>) {
    forall i, j :: 0 <= i < j < |requests| ==> requests[i].period <= requests[j].period
  }

  /** No row yet, or one that counts nothing, such as the one the migration inserts. */
  predicate CountsNothing(u: Option<Usage>) { WithinQuota(u) && (u.Some? ==> u.value.writeOps == 0) }

  /** The writes granted to a month up to the latest one seen. */
  lemma {:induction false} OrderedMonths(u: Option<Usage>, requests: seq<Request>, period: int)
    requires CountsNothing(u) && InOrder(requests)
    ensures var v, granted := ReserveAll(u, requests), GrantedWrites(u, requests, period);
      && WithinQuota(v)
      && (requests == [] ==> v == u)
      && (requests != [] ==> v.Some? && v.value.period == requests[|requests| - 1].period)
      && (requests != [] && v.value.period == period ==> granted <= v.value.writeOps)
      && (requests != [] && v.value.period < period ==> granted == 0)
      && granted <= MAX_MONTHLY_WRITES
  {
    if requests != [] {
      var before := requests[..|requests| - 1];
      OrderedMonths(u, before, period);
      assert before != [] ==> before[|before| - 1].period <= requests[|requests| - 1].period;
    }
  }

  /** One after another, requests whose months never go back are granted at most the limit in every month. */
  lemma {:induction false} SequentialLimit(u: Option<Usage>, requests: seq<Request>, period: int)
    requires CountsNothing(u) && InOrder(requests)
    ensures GrantedWrites(u, requests, period) <= MAX_MONTHLY_WRITES
  {
    OrderedMonths(u, requests, period);
  }

  /**
   * A request dated in another month resets the count, also when it is dated back: a month that
   * has used its whole limit is granted a write again exactly when a request of another month
   * came in between.
   */
  lemma {:induction false} BackdatedRequestReopensTheMonth(u: Usage, other: int, bytes: nat)
    requires u.writeOps == MAX_MONTHLY_WRITES && u.storedBytes + bytes <= MAX_STORED_BYTES
    ensures !Granted(Some(u), u.period, bytes, 1)
    ensures Granted(Reserve(Some(u), other, 0, 0), u.period, bytes, 1) <==> other != u.period
  {
  }

  /** So the monthly limit is exceeded by one late clock between two requests of the new month. */
  lemma {:induction false} LateClockExceedsTheMonth()
    ensures GrantedWrites(None, [Request(2, 0, MAX_MONTHLY_WRITES), Request(1, 0, 1), Request(2, 0, 1)], 2)
         == MAX_MONTHLY_WRITES + 1
  {
    var a, b, c := Request(2, 0, MAX_MONTHLY_WRITES), Request(1, 0, 1), Request(2, 0, 1);
    assert [a, b, c][..2] == [a, b] && [a, b][..1] == [a] && [a][..0] == [];
    assert ReserveAll(None, [a]) == Some(Usage(2, 0, MAX_MONTHLY_WRITES));
    assert ReserveAll(None, [a, b]) == Some(Usage(1, 0, 1));
    assert GrantedWrites(None, [a], 2) == MAX_MONTHLY_WRITES;
    assert GrantedWrites(None, [a, b], 2) == MAX_MONTHLY_WRITES;
  }
}
