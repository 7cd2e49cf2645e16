/**
 * What a caller of the LIVE overlay gets: exactly when an answer is given, which rows and totals it
 * holds, and with which error it is refused otherwise.
 */
module LiveServing {
  import opened Basics
  import opened TextOrder
  import opened QuoteRows
  import opened LiveUniverse
  import opened DynamicQuotes
  import opened PortfolioStates
  import opened PortfolioStatus
  import opened LiveOverlay

  /** The active instruments without a catalog row. */
  ghost predicate Lacks(s: Snapshot, u: Universe, i: UniverseItem) {
    i in u.active && ActiveKey(i) !in KeySet(Items(s.stocks))
  }

  lemma {:induction false} MissingIsLacking(active: seq<UniverseItem>, keys: set<Text>)
    ensures forall i :: i in MissingItems(active, keys) <==> i in active && ActiveKey(i) !in keys
  {
    hide ActiveKey;
    if active != [] {
      var before, last := active[..|active| - 1], active[|active| - 1];
      assert active == before + [last];
      MissingIsLacking(before, keys);
    }
  }

  /** The provider's answer for every instrument the catalog lacks can be used. */
  ghost predicate CanComplete(s: Snapshot, u: Universe, q: Source) {
    (exists i :: Lacks(s, u, i)) ==>
      && q.available
      && forall i :: Lacks(s, u, i) ==> CanonicalizeIdentity(i).Ok? && NormalizeQuote(i, q.provider(i), q.now).Ok?
  }

  lemma {:induction false} CompletesIff(s: Snapshot, u: Universe, q: Source)
    requires ValidActive(u.active) && q.now != ""
    ensures CompleteMissing(s, u, q).Ok? <==> CanComplete(s, u, q)
  {
    hide CanonicalizeIdentity, NormalizeQuote, KeySet, ActiveKey, ValidActive, CompleteMissing;
    var missing := MissingItems(u.active, KeySet(Items(s.stocks)));
    MissingIsLacking(u.active, KeySet(Items(s.stocks)));
    CompletionSucceedsIff(s, u, q);
    if missing != [] { assert missing[0] in missing && Lacks(s, u, missing[0]); }
    forall i | 0 <= i < |missing| ensures missing[i] in missing && Lacks(s, u, missing[i]) {
    }
    if CanComplete(s, u, q) && missing != [] {
      assert AllCanonical(missing) && AllQuoted(missing, q.provider, q.now);
    }
    if AllCanonical(missing) && AllQuoted(missing, q.provider, q.now) {
      forall i | Lacks(s, u, i)
        ensures CanonicalizeIdentity(i).Ok? && NormalizeQuote(i, q.provider(i), q.now).Ok?
      {
        var k :| 0 <= k < |missing| && missing[k] == i;
      }
    }
  }

  /** With which code completion fails. */
  ghost predicate FailsOn(s: Snapshot, u: Universe, q: Source, code: ErrorCode) {
    if exists i :: Lacks(s, u, i) && CanonicalizeIdentity(i).Err? then code == INVALID_IDENTITY
    else if !q.available then code == PROVIDER_UNAVAILABLE
    else if exists i :: Lacks(s, u, i) && Quotes(i, q.provider, q.now) then code == PARTIAL_PROVIDER_FAILURE
    else if forall i :: Lacks(s, u, i) ==> Unreachable(i, q.provider) then code == PROVIDER_UNAVAILABLE
    else exists i :: Lacks(s, u, i) && FailsWith(i, q.provider, q.now, Failure(Some(i), code))
  }

  lemma {:induction false} CompletionRefusal(s: Snapshot, u: Universe, q: Source)
    requires ValidActive(u.active) && q.now != "" && CompleteMissing(s, u, q).Err?
    ensures FailsOn(s, u, q, CompleteMissing(s, u, q).error)
  {
    hide CanonicalizeIdentity, NormalizeQuote, KeySet, ActiveKey, ActiveKeys, DistinctActive, Fetch, Merge, Quotes,
      Unreachable, FailsWith, IsFetched;
    var missing := MissingItems(u.active, KeySet(Items(s.stocks)));
    MissingIsLacking(u.active, KeySet(Items(s.stocks)));
    MissingAreDistinct(u.active, KeySet(Items(s.stocks)));
    forall i | 0 <= i < |missing| ensures missing[i] in missing && Lacks(s, u, missing[i]) {
    }
    forall i | Lacks(s, u, i) ensures exists k :: 0 <= k < |missing| && missing[k] == i {
      assert i in missing;
    }
    var f := Fetch(missing, q.available, q.provider, q.now);
    if f.Ok? {
      FetchedBatch(missing, q);
      FetchedBatchMerges(s, f.value);
    } else {
      FetchRefusal(missing, q.available, q.provider, q.now);
    }
  }

  // ---------------------------------------------------------------------------------------
  // The rows of an applied answer
  // ---------------------------------------------------------------------------------------

  ghost predicate IsQuoteOf(r: Row, s: Snapshot, u: Universe, q: Source, i: UniverseItem) {
    Lacks(s, u, i) && NormalizeQuote(i, q.provider(i), q.now) == Ok(r)
  }

  ghost predicate IsQuote(r: Row, s: Snapshot, u: Universe, q: Source) { exists i :: IsQuoteOf(r, s, u, q, i) }

  /** Completion appends the quotes of the instruments the catalog lacks, each of them and no other row. */
  lemma {:induction false} CompletedRows(s: Snapshot, u: Universe, q: Source) returns (fetched: seq<Row>)
    requires ValidActive(u.active) && q.now != "" && CompleteMissing(s, u, q).Ok?
    ensures CompleteMissing(s, u, q).value.stocks == s.stocks + fetched
    ensures forall r :: r in fetched <==> IsQuote(r, s, u, q)
  {
    hide CanonicalizeIdentity, NormalizeQuote, KeySet, ActiveKey, ActiveKeys, DistinctActive, Fetch, Merge, IsFetched,
      CountsOf;
    var missing := MissingItems(u.active, KeySet(Items(s.stocks)));
    MissingIsLacking(u.active, KeySet(Items(s.stocks)));
    MissingAreDistinct(u.active, KeySet(Items(s.stocks)));
    if missing == [] {
      fetched := [];
      assert s.stocks + [] == s.stocks;
      forall i ensures !Lacks(s, u, i) {
        assert i !in missing;
      }
    } else {
      var b := Fetch(missing, q.available, q.provider, q.now).value;
      FetchedBatch(missing, q);
      FetchedBatchMerges(s, b);
      FetchIsAllOrNothing(missing, q.available, q.provider, q.now);
      fetched := b.rows;
      forall r ensures r in fetched <==> IsQuote(r, s, u, q) {
        if r in fetched {
          var k :| 0 <= k < |fetched| && fetched[k] == r;
          assert missing[k] in missing && IsQuoteOf(r, s, u, q, missing[k]);
        }
        if IsQuote(r, s, u, q) {
          var i :| IsQuoteOf(r, s, u, q, i);
          assert i in missing;
          var k :| 0 <= k < |missing| && missing[k] == i;
          assert fetched[k] in fetched;
        }
      }
    }
  }

  /** Every catalog row that stays and every quote is shown once projected, and nothing else is. */
  ghost predicate ShowsExactly(p: seq<Row>, s: Snapshot, u: Universe, q: Source) {
    var active := ActiveKeys(u.active);
    && (forall i :: 0 <= i < |s.stocks| ==> (HasImage(p, s.stocks[i]) <==> Stays(s.stocks[i], active)))
    && (forall r :: IsQuote(r, s, u, q) ==> HasImage(p, r))
    && (forall j :: 0 <= j < |p| ==> ShownAs(p[j], active) && ComesFrom(p[j], s, u, q))
  }

  ghost predicate ComesFrom(p: Row, s: Snapshot, u: Universe, q: Source) {
    HasOrigin(s.stocks, p) || exists r :: IsQuote(r, s, u, q) && IsImage(p, r)
  }

  lemma {:induction false} OriginInEither(a: seq<Row>, b: seq<Row>, p: Row)
    requires HasOrigin(a + b, p)
    ensures HasOrigin(a, p) || exists r :: r in b && IsImage(p, r)
  {
    hide IsImage;
    var i :| 0 <= i < |a + b| && IsImage(p, (a + b)[i]);
    if i < |a| {
      assert IsImage(p, a[i]);
    } else {
      assert b[i - |a|] in b;
    }
  }

  lemma {:induction false} QuotesStay(t: Snapshot, s: Snapshot, u: Universe, i: nat)
    requires Completes(s, u, t) && |s.stocks| <= i < |t.stocks|
    ensures Stays(t.stocks[i], ActiveKeys(u.active))
  {
  }

  lemma {:induction false} AppliedRows(s: Snapshot, u: Universe, q: Source)
    requires ValidSnapshot(s) && ValidActive(u.active) && q.now != "" && CompleteMissing(s, u, q).Ok?
    ensures ShowsExactly(Projected(CompleteMissing(s, u, q).value, u).stocks, s, u, q)
  {
    hide CompleteMissing, ValidActive, ActiveKeys, HasImage, HasOrigin, Stays, ShownAs, IsQuote, IsImage,
      ValidRow, KeyOf, DistinctKeys, ListsAgree, TotalsAgree, Items, ProjectRows, Count, Completes;
    var t, active := CompleteMissing(s, u, q).value, ActiveKeys(u.active);
    var fetched := CompletedRows(s, u, q);
    CompletionIsSound(s, u, q);
    CompletedIsValid(s, u, t);
    ProjectionKeepsRows(t.stocks, active);
    var p := Projected(t, u).stocks;
    assert p == ProjectRows(t.stocks, active);
    forall i | 0 <= i < |s.stocks| ensures HasImage(p, s.stocks[i]) <==> Stays(s.stocks[i], active) {
      assert t.stocks[i] == s.stocks[i];
    }
    forall r | IsQuote(r, s, u, q) ensures HasImage(p, r) {
      assert r in fetched;
      var k :| 0 <= k < |fetched| && fetched[k] == r;
      assert t.stocks[|s.stocks| + k] == r;
      QuotesStay(t, s, u, |s.stocks| + k);
    }
    forall j | 0 <= j < |p| ensures ComesFrom(p[j], s, u, q) {
      OriginInEither(s.stocks, fetched, p[j]);
    }
  }

  lemma {:induction false} CompletedIsValid(s: Snapshot, u: Universe, t: Snapshot)
    requires Completes(s, u, t)
    ensures AllValid(t.stocks) && DistinctKeys(Items(t.stocks))
  {
  }

  // ---------------------------------------------------------------------------------------
  // The answer
  // ---------------------------------------------------------------------------------------

  /** What an applied answer holds. */
  ghost predicate IsOverlay(p: Snapshot, s: Snapshot, u: Universe, q: Source) {
    var positions := ActiveKeys(u.active) - MappingKeys(s.stocks);
    && ShowsExactly(p.stocks, s, u, q)
    && PositionKeys(p.stocks) == positions && p.summary.activeHolding == Some(|positions|)
    && p.summary.total == |p.stocks| && TotalsAgree(p.summary, CountsOf(p.stocks))
    && p.version == LIVE + u.contentHash && p.time == s.time && p.quality == s.quality
    && (ValidSnapshot(p) <==> NumbersReady(s.stocks, ActiveKeys(u.active)))
  }

  lemma {:induction false} PipelineIsOverlay(s: Snapshot, u: Universe, q: Source)
    requires ValidSnapshot(s) && ValidActive(u.active) && q.now != "" && CompleteMissing(s, u, q).Ok?
    ensures var t := CompleteMissing(s, u, q).value;
      IsOverlay(Projected(t, u), s, u, q) && GetCoverage(t, u).complete
  {
    hide CompleteMissing, ValidSnapshot, ValidActive, ActiveKeys, ShowsExactly, PositionKeys, MappingKeys,
      CountsOf, TotalsAgree, NumbersReady, GetCoverage, Count;
    PipelineIsExact(s, u, q);
    AppliedRows(s, u, q);
    CompletionIsSound(s, u, q);
    SameHeader(s, u, CompleteMissing(s, u, q).value);
  }

  lemma {:induction false} SameHeader(s: Snapshot, u: Universe, t: Snapshot)
    requires Completes(s, u, t)
    ensures t.time == s.time && t.quality == s.quality
  {
  }

  lemma {:induction false} MissingAreCounted(active: seq<UniverseItem>, keys: set<Text>)
    requires DistinctActive(active)
    ensures |Missing(active, keys)| == |ActiveKeys(active) - keys|
  {
    hide ActiveKey, DistinctActive, ActiveKeys;
    if active == [] {
      NoActive();
      assert {} - keys == {};
    } else {
      var before, last := active[..|active| - 1], active[|active| - 1];
      assert active == before + [last];
      PrefixDistinct(active, |before|);
      assert active[..|before|] == before;
      MissingAreCounted(before, keys);
      KeysAppended(before, last);
      DistinctActiveNext(before, last);
      if ActiveKey(last) in keys {
        assert ActiveKeys(active) - keys == ActiveKeys(before) - keys;
      } else {
        assert ActiveKeys(active) - keys == (ActiveKeys(before) - keys) + {ActiveKey(last)};
      }
    }
  }

  /** The gate on its own: why the overlay is not applied, and that it never covers a gap. */
  lemma {:induction false} GateIsExact(s: Snapshot, gate: Gate, bound: bool, universe: Option<Universe>,
          applyOverlay: bool)
    requires universe.Some? ==> DistinctActive(universe.value.active)
    ensures var answer := ProjectCaller(s, gate, bound, universe, applyOverlay);
      if bound && gate == ENABLED && universe.Some? && applyOverlay then
        var gap := ActiveKeys(universe.value.active) - KeySet(Items(s.stocks));
        answer == if gap == {} then Ok(Overlay(Projected(s, universe.value), true, COMPLETE))
                  else Err(CoverageFailure(|gap|))
      else
        && answer.Ok? && !answer.value.applied && answer.value.snapshot == s
        && answer.value.coverage == (if bound && gate != ENABLED then Closed(gate)
                                     else if !bound || universe.None? then NOT_CONFIGURED
                                     else SKIPPED_PORTFOLIO_NOT_CONFIRMED)
  {
    hide ActiveKey, DistinctActive, ActiveKeys, KeySet, Projected;
    if universe.Some? {
      MissingAreCounted(universe.value.active, KeySet(Items(s.stocks)));
      CoverageIsExact(s, universe.value);
    }
  }

  /**
   * Serving a valid catalog. While the gate is closed or the state unknown the catalog is answered
   * as it is, with the reason. Otherwise an answer is given iff every instrument the catalog lacks
   * can be quoted; it is the overlay, and else the error is that of the quotes.
   */
  lemma {:induction false} ServingIsExact(s: Snapshot, gate: Gate, universe: Option<Universe>,
          status: Option<Status>, now: int, q: Source)
    requires ValidSnapshot(s) && Stored(status) && q.now != ""
    requires universe.Some? ==> ValidActive(universe.value.active)
    ensures var answer := Serve(s, gate, universe, status, now, q);
      if gate != ENABLED then answer == Ok(Overlay(s, false, Closed(gate)))
      else if universe.None? then answer == Ok(Overlay(s, false, NOT_CONFIGURED))
      else if ResolvePresentation(universe, status, now).state == PORTFOLIO_UNKNOWN then
        answer == Ok(Overlay(s, false, SKIPPED_PORTFOLIO_NOT_CONFIRMED))
      else
        && (answer.Ok? <==> CanComplete(s, universe.value, q))
        && (answer.Err? ==> answer.error.QuoteError? && FailsOn(s, universe.value, q, answer.error.code))
        && (answer.Ok? ==>
              && answer.value.applied && answer.value.coverage == COMPLETE
              && IsOverlay(answer.value.snapshot, s, universe.value, q))
  {
    hide CompleteMissing, ValidSnapshot, ValidActive, ResolvePresentation, GetCoverage, Projected, IsOverlay,
      CanComplete, FailsOn;
    OverlayIffKnown(universe, status, now);
    KnownNeedsUniverse(universe, status, now);
    if universe.Some? {
      CompletesIff(s, universe.value, q);
      if CompleteMissing(s, universe.value, q).Ok? {
        PipelineIsOverlay(s, universe.value, q);
      } else {
        CompletionRefusal(s, universe.value, q);
      }
    }
  }
}
