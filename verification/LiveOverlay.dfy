/**
 * The LIVE overlay pipeline: missing active instruments are quoted and merged, the coverage gate
 * decides, and the snapshot is projected onto the active instruments.
 */
module LiveOverlay {
  import opened Basics
  import opened TextOrder
  import opened QuoteRows
  import opened LiveUniverse
  import opened DynamicQuotes
  import opened PortfolioStates
  import opened PortfolioStatus

  // ---------------------------------------------------------------------------------------
  // Completion of missing quotes
  // ---------------------------------------------------------------------------------------

  function MissingItems(active: seq<UniverseItem>, keys: set<Text>): seq<UniverseItem> {
    if active == [] then []
    else
      var rest, last := MissingItems(active[..|active| - 1], keys), active[|active| - 1];
      if ActiveKey(last) in keys then rest else rest + [last]
  }

  /** Where quotes come from: whether a provider is there, what it answers, and the fetch instant. */
  datatype Source = Source(available: bool, provider: UniverseItem -> Outcome, now: string)

  function CompleteMissing(s: Snapshot, u: Universe, q: Source): Result<Snapshot, ErrorCode> {
    var missing := MissingItems(u.active, KeySet(Items(s.stocks)));
    if missing == [] then Ok(s)
    else match Fetch(missing, q.available, q.provider, q.now)
      case Err(error) => Err(error.code)
      case Ok(batch) => Merge(s, batch)
  }

  lemma {:induction false} MissingAreDistinct(active: seq<UniverseItem>, keys: set<Text>)
    ensures ActiveKeys(MissingItems(active, keys)) == ActiveKeys(active) - keys
    ensures DistinctActive(active) ==> DistinctActive(MissingItems(active, keys))
  {
    hide ActiveKey, DistinctActive, ActiveKeys;
    if active == [] {
      NoActive();
    } else {
      var before, last := active[..|active| - 1], active[|active| - 1];
      assert active == before + [last];
      MissingAreDistinct(before, keys);
      KeysAppended(before, last);
      KeysAppended(MissingItems(before, keys), last);
      if DistinctActive(active) {
        PrefixDistinct(active, |before|);
        DistinctActiveNext(before, last);
        DistinctActiveNext(MissingItems(before, keys), last);
      }
    }
  }

  lemma {:induction false} NoActive()
    ensures ActiveKeys([]) == {} && DistinctActive([])
  {
  }

  // ---------------------------------------------------------------------------------------
  // A fetched batch always merges
  // ---------------------------------------------------------------------------------------

  /** A complete batch: one valid row without nulls for each of its distinct identities. */
  predicate IsFetched(b: Batch) {
    && |b.rows| == |b.identities| && DistinctActive(b.identities)
    && forall i :: 0 <= i < |b.rows| ==> FetchedRow(b.identities[i], b.rows[i])
  }

  predicate FetchedRow(i: UniverseItem, r: Row) {
    ValidRow(r) && Complete(r.figures) && r.item.bucket == WATCH && KeyOf(r.item) == ActiveKey(i)
    && i.exchange == r.item.exchange
  }

  lemma {:induction false} FetchedBatch(inputs: seq<UniverseItem>, q: Source)
    requires Fetch(inputs, q.available, q.provider, q.now).Ok? && q.now != ""
    ensures IsFetched(Fetch(inputs, q.available, q.provider, q.now).value)
    ensures Fetch(inputs, q.available, q.provider, q.now).value.identities == inputs
  {
    hide NormalizeQuote, DistinctActive, Fetch, FetchedRow;
    FetchIsAllOrNothing(inputs, q.available, q.provider, q.now);
    var b := Fetch(inputs, q.available, q.provider, q.now).value;
    forall i | 0 <= i < |b.rows| ensures FetchedRow(b.identities[i], b.rows[i]) {
      assert AllCanonical(inputs);
      NormalizedRowIsValid(inputs[i], q.provider(inputs[i]), q.now);
      IsFetchedRow(inputs[i], b.rows[i]);
    }
  }

  lemma {:induction false} IsFetchedRow(i: UniverseItem, r: Row)
    requires ValidRow(r) && Complete(r.figures) && r.item.bucket == WATCH && KeyOf(r.item) == ActiveKey(i)
    requires i.exchange == r.item.exchange
    ensures FetchedRow(i, r)
  {
  }

  lemma {:induction false} RowKeys(b: Batch, i: nat)
    requires IsFetched(b) && i < |b.rows|
    ensures KeyOf(Items(b.rows)[i]) == ActiveKey(b.identities[i]) && Names(b.identities[i], b.rows[i])
    ensures KeyOf(Items(b.rows)[i]) in KeySet(Items(b.rows))
    ensures ActiveKey(b.identities[i]) in ActiveKeys(b.identities)
  {
    assert FetchedRow(b.identities[i], b.rows[i]);
  }

  lemma {:induction false} FetchedKeys(b: Batch)
    requires IsFetched(b)
    ensures DistinctKeys(Items(b.rows)) && KeySet(Items(b.rows)) == ActiveKeys(b.identities)
    ensures RowsNamed(b.rows, b.identities)
  {
    hide KeyOf, ActiveKey, FetchedRow;
    forall i | 0 <= i < |b.rows|
      ensures KeyOf(Items(b.rows)[i]) == ActiveKey(b.identities[i]) && InUniverse(b.identities, b.rows[i])
    {
      RowKeys(b, i);
    }
  }

  lemma {:induction false} AllRowsAreNew(rows: seq<Row>, existing: set<Text>)
    requires KeySet(Items(rows)) !! existing
    ensures NewRows(rows, existing) == rows
  {
    hide KeyOf;
    if rows != [] {
      var n := |rows| - 1;
      assert rows == rows[..n] + [rows[n]];
      assert Items(rows)[..n] == Items(rows[..n]) && Items(rows)[..n + 1] == Items(rows);
      KeySetNext(Items(rows), n);
      AllRowsAreNew(rows[..n], existing);
    }
  }

  /** Merging what was fetched for the missing instruments never fails and adds every row. */
  lemma {:induction false} FetchedBatchMerges(s: Snapshot, b: Batch)
    requires IsFetched(b) && ActiveKeys(b.identities) !! KeySet(Items(s.stocks))
    ensures Merge(s, b) == Ok(Merged(s, b.rows))
  {
    hide IsFetched, Merge, Merged, KeySet, ActiveKeys, DistinctKeys, RowsNamed;
    FetchedKeys(b);
    MergeSucceedsIff(s, b);
    AllRowsAreNew(b.rows, KeySet(Items(s.stocks)));
    BatchIsDistinct(b);
  }

  lemma {:induction false} BatchIsDistinct(b: Batch)
    requires IsFetched(b)
    ensures DistinctActive(b.identities)
  {
  }

  // ---------------------------------------------------------------------------------------
  // The merged snapshot is valid
  // ---------------------------------------------------------------------------------------

  lemma {:induction false} ItemsConcat(a: seq<Row>, b: seq<Row>)
    ensures Items(a + b) == Items(a) + Items(b)
  {
    var l, r := Items(a + b), Items(a) + Items(b);
    assert |l| == |r| && forall i :: 0 <= i < |l| ==> l[i] == r[i];
  }

  lemma {:induction false} DistinctConcat(a: seq<Item>, b: seq<Item>)
    requires DistinctKeys(a) && DistinctKeys(b) && KeySet(a) !! KeySet(b)
    ensures DistinctKeys(a + b)
  {
    hide KeyOf;
    forall i, j | 0 <= i < j < |a + b| ensures KeyOf((a + b)[i]) != KeyOf((a + b)[j]) {
      if i < |a| <= j {
        assert KeyOf(a[i]) in KeySet(a) && KeyOf(b[j - |a|]) in KeySet(b);
      }
    }
  }

  lemma {:induction false} KeySetConcat(a: seq<Item>, b: seq<Item>)
    ensures KeySet(a + b) == KeySet(a) + KeySet(b)
  {
    hide KeyOf;
    var all := a + b;
    forall k ensures k in KeySet(all) <==> k in KeySet(a) || k in KeySet(b) {
      if k in KeySet(a) {
        var i :| 0 <= i < |a| && KeyOf(a[i]) == k;
        assert all[i] == a[i];
      }
      if k in KeySet(b) {
        var i :| 0 <= i < |b| && KeyOf(b[i]) == k;
        assert all[|a| + i] == b[i];
      }
    }
  }

  lemma {:induction false} HasInConcat(a: seq<Row>, b: seq<Row>, item: Item)
    requires Has(a, item) || Has(b, item)
    ensures Has(a + b, item)
  {
    if Has(a, item) {
      var i :| 0 <= i < |a| && a[i].item == item;
      assert (a + b)[i].item == item;
    } else {
      var i :| 0 <= i < |b| && b[i].item == item;
      assert (a + b)[|a| + i].item == item;
    }
  }

  lemma {:induction false} ListsExtend(universe: seq<Item>, rows: seq<Row>, more: seq<Row>)
    requires ListsAgree(universe, rows) && DistinctKeys(universe + Items(more))
    requires AllValid(more)
    ensures ListsAgree(universe + Items(more), rows + more)
  {
    hide ValidItem, KeyOf, DistinctKeys, Has;
    var all := universe + Items(more);
    forall j | 0 <= j < |all| ensures ValidItem(all[j]) && Has(rows + more, all[j]) {
      if j < |universe| {
        HasInConcat(rows, more, all[j]);
      } else {
        HasRow(more, j - |universe|);
        HasInConcat(rows, more, all[j]);
      }
    }
  }

  lemma {:induction false} UniverseKeys(s: Snapshot)
    requires ValidSnapshot(s)
    ensures KeySet(s.universe) == KeySet(Items(s.stocks))
  {
    hide ValidRow, ValidItem, KeyOf, TotalsAgree, CountsOf;
    var items := Items(s.stocks);
    forall k ensures k in KeySet(s.universe) <==> k in KeySet(items) {
      if k in KeySet(s.universe) {
        var j :| 0 <= j < |s.universe| && KeyOf(s.universe[j]) == k;
        assert Has(s.stocks, s.universe[j]);
        var l :| 0 <= l < |s.stocks| && s.stocks[l].item == s.universe[j];
        assert KeyOf(items[l]) == k;
      }
      if k in KeySet(items) {
        var i :| 0 <= i < |items| && KeyOf(items[i]) == k;
        UniverseHoldsEveryRow(s, i);
        var j :| 0 <= j < |s.universe| && s.universe[j] == items[i];
        assert KeyOf(s.universe[j]) == k;
      }
    }
  }

  lemma {:induction false} RowsExtend(rows: seq<Row>, more: seq<Row>)
    requires RowsValid(rows) && AllValid(more) && DistinctKeys(Items(more))
    requires KeySet(Items(rows)) !! KeySet(Items(more))
    ensures RowsValid(rows + more)
  {
    hide ValidRow, DistinctKeys, KeySet;
    ItemsConcat(rows, more);
    DistinctConcat(Items(rows), Items(more));
  }

  lemma {:induction false} MergedTotalsAgree(s: Snapshot, additions: seq<Row>)
    ensures TotalsAgree(Merged(s, additions).summary, CountsOf(s.stocks + additions))
    ensures var usable := Merged(s, additions).summary.usable;
      (usable.Some? <==> s.summary.usable.Some?) && Agrees(usable, |s.stocks| + |additions|)
  {
    hide Count;
  }

  lemma {:induction false} MergedIsValid(s: Snapshot, b: Batch)
    requires ValidSnapshot(s) && IsFetched(b) && ActiveKeys(b.identities) !! KeySet(Items(s.stocks))
    ensures ValidSnapshot(Merged(s, b.rows))
  {
    FetchedKeys(b);
    FetchedAreValid(b);
    UniverseKeys(s);
    hide ValidRow, KeyOf, DistinctKeys, KeySet, ActiveKeys, CountsOf, ListsAgree, RowsValid, TotalsAgree,
      IsFetched, AllValid, RowsNamed;
    RowsExtend(s.stocks, b.rows);
    ListIsDistinct(s.universe, s.stocks);
    DistinctConcat(s.universe, Items(b.rows));
    ListsExtend(s.universe, s.stocks, b.rows);
    MergedTotalsAgree(s, b.rows);
  }

  lemma {:induction false} ListIsDistinct(universe: seq<Item>, rows: seq<Row>)
    requires ListsAgree(universe, rows)
    ensures DistinctKeys(universe)
  {
  }

  lemma {:induction false} FetchedAreValid(b: Batch)
    requires IsFetched(b)
    ensures AllValid(b.rows)
    ensures forall i :: 0 <= i < |b.rows| ==> Complete(b.rows[i].figures) && b.rows[i].item.bucket == WATCH
  {
    forall i | 0 <= i < |b.rows|
      ensures ValidRow(b.rows[i]) && Complete(b.rows[i].figures) && b.rows[i].item.bucket == WATCH
    {
      assert FetchedRow(b.identities[i], b.rows[i]);
    }
  }

  // ---------------------------------------------------------------------------------------
  // The pipeline
  // ---------------------------------------------------------------------------------------

  /** Whether completion returns depends only on the missing instruments: never on the merge. */
  lemma {:induction false} CompletionSucceedsIff(s: Snapshot, u: Universe, q: Source)
    requires ValidActive(u.active) && q.now != ""
    ensures var missing := MissingItems(u.active, KeySet(Items(s.stocks)));
      CompleteMissing(s, u, q).Ok? <==>
        missing == [] || (AllCanonical(missing) && q.available && AllQuoted(missing, q.provider, q.now))
  {
    hide Fetch, Merge, Merged, IsFetched, ActiveKeys, KeySet, DistinctActive, AllCanonical, AllQuoted;
    var missing := MissingItems(u.active, KeySet(Items(s.stocks)));
    MissingAreDistinct(u.active, KeySet(Items(s.stocks)));
    FetchIsAllOrNothing(missing, q.available, q.provider, q.now);
    if Fetch(missing, q.available, q.provider, q.now).Ok? {
      FetchedBatch(missing, q);
      FetchedBatchMerges(s, Fetch(missing, q.available, q.provider, q.now).value);
    }
  }

  /** What completion adds: valid watch rows without nulls, one for each missing instrument. */
  predicate Completes(s: Snapshot, u: Universe, t: Snapshot) {
    && ValidSnapshot(t) && t.time == s.time && t.quality == s.quality
    && |s.stocks| <= |t.stocks| && t.stocks[..|s.stocks|] == s.stocks
    && (forall i :: |s.stocks| <= i < |t.stocks| ==>
          && t.stocks[i].item.bucket == WATCH && Complete(t.stocks[i].figures)
          && KeyOf(t.stocks[i].item) in ActiveKeys(u.active))
    && KeySet(Items(t.stocks)) == KeySet(Items(s.stocks)) + ActiveKeys(u.active)
  }

  lemma {:induction false} NothingMissing(s: Snapshot, u: Universe)
    requires ValidSnapshot(s) && ActiveKeys(u.active) <= KeySet(Items(s.stocks))
    ensures Completes(s, u, s)
  {
    hide ValidSnapshot, ActiveKeys, KeySet;
  }

  lemma {:induction false} BatchCompletes(s: Snapshot, u: Universe, b: Batch)
    requires ValidSnapshot(s) && IsFetched(b)
    requires ActiveKeys(b.identities) == ActiveKeys(u.active) - KeySet(Items(s.stocks))
    ensures Completes(s, u, Merged(s, b.rows))
  {
    hide ValidSnapshot, ActiveKeys, KeySet, IsFetched, CountsOf, KeyOf, Complete, FetchedRow;
    MergedIsValid(s, b);
    FetchedAreValid(b);
    FetchedKeys(b);
    ItemsConcat(s.stocks, b.rows);
    KeySetConcat(Items(s.stocks), Items(b.rows));
    forall i | 0 <= i < |b.rows| ensures KeyOf(b.rows[i].item) in ActiveKeys(u.active) {
      RowKeys(b, i);
    }
  }

  lemma {:induction false} NothingLeft(a: set<Text>, b: set<Text>)
    requires a - b == {}
    ensures a <= b
  {
    assert forall k :: k in a ==> k in a - b || k in b;
  }

  lemma {:induction false} CompletionIsSound(s: Snapshot, u: Universe, q: Source)
    requires ValidSnapshot(s) && ValidActive(u.active) && q.now != "" && CompleteMissing(s, u, q).Ok?
    ensures Completes(s, u, CompleteMissing(s, u, q).value)
  {
    hide Fetch, Merge, Merged, IsFetched, ActiveKeys, KeySet, DistinctActive, ValidSnapshot, Completes;
    var keys := KeySet(Items(s.stocks));
    var missing := MissingItems(u.active, keys);
    MissingAreDistinct(u.active, keys);
    if missing == [] {
      NoActive();
      NothingLeft(ActiveKeys(u.active), keys);
      NothingMissing(s, u);
    } else {
      var b := Fetch(missing, q.available, q.provider, q.now).value;
      FetchedBatch(missing, q);
      FetchedBatchMerges(s, b);
      BatchCompletes(s, u, b);
    }
  }

  /** With a row for every active instrument, those not held by a mapping row are held otherwise. */
  lemma {:induction false} CoveredKeys(s: Snapshot, t: Snapshot, u: Universe)
    requires Completes(s, u, t)
    ensures ActiveKeys(u.active) * OtherKeys(t.stocks) == ActiveKeys(u.active) - MappingKeys(s.stocks)
  {
    hide KeyOf, ValidRow, ValidItem, Complete, ActiveKeys, KeySet, ListsAgree, TotalsAgree, CountsOf;
    var active := ActiveKeys(u.active);
    assert DistinctKeys(Items(t.stocks));
    forall k | k in active ensures k in OtherKeys(t.stocks) <==> k !in MappingKeys(s.stocks) {
      assert k in KeySet(Items(t.stocks));
      var i := RowOfKey(t.stocks, k);
      if j :| 0 <= j < |s.stocks| && s.stocks[j].item.bucket == MAPPING && KeyOf(s.stocks[j].item) == k {
        assert t.stocks[j] == s.stocks[j];
        SameKeySameRow(t.stocks, i, j);
        forall l | 0 <= l < |t.stocks| && t.stocks[l].item.bucket != MAPPING ensures KeyOf(t.stocks[l].item) != k {
          if KeyOf(t.stocks[l].item) == k { SameKeySameRow(t.stocks, l, j); }
        }
      } else {
        assert i < |s.stocks| ==> t.stocks[i] == s.stocks[i];
        assert t.stocks[i].item.bucket != MAPPING;
      }
    }
  }

  lemma {:induction false} RowOfKey(rows: seq<Row>, k: Text) returns (i: nat)
    requires k in KeySet(Items(rows))
    ensures i < |rows| && KeyOf(rows[i].item) == k
  {
    i :| 0 <= i < |rows| && KeyOf(Items(rows)[i]) == k;
  }

  lemma {:induction false} SameKeySameRow(rows: seq<Row>, i: nat, j: nat)
    requires DistinctKeys(Items(rows)) && i < |rows| && j < |rows| && KeyOf(rows[i].item) == KeyOf(rows[j].item)
    ensures i == j
  {
    assert KeyOf(Items(rows)[i]) == KeyOf(Items(rows)[j]);
  }

  lemma {:induction false} CompletionKeepsNumbers(s: Snapshot, t: Snapshot, u: Universe)
    requires Completes(s, u, t)
    ensures NumbersReady(t.stocks, ActiveKeys(u.active)) <==> NumbersReady(s.stocks, ActiveKeys(u.active))
  {
    hide KeyOf, ValidSnapshot, Complete, ActiveKeys, KeySet;
    assert forall i :: 0 <= i < |s.stocks| ==> t.stocks[i] == s.stocks[i];
  }

  /**
   * Overlay pipeline: when completion of a valid catalog returns, the coverage is complete; the
   * projection holds exactly the active instruments that are not mapping rows; its totals are
   * right; and the snapshot validator accepts it iff no active catalog row lacks a number.
   */
  lemma {:induction false} PipelineIsExact(s: Snapshot, u: Universe, q: Source)
    requires ValidSnapshot(s) && ValidActive(u.active) && q.now != "" && CompleteMissing(s, u, q).Ok?
    ensures var t := CompleteMissing(s, u, q).value;
      var p := Projected(t, u);
      && GetCoverage(t, u).complete
      && PositionKeys(p.stocks) == ActiveKeys(u.active) - MappingKeys(s.stocks)
      && p.summary.total == |p.stocks| && TotalsAgree(p.summary, CountsOf(p.stocks))
      && p.summary.activeHolding == Some(|ActiveKeys(u.active) - MappingKeys(s.stocks)|)
      && (ValidSnapshot(p) <==> NumbersReady(s.stocks, ActiveKeys(u.active)))
  {
    hide CompleteMissing, Projected, ActiveKeys, KeySet, MappingKeys, OtherKeys, PositionKeys, NumbersReady,
      CountsOf, TotalsAgree,
      GetCoverage, ListsAgree, RowsValid;
    var t := CompleteMissing(s, u, q).value;
    CompletionIsSound(s, u, q);
    CoverageIsExact(t, u);
    ProjectionIsExact(t, u);
    CoveredKeys(s, t, u);
    CompletionKeepsNumbers(s, t, u);
  }

  /** A valid catalog without nulls always gives a valid projection. */
  lemma {:induction false} CompleteCatalogGivesValidProjection(s: Snapshot, u: Universe, q: Source)
    requires ValidSnapshot(s) && ValidActive(u.active) && q.now != "" && CompleteMissing(s, u, q).Ok?
    requires forall i :: 0 <= i < |s.stocks| ==> Complete(s.stocks[i].figures)
    ensures ValidSnapshot(Projected(CompleteMissing(s, u, q).value, u))
  {
    hide CompleteMissing, Projected, ActiveKeys, ValidSnapshot, Complete;
    PipelineIsExact(s, u, q);
  }

  // ---------------------------------------------------------------------------------------
  // The overlay gate
  // ---------------------------------------------------------------------------------------

  datatype Gate = ENABLED | SKIPPED_UNAUTHORIZED | SKIPPED_TOKEN_NOT_CONFIGURED | SKIPPED_INSUFFICIENT_SCOPE

  datatype OverlayCoverage = NOT_CONFIGURED | COMPLETE | SKIPPED_PORTFOLIO_NOT_CONFIRMED | Closed(gate: Gate)

  datatype Overlay = Overlay(snapshot: Snapshot, applied: bool, coverage: OverlayCoverage)

  /** The coverage failure carries only how many instruments are missing. */
  datatype CoverageFailure = CoverageFailure(missingCount: nat)

  function ProjectCaller(s: Snapshot, gate: Gate, bound: bool, universe: Option<Universe>, applyOverlay: bool)
    : Result<Overlay, CoverageFailure>
  {
    if !bound then Ok(Overlay(s, false, NOT_CONFIGURED))
    else if gate != ENABLED then Ok(Overlay(s, false, Closed(gate)))
    else if universe.None? then Ok(Overlay(s, false, NOT_CONFIGURED))
    else if !applyOverlay then Ok(Overlay(s, false, SKIPPED_PORTFOLIO_NOT_CONFIRMED))
    else if !GetCoverage(s, universe.value).complete then Err(CoverageFailure(|GetCoverage(s, universe.value).missing|))
    else Ok(Overlay(Projected(s, universe.value), true, COMPLETE))
  }

  datatype ServeError = QuoteError(code: ErrorCode) | CoverageError(missingCount: nat)

  /** The caller's request: presentation, completion only where the overlay applies, projection. */
  function Serve(s: Snapshot, gate: Gate, universe: Option<Universe>, status: Option<Status>, now: int, q: Source)
    : Result<Overlay, ServeError>
  {
    if gate != ENABLED then Ok(Overlay(s, false, Closed(gate)))
    else
      var apply := ResolvePresentation(universe, status, now).applyOverlay;
      var completed := if universe.Some? && apply then CompleteMissing(s, universe.value, q) else Ok(s);
      match completed
      case Err(code) => Err(QuoteError(code))
      case Ok(t) =>
        match ProjectCaller(t, gate, true, universe, apply)
        case Err(failure) => Err(CoverageError(failure.missingCount))
        case Ok(overlay) => Ok(overlay)
  }

  /**
   * Serving a valid catalog: the overlay is applied iff the gate is open and the presented state
   * is known; otherwise the catalog is returned as it is; and the coverage failure never occurs,
   * because completion closes every gap or fails first.
   */
  lemma {:induction false} ServingIsConsistent(s: Snapshot, gate: Gate, universe: Option<Universe>,
          status: Option<Status>, now: int, q: Source)
    requires ValidSnapshot(s) && Stored(status) && q.now != ""
    requires universe.Some? ==> ValidActive(universe.value.active)
    ensures var answer := Serve(s, gate, universe, status, now, q);
      var known := ResolvePresentation(universe, status, now).state != PORTFOLIO_UNKNOWN;
      && (answer.Err? ==> answer.error.QuoteError? && gate == ENABLED && known)
      && (answer.Ok? ==> (answer.value.applied <==> gate == ENABLED && known))
      && (answer.Ok? && !answer.value.applied ==> answer.value.snapshot == s)
      && (answer.Ok? && answer.value.applied ==>
            universe.Some?
            && PositionKeys(answer.value.snapshot.stocks) == ActiveKeys(universe.value.active) - MappingKeys(s.stocks))
  {
    hide CompleteMissing, Projected, ActiveKeys, PositionKeys, MappingKeys, ValidSnapshot, ResolvePresentation,
      GetCoverage, NumbersReady,
      CountsOf, TotalsAgree, ValidActive;
    OverlayIffKnown(universe, status, now);
    if universe.Some? && CompleteMissing(s, universe.value, q).Ok? {
      PipelineIsExact(s, universe.value, q);
    }
    KnownNeedsUniverse(universe, status, now);
  }

  lemma {:induction false} KnownNeedsUniverse(universe: Option<Universe>, status: Option<Status>, now: int)
    ensures ResolvePresentation(universe, status, now).state != PORTFOLIO_UNKNOWN ==> universe.Some?
  {
  }
}
