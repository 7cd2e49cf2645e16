/**
 * What the snapshot validator accepts, said field by field: one table per bucket, the two lists as
 * sets, and each total as a number of rows.
 */
module SnapshotRules {
  import opened TextOrder
  import opened Basics
  import opened QuoteRows

  /** The fields that follow from the bucket. */
  predicate FitsBucket(i: Item) {
    match i.bucket
    case CORE => i.group == Core && i.research == Some(AsCore) && IsOrdinary(i)
    case GROWTH => i.group == Growth && i.research == Some(AsGrowth) && IsOrdinary(i)
    case WATCH => i.group == Watch && i.research == Some(AsWatch) && IsOrdinary(i)
    case MAPPING =>
      && i.group == Core && i.research == None && i.holding == MAPPING_ONLY && i.mappingOnly
      && i.mappedTo.Some? && i.mappedTo.value != "" && i.mappingTo == i.mappedTo
  }

  predicate IsOrdinary(i: Item) {
    i.holding != MAPPING_ONLY && !i.mappingOnly && i.mappedTo == None && i.mappingTo == None
  }

  /** A position has no or a positive quantity, anything else the quantity zero. */
  predicate FitsHolding(i: Item) {
    if i.holding == ACTIVE then i.isPosition && (i.positionQty == None || i.positionQty.value > 0.0)
    else !i.isPosition && i.positionQty == Some(0.0)
  }

  predicate FitsMarket(i: Item) {
    (i.market == CN && i.exchange in {SH, SZ}) || (i.market == HK && i.exchange == HKX)
  }

  function Numbers(f: Figures): seq<Option<real>> {
    [f.price, f.open, f.high, f.low, f.preClose, f.prevClose, f.change, f.changePct, f.pctChange, f.volume, f.amount,
     f.ageSeconds]
  }

  /** Which rows are accepted. */
  lemma {:induction false} RowIsValidIff(r: Row)
    ensures ValidItem(r.item) <==>
            r.item.code != [] && r.item.name != [] && FitsMarket(r.item) && FitsBucket(r.item) && FitsHolding(r.item)
    ensures Complete(r.figures) <==> None !in Numbers(r.figures)
    ensures ValidRow(r) <==>
            && ValidItem(r.item) && (r.item.holding == ACTIVE ==> None !in Numbers(r.figures))
            && "" !in [r.provenance.freshnessBasis, r.provenance.sourceStatus, r.provenance.quality,
                       r.provenance.fetchTime]
  {
    var n := Numbers(r.figures);
    assert Complete(r.figures) ==> forall k :: 0 <= k < |n| ==> n[k].Some?;
    assert n[0] == r.figures.price && n[1] == r.figures.open && n[2] == r.figures.high && n[3] == r.figures.low;
    assert n[4] == r.figures.preClose && n[5] == r.figures.prevClose && n[6] == r.figures.change;
    assert n[7] == r.figures.changePct && n[8] == r.figures.pctChange && n[9] == r.figures.volume;
    assert n[10] == r.figures.amount && n[11] == r.figures.ageSeconds;
    var p := r.provenance;
    var t := [p.freshnessBasis, p.sourceStatus, p.quality, p.fetchTime];
    assert t[0] == p.freshnessBasis && t[1] == p.sourceStatus && t[2] == p.quality && t[3] == p.fetchTime;
  }

  ghost function InBucket(rows: seq<Row>, b: Bucket): nat { |set i | 0 <= i < |rows| && rows[i].item.bucket == b| }

  ghost function PositionRows(rows: seq<Row>): nat { |set i | 0 <= i < |rows| && rows[i].item.isPosition| }

  ghost function QuotedRows(rows: seq<Row>): nat {
    |set i | 0 <= i < |rows| && (rows[i].item.isPosition || rows[i].item.mappingOnly)|
  }

  predicate IsOf(total: Option<int>, n: int) { total == None || total == Some(n) }

  /** Each total that is given is the number of its rows; no watch row has exited. */
  ghost predicate TotalsCount(s: Snapshot) {
    var t, rows := s.summary, s.stocks;
    && t.total == |rows| && IsOf(t.activeQuote, QuotedRows(rows)) && IsOf(t.activeHolding, PositionRows(rows))
    && IsOf(t.core, InBucket(rows, CORE)) && IsOf(t.growth, InBucket(rows, GROWTH))
    && IsOf(t.watch, InBucket(rows, WATCH)) && IsOf(t.mapping, InBucket(rows, MAPPING)) && IsOf(t.exitedWatch, 0)
  }

  lemma {:induction false} CountsAreNumbers(rows: seq<Row>)
    ensures Count(rows, Quoted) == QuotedRows(rows) && Count(rows, Held) == PositionRows(rows)
    ensures Count(rows, InCore) == InBucket(rows, CORE) && Count(rows, InGrowth) == InBucket(rows, GROWTH)
    ensures Count(rows, InWatch) == InBucket(rows, WATCH) && Count(rows, InMapping) == InBucket(rows, MAPPING)
  {
    forall c ensures Count(rows, c) == |Positions(rows, c)| { CountIsCardinality(rows, c); }
    assert Positions(rows, Quoted) == set i | 0 <= i < |rows| && (rows[i].item.isPosition || rows[i].item.mappingOnly);
    assert Positions(rows, Held) == set i | 0 <= i < |rows| && rows[i].item.isPosition;
    assert Positions(rows, InCore) == set i | 0 <= i < |rows| && rows[i].item.bucket == CORE;
    assert Positions(rows, InGrowth) == set i | 0 <= i < |rows| && rows[i].item.bucket == GROWTH;
    assert Positions(rows, InWatch) == set i | 0 <= i < |rows| && rows[i].item.bucket == WATCH;
    assert Positions(rows, InMapping) == set i | 0 <= i < |rows| && rows[i].item.bucket == MAPPING;
  }

  lemma {:induction false} TotalsAreCounts(s: Snapshot)
    ensures s.summary.total == |s.stocks| && TotalsAgree(s.summary, CountsOf(s.stocks)) <==> TotalsCount(s)
  {
    CountsAreNumbers(s.stocks);
    hide InBucket, PositionRows, QuotedRows, Count;
  }

  /** The two lists hold the same items, each once. */
  predicate SameItems(s: Snapshot) {
    && |s.universe| == |s.stocks|
    && (forall j, k :: 0 <= j < k < |s.universe| ==> s.universe[j] != s.universe[k])
    && (forall j :: 0 <= j < |s.universe| ==> exists i :: 0 <= i < |s.stocks| && s.stocks[i].item == s.universe[j])
    && (forall i :: 0 <= i < |s.stocks| ==> s.stocks[i].item in s.universe)
  }

  predicate DistinctInstruments(rows: seq<Row>) {
    forall i, j :: 0 <= i < j < |rows| ==>
      (rows[i].item.market, rows[i].item.code) != (rows[j].item.market, rows[j].item.code)
  }

  lemma {:induction false} InstrumentsAreKeys(rows: seq<Row>)
    ensures DistinctInstruments(rows) <==> DistinctKeys(Items(rows))
  {
    hide Key;
    forall i, j | 0 <= i < j < |rows|
      ensures KeyOf(Items(rows)[i]) == KeyOf(Items(rows)[j]) <==>
              (rows[i].item.market, rows[i].item.code) == (rows[j].item.market, rows[j].item.code)
    {
      var a, b := rows[i].item, rows[j].item;
      if KeyOf(a) == KeyOf(b) { KeyIsInjective(a.market, a.code, b.market, b.code); }
    }
  }

  lemma {:induction false} AgreeingListsAreSame(s: Snapshot)
    requires ValidSnapshot(s)
    ensures SameItems(s)
  {
    hide ValidRow, ValidItem, KeyOf, CountsOf, TotalsAgree;
    forall j, k | 0 <= j < k < |s.universe| ensures s.universe[j] != s.universe[k] {
      assert KeyOf(s.universe[j]) != KeyOf(s.universe[k]);
    }
    hide DistinctKeys;
    forall i | 0 <= i < |s.stocks| ensures s.stocks[i].item in s.universe {
      UniverseHoldsEveryRow(s, i);
      assert Items(s.stocks)[i] == s.stocks[i].item;
    }
    forall j | 0 <= j < |s.universe| ensures exists i :: 0 <= i < |s.stocks| && s.stocks[i].item == s.universe[j] {
      assert Has(s.stocks, s.universe[j]);
    }
  }

  lemma {:induction false} SameListsAgree(s: Snapshot)
    requires RowsValid(s.stocks) && SameItems(s)
    ensures ListsAgree(s.universe, s.stocks)
  {
    hide ValidItem, KeyOf;
    forall j | 0 <= j < |s.universe| ensures ValidItem(s.universe[j]) && Has(s.stocks, s.universe[j]) {
      var i :| 0 <= i < |s.stocks| && s.stocks[i].item == s.universe[j];
      assert ValidRow(s.stocks[i]);
    }
    forall j, k | 0 <= j < k < |s.universe| ensures KeyOf(s.universe[j]) != KeyOf(s.universe[k]) {
      OtherKeys(s, j, k);
    }
  }

  lemma {:induction false} OtherKeys(s: Snapshot, j: nat, k: nat)
    requires DistinctKeys(Items(s.stocks)) && SameItems(s) && j < k < |s.universe|
    ensures KeyOf(s.universe[j]) != KeyOf(s.universe[k])
  {
    hide KeyOf;
    var a :| 0 <= a < |s.stocks| && s.stocks[a].item == s.universe[j];
    var b :| 0 <= b < |s.stocks| && s.stocks[b].item == s.universe[k];
    assert Items(s.stocks)[a] == s.universe[j] && Items(s.stocks)[b] == s.universe[k] && a != b;
  }

  /** Which snapshots are accepted. */
  lemma {:induction false} SnapshotIsValidIff(s: Snapshot)
    ensures ValidSnapshot(s) <==>
            && s.version != [] && s.time != "" && s.quality != "" && TotalsCount(s)
            && (forall i :: 0 <= i < |s.stocks| ==> ValidRow(s.stocks[i]))
            && DistinctInstruments(s.stocks) && SameItems(s)
  {
    hide ValidRow, TotalsAgree, TotalsCount, CountsOf, ListsAgree, SameItems, DistinctKeys, DistinctInstruments;
    TotalsAreCounts(s);
    InstrumentsAreKeys(s.stocks);
    if ValidSnapshot(s) { AgreeingListsAreSame(s); }
    if RowsValid(s.stocks) && SameItems(s) { SameListsAgree(s); }
  }

  /** The caller's two options: an expected number of quoted rows, and that some row is watched. */
  lemma {:induction false} OptionsAreMetIff(s: Snapshot, expected: Option<int>, requireWatch: bool)
    ensures MeetsOptions(s, expected, requireWatch) <==>
            && IsOf(expected, QuotedRows(s.stocks))
            && (requireWatch ==> exists i :: 0 <= i < |s.stocks| && s.stocks[i].item.bucket == WATCH)
  {
    CountsAreNumbers(s.stocks);
    var watched := set i | 0 <= i < |s.stocks| && s.stocks[i].item.bucket == WATCH;
    assert InBucket(s.stocks, WATCH) == |watched|;
    if i :| 0 <= i < |s.stocks| && s.stocks[i].item.bucket == WATCH { assert i in watched; }
    if watched != {} { var i :| i in watched; }
  }
}
