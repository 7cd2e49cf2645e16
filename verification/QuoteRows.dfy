/**
 * The quote snapshot and its validator: classification of a row, agreement of the two lists,
 * derived totals. Rows are typed; what may still be wrong in a row is its numbers, its texts and
 * the consistency of its classification.
 */
module QuoteRows {
  import opened Basics
  import opened TextOrder

  datatype Market = CN | HK

  /** `HKX` is the Hong Kong exchange; a snapshot row is never on `BJ`. */
  datatype Exchange = SH | SZ | BJ | HKX

  datatype Group = Core | Growth | Watch

  datatype Bucket = CORE | GROWTH | WATCH | MAPPING

  datatype Research = AsCore | AsGrowth | AsWatch

  datatype Holding = ACTIVE | MAPPING_ONLY | WATCHED

  /** The thirteen fields shared by a row and its portfolio-universe item. */
  datatype Item = Item(
    code: Text, market: Market, exchange: Exchange, name: Text,
    group: Group, bucket: Bucket, research: Option<Research>, holding: Holding,
    mappingOnly: bool, mappedTo: Option<string>, mappingTo: Option<string>,
    positionQty: Option<real>, isPosition: bool)

  /** The twelve numeric fields; None is null. */
  datatype Figures = Figures(
    price: Option<real>, change: Option<real>, changePct: Option<real>, preClose: Option<real>,
    prevClose: Option<real>, open: Option<real>, high: Option<real>, low: Option<real>,
    pctChange: Option<real>, volume: Option<real>, amount: Option<real>, ageSeconds: Option<real>)

  datatype MarketStatus = OPEN | CLOSED

  datatype Provenance = Provenance(
    marketStatus: MarketStatus, freshnessBasis: string, sourceStatus: string, quality: string, fetchTime: string,
    marketDataTime: Option<string>, quoteTime: Option<string>, sourceUpdateTime: Option<string>,
    primarySource: Option<string>, secondarySource: Option<string>)

  datatype Row = Row(item: Item, figures: Figures, provenance: Provenance)

  /** A derived total that is absent is not checked. */
  datatype Summary = Summary(
    total: int, activeQuote: Option<int>, activeHolding: Option<int>, watch: Option<int>, exitedWatch: Option<int>,
    mapping: Option<int>, core: Option<int>, growth: Option<int>, usable: Option<int>)

  datatype Snapshot = Snapshot(
    version: Text, time: string, quality: string, summary: Summary, universe: seq<Item>, stocks: seq<Row>)

  function Prefix(m: Market): Text {
    match m
    case CN => [0x43, 0x4E, 0x3A]
    case HK => [0x48, 0x4B, 0x3A]
  }

  function ExchangeText(e: Exchange): Text {
    match e
    case SH => [0x53, 0x48]
    case SZ => [0x53, 0x5A]
    case BJ => [0x42, 0x4A]
    case HKX => [0x48, 0x4B]
  }

  /** The instrument key: market, colon, code. */
  function Key(m: Market, code: Text): Text { Prefix(m) + code }

  function KeyOf(i: Item): Text { Key(i.market, i.code) }

  lemma {:induction false} KeyIsInjective(m: Market, c: Text, n: Market, d: Text)
    requires Key(m, c) == Key(n, d)
    ensures m == n && c == d
  {
    assert Key(m, c)[0] == Prefix(m)[0] && Key(n, d)[0] == Prefix(n)[0];
    assert c == Key(m, c)[3..] && d == Key(n, d)[3..];
  }

  // ---------------------------------------------------------------------------------------
  // Validity
  // ---------------------------------------------------------------------------------------

  function BroadGroup(b: Bucket): Group {
    match b
    case CORE => Core
    case MAPPING => Core
    case GROWTH => Growth
    case WATCH => Watch
  }

  function ResearchOf(b: Bucket): Option<Research> {
    match b
    case CORE => Some(AsCore)
    case GROWTH => Some(AsGrowth)
    case WATCH => Some(AsWatch)
    case MAPPING => None
  }

  predicate Classified(i: Item) {
    && i.exchange != BJ && (i.market == HK <==> i.exchange == HKX)
    && i.group == BroadGroup(i.bucket) && i.research == ResearchOf(i.bucket)
    && (i.holding == MAPPING_ONLY <==> i.bucket == MAPPING)
    && (i.mappingOnly <==> i.bucket == MAPPING)
    && i.mappingTo == i.mappedTo
    && (if i.bucket == MAPPING then i.mappingTo.Some? && i.mappingTo.value != "" else i.mappingTo.None?)
    && (i.positionQty.Some? ==> i.positionQty.value >= 0.0)
    && (i.isPosition <==> i.holding == ACTIVE)
    && (!i.isPosition ==> i.positionQty == Some(0.0))
    && (i.isPosition && i.positionQty.Some? ==> i.positionQty.value > 0.0)
  }

  predicate ValidItem(i: Item) { i.code != [] && i.name != [] && Classified(i) }

  /** No null among the numbers. */
  predicate Complete(f: Figures) {
    && f.price.Some? && f.change.Some? && f.changePct.Some? && f.preClose.Some? && f.prevClose.Some? && f.open.Some?
    && f.high.Some? && f.low.Some? && f.pctChange.Some? && f.volume.Some? && f.amount.Some? && f.ageSeconds.Some?
  }

  predicate Sourced(p: Provenance) {
    p.freshnessBasis != "" && p.sourceStatus != "" && p.quality != "" && p.fetchTime != ""
  }

  /** Null numbers are allowed on rows that are not positions. */
  predicate ValidRow(r: Row) {
    ValidItem(r.item) && Sourced(r.provenance) && (r.item.isPosition ==> Complete(r.figures))
  }

  function Items(rows: seq<Row>): (items: seq<Item>)
    ensures |items| == |rows| && forall i :: 0 <= i < |rows| ==> items[i] == rows[i].item
  {
    if rows == [] then [] else Items(rows[..|rows| - 1]) + [rows[|rows| - 1].item]
  }

  predicate DistinctKeys(items: seq<Item>) {
    forall i, j :: 0 <= i < j < |items| ==> KeyOf(items[i]) != KeyOf(items[j])
  }

  // ---------------------------------------------------------------------------------------
  // Counts
  // ---------------------------------------------------------------------------------------

  /** The classes of rows that are counted. */
  datatype Class = InCore | InGrowth | InWatch | InMapping | Quoted | Held

  predicate IsIn(i: Item, c: Class) {
    match c
    case InCore => i.bucket == CORE
    case InGrowth => i.bucket == GROWTH
    case InWatch => i.bucket == WATCH
    case InMapping => i.bucket == MAPPING
    case Quoted => i.isPosition || i.mappingOnly
    case Held => i.isPosition
  }

  function Count(rows: seq<Row>, c: Class): nat {
    if rows == [] then 0
    else Count(rows[..|rows| - 1], c) + if IsIn(rows[|rows| - 1].item, c) then 1 else 0
  }

  datatype Counts = Counts(
    total: nat, activeQuote: nat, activeHolding: nat, watch: nat, exitedWatch: nat,
    mapping: nat, core: nat, growth: nat)

  function CountsOf(rows: seq<Row>): Counts {
    Counts(|rows|, Count(rows, Quoted), Count(rows, Held), Count(rows, InWatch), 0,
           Count(rows, InMapping), Count(rows, InCore), Count(rows, InGrowth))
  }

  function Positions(rows: seq<Row>, c: Class): set<int> {
    set i | 0 <= i < |rows| && IsIn(rows[i].item, c)
  }

  lemma {:induction false} PositionsNext(before: seq<Row>, last: Row, c: Class)
    ensures Positions(before + [last], c) == Positions(before, c) + if IsIn(last.item, c) then {|before|} else {}
  {
    hide IsIn;
    var all := before + [last];
    forall i ensures i in Positions(all, c) <==> i in Positions(before, c) || (i == |before| && IsIn(last.item, c)) {
    }
  }

  /** A count is the number of positions in the list that hold a row of the class. */
  lemma {:induction false} CountIsCardinality(rows: seq<Row>, c: Class)
    ensures Count(rows, c) == |Positions(rows, c)|
  {
    hide IsIn, Positions;
    if rows == [] {
      assert Positions(rows, c) == {} by { NoPositions(c); }
    } else {
      var before, last := rows[..|rows| - 1], rows[|rows| - 1];
      assert rows == before + [last];
      CountIsCardinality(before, c);
      PositionsNext(before, last, c);
      assert |before| !in Positions(before, c) by { PositionsAreIndices(before, c); }
    }
  }

  lemma {:induction false} NoPositions(c: Class)
    ensures Positions([], c) == {}
  {
  }

  lemma {:induction false} PositionsAreIndices(rows: seq<Row>, c: Class)
    ensures |rows| !in Positions(rows, c)
  {
  }

  method GetSnapshotCounts(rows: seq<Row>) returns (counts: Counts)
    ensures counts == CountsOf(rows)
  {
    var activeQuote, activeHolding, watch, core, growth, mapping := 0, 0, 0, 0, 0, 0;
    for i := 0 to |rows|
      invariant activeQuote == Count(rows[..i], Quoted) && activeHolding == Count(rows[..i], Held)
      invariant watch == Count(rows[..i], InWatch) && mapping == Count(rows[..i], InMapping)
      invariant core == Count(rows[..i], InCore) && growth == Count(rows[..i], InGrowth)
    {
      assert rows[..i + 1][..i] == rows[..i];
      var item := rows[i].item;
      if item.bucket == CORE { core := core + 1; }
      if item.bucket == GROWTH { growth := growth + 1; }
      if item.bucket == WATCH { watch := watch + 1; }
      if item.bucket == MAPPING { mapping := mapping + 1; }
      if item.isPosition || item.mappingOnly { activeQuote := activeQuote + 1; }
      if item.isPosition { activeHolding := activeHolding + 1; }
    }
    assert rows[..|rows|] == rows;
    counts := Counts(|rows|, activeQuote, activeHolding, watch, 0, mapping, core, growth);
  }

  // ---------------------------------------------------------------------------------------
  // The snapshot validator
  // ---------------------------------------------------------------------------------------

  predicate Agrees(supplied: Option<int>, derived: int) { supplied.Some? ==> supplied.value == derived }

  predicate TotalsAgree(s: Summary, c: Counts) {
    && Agrees(s.activeQuote, c.activeQuote) && Agrees(s.activeHolding, c.activeHolding) && Agrees(s.watch, c.watch)
    && Agrees(s.exitedWatch, c.exitedWatch) && Agrees(s.mapping, c.mapping)
    && Agrees(s.core, c.core) && Agrees(s.growth, c.growth)
  }

  predicate Has(rows: seq<Row>, item: Item) {
    exists i :: 0 <= i < |rows| && rows[i].item == item
  }

  predicate RowsValid(rows: seq<Row>) {
    (forall i :: 0 <= i < |rows| ==> ValidRow(rows[i])) && DistinctKeys(Items(rows))
  }

  /** The same instruments, once each, with the same thirteen fields. */
  predicate ListsAgree(universe: seq<Item>, rows: seq<Row>) {
    && |universe| == |rows| && DistinctKeys(universe)
    && forall j :: 0 <= j < |universe| ==> ValidItem(universe[j]) && Has(rows, universe[j])
  }

  predicate ValidSnapshot(s: Snapshot) {
    && s.version != [] && s.time != "" && s.quality != ""
    && s.summary.total == |s.stocks|
    && RowsValid(s.stocks) && ListsAgree(s.universe, s.stocks)
    && TotalsAgree(s.summary, CountsOf(s.stocks))
  }

  predicate MeetsOptions(s: Snapshot, expected: Option<int>, requireWatch: bool) {
    && Agrees(expected, Count(s.stocks, Quoted))
    && (requireWatch ==> Count(s.stocks, InWatch) != 0)
  }

  predicate HasKey(items: seq<Item>, k: Text) {
    exists i :: 0 <= i < |items| && KeyOf(items[i]) == k
  }

  /** The map from keys that holds exactly the given rows. */
  ghost predicate Indexes(index: map<Text, Row>, rows: seq<Row>) {
    && (forall k :: k in index ==> HasKey(Items(rows), k))
    && forall i :: 0 <= i < |rows| ==> KeyOf(rows[i].item) in index && index[KeyOf(rows[i].item)] == rows[i]
  }

  lemma {:induction false} DistinctNext(items: seq<Item>, item: Item)
    requires DistinctKeys(items)
    ensures DistinctKeys(items + [item]) <==> !HasKey(items, KeyOf(item))
  {
    hide KeyOf;
    var all := items + [item];
    if DistinctKeys(all) {
      forall i | 0 <= i < |items| ensures KeyOf(items[i]) != KeyOf(item) {
        assert KeyOf(all[i]) != KeyOf(all[|items|]);
      }
    }
  }

  lemma {:induction false} DistinctPrefix(items: seq<Item>, n: nat)
    requires n <= |items| && DistinctKeys(items)
    ensures DistinctKeys(items[..n])
  {
  }

  lemma {:induction false} ItemsNext(rows: seq<Row>, n: nat)
    requires n < |rows|
    ensures Items(rows[..n + 1]) == Items(rows[..n]) + [rows[n].item]
    ensures Items(rows)[..n + 1] == Items(rows[..n + 1])
  {
    assert rows[..n + 1][..n] == rows[..n];
  }

  lemma {:induction false} HasKeyNext(items: seq<Item>, item: Item, k: Text)
    ensures HasKey(items + [item], k) <==> HasKey(items, k) || k == KeyOf(item)
  {
    hide KeyOf;
    var all := items + [item];
    assert all[|items|] == item;
    if HasKey(items, k) {
      var i :| 0 <= i < |items| && KeyOf(items[i]) == k;
      assert KeyOf(all[i]) == k;
    }
  }

  lemma {:induction false} ItemsSnoc(rows: seq<Row>, row: Row)
    ensures Items(rows + [row]) == Items(rows) + [row.item]
  {
    assert (rows + [row])[..|rows|] == rows;
  }

  lemma {:induction false} IndexHasKey(index: map<Text, Row>, rows: seq<Row>, k: Text)
    requires Indexes(index, rows)
    ensures k in index <==> HasKey(Items(rows), k)
  {
    hide KeyOf;
    if HasKey(Items(rows), k) {
      var i :| 0 <= i < |rows| && KeyOf(Items(rows)[i]) == k;
      assert KeyOf(rows[i].item) in index;
    }
  }

  lemma {:induction false} IndexNext(index: map<Text, Row>, rows: seq<Row>, row: Row)
    requires Indexes(index, rows)
    ensures KeyOf(row.item) in index <==> HasKey(Items(rows), KeyOf(row.item))
    ensures KeyOf(row.item) !in index ==> Indexes(index[KeyOf(row.item) := row], rows + [row])
  {
    hide KeyOf, HasKey, Items;
    var all, k := rows + [row], KeyOf(row.item);
    ItemsSnoc(rows, row);
    IndexHasKey(index, rows, k);
    forall l ensures HasKey(Items(all), l) <==> HasKey(Items(rows), l) || l == k {
      HasKeyNext(Items(rows), row.item, l);
    }
  }

  /** The rows indexed by key, or None when a row is invalid or a key occurs twice. */
  method IndexRows(rows: seq<Row>) returns (index: Option<map<Text, Row>>)
    ensures index.Some? <==> RowsValid(rows)
    ensures index.Some? ==> Indexes(index.value, rows)
  {
    hide ValidRow, KeyOf, Indexes, DistinctKeys, HasKey;
    for i := 0 to |rows|
      invariant forall k :: 0 <= k < i ==> ValidRow(rows[k])
    {
      if !ValidRow(rows[i]) { return None; }
    }
    var byKey: map<Text, Row> := map[];
    assert Indexes(byKey, []) && DistinctKeys([]) by { NothingIndexed(); }
    for i := 0 to |rows|
      invariant DistinctKeys(Items(rows[..i])) && Indexes(byKey, rows[..i])
    {
      var key := KeyOf(rows[i].item);
      IndexNext(byKey, rows[..i], rows[i]);
      ItemsNext(rows, i);
      DistinctNext(Items(rows[..i]), rows[i].item);
      assert rows[..i + 1] == rows[..i] + [rows[i]];
      if key in byKey {
        if DistinctKeys(Items(rows)) { DistinctPrefix(Items(rows), i + 1); }
        return None;
      }
      byKey := byKey[key := rows[i]];
    }
    assert rows[..|rows|] == rows;
    index := Some(byKey);
  }

  lemma {:induction false} NothingIndexed()
    ensures Indexes(map[], []) && DistinctKeys([])
  {
  }

  lemma {:induction false} IndexFinds(index: map<Text, Row>, rows: seq<Row>, item: Item)
    requires Indexes(index, rows)
    ensures Has(rows, item) <==> KeyOf(item) in index && index[KeyOf(item)].item == item
  {
    hide KeyOf;
    if Has(rows, item) {
      var i :| 0 <= i < |rows| && rows[i].item == item;
    }
    if KeyOf(item) in index && index[KeyOf(item)].item == item {
      var i :| 0 <= i < |rows| && KeyOf(Items(rows)[i]) == KeyOf(item);
      assert rows[i].item == item;
    }
  }

  predicate Seen(seen: set<Text>, items: seq<Item>) {
    && (forall k :: k in seen ==> HasKey(items, k))
    && forall i :: 0 <= i < |items| ==> KeyOf(items[i]) in seen
  }

  lemma {:induction false} SeenNext(seen: set<Text>, items: seq<Item>, item: Item)
    requires Seen(seen, items)
    ensures KeyOf(item) in seen <==> HasKey(items, KeyOf(item))
    ensures Seen(seen + {KeyOf(item)}, items + [item])
  {
    hide KeyOf;
    var all := items + [item];
    assert KeyOf(all[|items|]) == KeyOf(item);
    forall k | k in seen ensures HasKey(all, k) {
      var i :| 0 <= i < |items| && KeyOf(items[i]) == k;
      assert KeyOf(all[i]) == k;
    }
  }

  /** Every item of the universe list is the one row under its key. */
  method MatchUniverse(universe: seq<Item>, rows: seq<Row>, index: map<Text, Row>) returns (ok: bool)
    requires |universe| == |rows| && Indexes(index, rows)
    ensures ok <==> ListsAgree(universe, rows)
  {
    hide ValidItem, KeyOf, Indexes, DistinctKeys, HasKey, Has, Seen;
    var seen: set<Text> := {};
    assert Seen(seen, []) && DistinctKeys([]) by { NothingSeen(); }
    for j := 0 to |universe|
      invariant DistinctKeys(universe[..j]) && Seen(seen, universe[..j])
      invariant forall l :: 0 <= l < j ==> ValidItem(universe[l]) && Has(rows, universe[l])
    {
      var item := universe[j];
      if !ValidItem(item) { return false; }
      var key := KeyOf(item);
      SeenNext(seen, universe[..j], item);
      DistinctNext(universe[..j], item);
      assert universe[..j + 1] == universe[..j] + [item];
      if key in seen {
        if DistinctKeys(universe) { DistinctPrefix(universe, j + 1); }
        return false;
      }
      seen := seen + {key};
      IndexFinds(index, rows, item);
      if key !in index || index[key].item != item { return false; }
    }
    assert universe[..|universe|] == universe;
    ok := true;
  }

  lemma {:induction false} NothingSeen()
    ensures Seen({}, []) && DistinctKeys([])
  {
  }

  method ValidateSnapshot(s: Snapshot, expected: Option<int>, requireWatch: bool) returns (ok: bool)
    ensures ok <==> ValidSnapshot(s) && MeetsOptions(s, expected, requireWatch)
  {
    if s.version == [] || s.time == "" || s.quality == "" || s.summary.total != |s.stocks| { return false; }
    var index := IndexRows(s.stocks);
    if index.None? || |s.universe| != |s.stocks| { return false; }
    var matched := MatchUniverse(s.universe, s.stocks, index.value);
    if !matched { return false; }
    var counts := GetSnapshotCounts(s.stocks);
    if expected.Some? && counts.activeQuote != expected.value { return false; }
    if requireWatch && counts.watch == 0 { return false; }
    ok := TotalsAgree(s.summary, counts);
  }

  // ---------------------------------------------------------------------------------------
  // What validity gives a reader
  // ---------------------------------------------------------------------------------------

  function KeySet(items: seq<Item>): set<Text> { set i | 0 <= i < |items| :: KeyOf(items[i]) }

  lemma {:induction false} DistinctKeysCount(items: seq<Item>)
    requires DistinctKeys(items)
    ensures |KeySet(items)| == |items|
  {
    if items == [] {
      assert KeySet(items) == {};
    } else {
      var n := |items| - 1;
      DistinctKeysCount(items[..n]);
      assert KeySet(items) == KeySet(items[..n]) + {KeyOf(items[n])};
      assert KeyOf(items[n]) !in KeySet(items[..n]);
    }
  }

  lemma {:induction false} SubsetOfEqualSize<T>(a: set<T>, b: set<T>)
    requires a <= b && |a| == |b|
    ensures a == b
  {
    if x :| x in b && x !in a {
      assert a <= b - {x};
      SubsetSize(a, b - {x});
    }
  }

  lemma {:induction false} SubsetSize<T>(a: set<T>, b: set<T>)
    requires a <= b
    ensures |a| <= |b|
    decreases |a|
  {
    if x :| x in a {
      SubsetSize(a - {x}, b - {x});
    }
  }

  /** Though only one direction is compared, the universe list holds every row of the snapshot. */
  lemma {:induction false} UniverseHoldsEveryRow(s: Snapshot, i: nat)
    requires ValidSnapshot(s) && i < |s.stocks|
    ensures s.stocks[i].item in s.universe
  {
    hide ValidRow, ValidItem, KeyOf, TotalsAgree, CountsOf;
    var items := Items(s.stocks);
    DistinctKeysCount(s.universe);
    DistinctKeysCount(items);
    forall k | k in KeySet(s.universe) ensures k in KeySet(items) {
      var j :| 0 <= j < |s.universe| && KeyOf(s.universe[j]) == k;
      assert Has(s.stocks, s.universe[j]);
      var l :| 0 <= l < |s.stocks| && s.stocks[l].item == s.universe[j];
      assert KeyOf(items[l]) == k;
    }
    SubsetOfEqualSize(KeySet(s.universe), KeySet(items));
    assert KeyOf(items[i]) in KeySet(s.universe);
    var j :| 0 <= j < |s.universe| && KeyOf(s.universe[j]) == KeyOf(items[i]);
    assert Has(s.stocks, s.universe[j]);
    var l :| 0 <= l < |s.stocks| && s.stocks[l].item == s.universe[j];
    assert KeyOf(items[l]) == KeyOf(items[i]);
    assert l == i;
  }
}
