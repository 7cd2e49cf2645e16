/**
 * The LIVE universe: its validity, coverage of a snapshot, the projection of a snapshot onto the
 * active instruments, and the freshness of its anchor.
 */
module LiveUniverse {
  import opened Basics
  import opened TextOrder
  import opened QuoteRows

  datatype UniverseItem = UniverseItem(market: Market, exchange: Exchange, code: Text)

  /** `generatedAt` is None when the text is not a timestamp. */
  datatype Universe = Universe(
    generatedAt: Option<int>, manifestHash: Text, active: seq<UniverseItem>, contentHash: Text)

  const MAX_ACTIVE := 200

  function ActiveKey(i: UniverseItem): Text { Key(i.market, i.code) }

  predicate IsDigits(t: Text) {
    forall i :: 0 <= i < |t| ==> 0x30 <= t[i] <= 0x39
  }

  predicate ValidUniverseItem(i: UniverseItem) {
    (i.market == HK <==> i.exchange == HKX) && 5 <= |i.code| <= 6 && IsDigits(i.code)
  }

  predicate DistinctActive(active: seq<UniverseItem>) {
    forall i, j :: 0 <= i < j < |active| ==> ActiveKey(active[i]) != ActiveKey(active[j])
  }

  predicate ValidActive(active: seq<UniverseItem>) {
    && |active| <= MAX_ACTIVE && DistinctActive(active)
    && forall i :: 0 <= i < |active| ==> ValidUniverseItem(active[i])
  }

  function ActiveKeys(active: seq<UniverseItem>): set<Text> { set i | 0 <= i < |active| :: ActiveKey(active[i]) }

  // ---------------------------------------------------------------------------------------
  // Coverage
  // ---------------------------------------------------------------------------------------

  datatype Coverage = Coverage(complete: bool, activeCount: nat, quotedCount: int, missing: seq<Text>)

  /** The keys of active instruments without a row, in their order. */
  function Missing(active: seq<UniverseItem>, quoted: set<Text>): seq<Text> {
    if active == [] then []
    else
      var rest, key := Missing(active[..|active| - 1], quoted), ActiveKey(active[|active| - 1]);
      if key in quoted then rest else rest + [key]
  }

  function GetCoverage(s: Snapshot, u: Universe): Coverage {
    var missing := Missing(u.active, KeySet(Items(s.stocks)));
    Coverage(missing == [], |u.active|, |u.active| - |missing|, missing)
  }

  lemma {:induction false} MissingMembers(active: seq<UniverseItem>, quoted: set<Text>)
    ensures forall k :: k in Missing(active, quoted) <==> k in ActiveKeys(active) && k !in quoted
    ensures |Missing(active, quoted)| <= |active|
  {
    if active != [] {
      var before, last := active[..|active| - 1], active[|active| - 1];
      MissingMembers(before, quoted);
      assert ActiveKeys(active) == ActiveKeys(before) + {ActiveKey(last)};
    }
  }

  /** Coverage is complete iff every active instrument has a row; the missing ones are listed exactly. */
  lemma {:induction false} CoverageIsExact(s: Snapshot, u: Universe)
    ensures var c := GetCoverage(s, u);
      && (c.complete <==> ActiveKeys(u.active) <= KeySet(Items(s.stocks)))
      && (forall k :: k in c.missing <==> k in ActiveKeys(u.active) && k !in KeySet(Items(s.stocks)))
      && 0 <= c.quotedCount <= c.activeCount
  {
    hide ActiveKeys, KeySet;
    var missing := Missing(u.active, KeySet(Items(s.stocks)));
    MissingMembers(u.active, KeySet(Items(s.stocks)));
    if missing != [] { assert missing[0] in missing; }
  }

  // ---------------------------------------------------------------------------------------
  // The projection
  // ---------------------------------------------------------------------------------------

  function AsMapping(r: Row): Row {
    r.(item := r.item.(isPosition := false, positionQty := Some(0.0), holding := MAPPING_ONLY))
  }

  function AsWatched(r: Row, held: bool): Row {
    r.(item := r.item.(holding := if held then ACTIVE else WATCHED, isPosition := held,
                       positionQty := if held then None else Some(0.0)))
  }

  function AsHeld(r: Row): Row { r.(item := r.item.(holding := ACTIVE, isPosition := true, positionQty := None)) }

  /** What becomes of one row: mapping and watch rows stay, the others only when held. */
  function Projection(r: Row, active: set<Text>): Option<Row> {
    var held := KeyOf(r.item) in active;
    if r.item.mappingOnly || r.item.bucket == MAPPING then Some(AsMapping(r))
    else if r.item.bucket == WATCH then Some(AsWatched(r, held))
    else if held then Some(AsHeld(r))
    else None
  }

  function ProjectRows(rows: seq<Row>, active: set<Text>): seq<Row> {
    if rows == [] then []
    else
      var rest, last := ProjectRows(rows[..|rows| - 1], active), Projection(rows[|rows| - 1], active);
      if last.Some? then rest + [last.value] else rest
  }

  const LIVE: Text := [0x6C, 0x69, 0x76, 0x65, 0x3A]

  function Projected(s: Snapshot, u: Universe): Snapshot {
    var rows := ProjectRows(s.stocks, ActiveKeys(u.active));
    var held, mapping := Count(rows, Held), Count(rows, InMapping);
    Snapshot(
      LIVE + u.contentHash, s.time, s.quality,
      s.summary.(total := |rows|, activeQuote := Some(held + mapping), activeHolding := Some(held),
                 watch := Some(Count(rows, InWatch)), exitedWatch := Some(0), mapping := Some(mapping),
                 core := Some(Count(rows, InCore)), growth := Some(Count(rows, InGrowth))),
      Items(rows), rows)
  }

  lemma {:induction false} ActiveNext(active: seq<UniverseItem>, n: nat)
    requires n < |active|
    ensures ActiveKeys(active[..n + 1]) == ActiveKeys(active[..n]) + {ActiveKey(active[n])}
  {
    var before, all := active[..n], active[..n + 1];
    forall k ensures k in ActiveKeys(all) <==> k in ActiveKeys(before) || k == ActiveKey(active[n]) {
      if k in ActiveKeys(before) {
        var i :| 0 <= i < |before| && ActiveKey(before[i]) == k;
        assert all[i] == before[i];
      }
      assert all[n] == active[n];
    }
  }

  /** The projection as it runs: rows are pushed one by one, then counted. */
  method ApplyLiveUniverse(s: Snapshot, u: Universe) returns (p: Snapshot)
    ensures p == Projected(s, u)
  {
    var active: set<Text> := {};
    for i := 0 to |u.active|
      invariant active == ActiveKeys(u.active[..i])
    {
      ActiveNext(u.active, i);
      active := active + {ActiveKey(u.active[i])};
    }
    assert u.active[..|u.active|] == u.active;
    var rows: seq<Row> := [];
    for i := 0 to |s.stocks|
      invariant rows == ProjectRows(s.stocks[..i], active)
    {
      assert s.stocks[..i + 1][..i] == s.stocks[..i];
      var original := s.stocks[i];
      var held := KeyOf(original.item) in active;
      if original.item.mappingOnly || original.item.bucket == MAPPING {
        rows := rows + [AsMapping(original)];
      } else if original.item.bucket == WATCH {
        rows := rows + [AsWatched(original, held)];
      } else if held {
        rows := rows + [AsHeld(original)];
      }
    }
    assert s.stocks[..|s.stocks|] == s.stocks;
    var counts := GetSnapshotCounts(rows);
    p := Snapshot(
      LIVE + u.contentHash, s.time, s.quality,
      s.summary.(total := |rows|, activeQuote := Some(counts.activeHolding + counts.mapping),
                 activeHolding := Some(counts.activeHolding), watch := Some(counts.watch), exitedWatch := Some(0),
                 mapping := Some(counts.mapping), core := Some(counts.core), growth := Some(counts.growth)),
      Items(rows), rows);
  }

  /** A held row that is not a mapping row needs all its numbers. */
  predicate NumbersReady(rows: seq<Row>, active: set<Text>) {
    forall i :: 0 <= i < |rows| && rows[i].item.bucket != MAPPING && KeyOf(rows[i].item) in active ==>
      Complete(rows[i].figures)
  }

  lemma {:induction false} RowProjection(r: Row, active: set<Text>)
    requires ValidRow(r) && Projection(r, active).Some?
    ensures var p := Projection(r, active).value;
      && KeyOf(p.item) == KeyOf(r.item) && p.item.bucket == r.item.bucket
      && ValidItem(p.item)
      && (p.item.isPosition <==> KeyOf(r.item) in active && r.item.bucket != MAPPING)
      && (ValidRow(p) <==> (KeyOf(r.item) in active && r.item.bucket != MAPPING ==> Complete(r.figures)))
  {
    hide Key, Complete;
  }

  /** The projected row differs from its catalog row in the three holding fields at most. */
  predicate IsImage(p: Row, r: Row) {
    && p.figures == r.figures && p.provenance == r.provenance
    && p.item == r.item.(holding := p.item.holding, isPosition := p.item.isPosition, positionQty := p.item.positionQty)
  }

  /** Mapping and watch rows always stay, core and growth rows exactly while they are active. */
  predicate Stays(r: Row, active: set<Text>) {
    r.item.bucket in {MAPPING, WATCH} || KeyOf(r.item) in active
  }

  /** How a row is shown: mapping rows as such, active ones as positions, the others as watched. */
  predicate ShownAs(p: Row, active: set<Text>) {
    if p.item.bucket == MAPPING then
      p.item.holding == MAPPING_ONLY && !p.item.isPosition && p.item.positionQty == Some(0.0)
    else if KeyOf(p.item) in active then
      p.item.holding == ACTIVE && p.item.isPosition && p.item.positionQty == None
    else
      p.item.bucket == WATCH && p.item.holding == WATCHED && !p.item.isPosition && p.item.positionQty == Some(0.0)
  }

  lemma {:induction false} ProjectionIsShown(r: Row, active: set<Text>)
    requires ValidRow(r) && Projection(r, active).Some?
    ensures ShownAs(Projection(r, active).value, active)
  {
    hide Key;
  }

  ghost predicate HasImage(rows: seq<Row>, r: Row) { exists j :: 0 <= j < |rows| && IsImage(rows[j], r) }

  ghost predicate HasOrigin(rows: seq<Row>, p: Row) { exists i :: 0 <= i < |rows| && IsImage(p, rows[i]) }

  lemma {:induction false} ImageKeepsKey(p: Row, r: Row)
    requires IsImage(p, r)
    ensures KeyOf(p.item) == KeyOf(r.item)
  {
  }

  lemma {:induction false} ProjectionIsImage(r: Row, active: set<Text>)
    requires ValidRow(r)
    ensures Projection(r, active).Some? <==> Stays(r, active)
    ensures Projection(r, active).Some? ==> IsImage(Projection(r, active).value, r)
  {
    hide KeyOf;
  }

  lemma {:induction false} ImagesNext(rows: seq<Row>, p: Row, r: Row)
    ensures HasImage(rows + [p], r) <==> HasImage(rows, r) || IsImage(p, r)
  {
    hide IsImage;
    var all := rows + [p];
    assert all[|rows|] == p;
    if HasImage(rows, r) {
      var j :| 0 <= j < |rows| && IsImage(rows[j], r);
      assert IsImage(all[j], r);
    }
  }

  lemma {:induction false} OriginsNext(rows: seq<Row>, r: Row, p: Row)
    ensures HasOrigin(rows + [r], p) <==> HasOrigin(rows, p) || IsImage(p, r)
  {
    hide IsImage;
    var all := rows + [r];
    assert all[|rows|] == r;
    if HasOrigin(rows, p) {
      var i :| 0 <= i < |rows| && IsImage(p, rows[i]);
      assert IsImage(p, all[i]);
    }
  }

  lemma {:induction false} OriginHasKey(rows: seq<Row>, p: Row)
    requires HasOrigin(rows, p)
    ensures HasKey(Items(rows), KeyOf(p.item))
  {
    hide KeyOf;
    var i :| 0 <= i < |rows| && IsImage(p, rows[i]);
    ImageKeepsKey(p, rows[i]);
    assert KeyOf(Items(rows)[i]) == KeyOf(p.item);
  }

  /** The projection invents no row, and keeps a catalog row exactly if it stays. */
  lemma {:induction false} ProjectionKeepsRows(rows: seq<Row>, active: set<Text>)
    requires AllValid(rows) && DistinctKeys(Items(rows))
    ensures var p := ProjectRows(rows, active);
      && (forall j :: 0 <= j < |p| ==> HasOrigin(rows, p[j]) && ShownAs(p[j], active))
      && (forall i :: 0 <= i < |rows| ==> (HasImage(p, rows[i]) <==> Stays(rows[i], active)))
  {
    hide ShownAs, ValidRow, KeyOf, HasKey, DistinctKeys, Projection, Items, IsImage, Stays, HasImage, HasOrigin;
    if rows != [] {
      var before, last := rows[..|rows| - 1], rows[|rows| - 1];
      assert rows == before + [last];
      ItemsSnoc(before, last);
      DistinctPrefix(Items(rows), |before|);
      assert Items(rows)[..|before|] == Items(before);
      DistinctNext(Items(before), last.item);
      ProjectionKeepsRows(before, active);
      var p, q := ProjectRows(before, active), ProjectRows(rows, active);
      ProjectionIsImage(last, active);
      if Projection(last, active).Some? { ProjectionIsShown(last, active); }
      forall j | 0 <= j < |q| ensures HasOrigin(rows, q[j]) {
        OriginsNext(before, last, q[j]);
      }
      forall i | 0 <= i < |rows| ensures HasImage(q, rows[i]) <==> Stays(rows[i], active) {
        if Projection(last, active).Some? {
          ImagesNext(p, Projection(last, active).value, rows[i]);
        }
        if i < |before| {
          OtherRowsDiffer(before, i, last, active);
        } else {
          NoEarlierImage(before, p, last);
        }
      }
    }
  }

  /** The image of the last row is not an image of an earlier one, whose key differs. */
  lemma {:induction false} OtherRowsDiffer(before: seq<Row>, i: nat, last: Row, active: set<Text>)
    requires i < |before| && !HasKey(Items(before), KeyOf(last.item)) && ValidRow(last)
    ensures Projection(last, active).Some? ==> !IsImage(Projection(last, active).value, before[i])
  {
    hide KeyOf, ValidRow, Projection, IsImage;
    assert KeyOf(Items(before)[i]) == KeyOf(before[i].item);
    ProjectionIsImage(last, active);
    if Projection(last, active).Some? {
      var p := Projection(last, active).value;
      ImageKeepsKey(p, last);
      if IsImage(p, before[i]) { ImageKeepsKey(p, before[i]); }
    }
  }

  lemma {:induction false} NoEarlierImage(before: seq<Row>, p: seq<Row>, last: Row)
    requires !HasKey(Items(before), KeyOf(last.item))
    requires forall j :: 0 <= j < |p| ==> HasOrigin(before, p[j])
    ensures !HasImage(p, last)
  {
    hide KeyOf, IsImage, HasOrigin, HasKey;
    forall j | 0 <= j < |p| ensures !IsImage(p[j], last) {
      OriginHasKey(before, p[j]);
      if IsImage(p[j], last) { ImageKeepsKey(p[j], last); }
    }
  }

  lemma {:induction false} DroppedRow(r: Row, active: set<Text>)
    requires Projection(r, active).None?
    ensures KeyOf(r.item) !in active
  {
  }

  predicate AllValid(rows: seq<Row>) { forall i :: 0 <= i < |rows| ==> ValidRow(rows[i]) }

  lemma {:induction false} ProjectedRows(rows: seq<Row>, active: set<Text>)
    requires AllValid(rows) && DistinctKeys(Items(rows))
    ensures var p := ProjectRows(rows, active);
      && (forall i :: 0 <= i < |p| ==> ValidItem(p[i].item) && HasKey(Items(rows), KeyOf(p[i].item)))
      && DistinctKeys(Items(p))
      && (AllValid(p) <==> NumbersReady(rows, active))
  {
    hide ValidRow, ValidItem, Complete, KeyOf, HasKey, DistinctKeys, Projection, Items;
    if rows == [] {
      assert DistinctKeys(Items([])) by { NothingDistinct(); }
    } else {
      var before, last := rows[..|rows| - 1], rows[|rows| - 1];
      assert rows == before + [last];
      ItemsSnoc(before, last);
      DistinctPrefix(Items(rows), |before|);
      assert Items(rows)[..|before|] == Items(before);
      DistinctNext(Items(before), last.item);
      ProjectedRows(before, active);
      forall k ensures HasKey(Items(rows), k) <==> HasKey(Items(before), k) || k == KeyOf(last.item) {
        HasKeyNext(Items(before), last.item, k);
      }
      ReadyNext(before, last, active);
      LastProjection(before, last, active);
    }
  }

  lemma {:induction false} NothingDistinct()
    ensures DistinctKeys(Items([]))
  {
  }

  lemma {:induction false} ReadyNext(before: seq<Row>, last: Row, active: set<Text>)
    ensures NumbersReady(before + [last], active) <==>
            NumbersReady(before, active)
            && (last.item.bucket != MAPPING && KeyOf(last.item) in active ==> Complete(last.figures))
  {
    hide KeyOf, Complete;
    var all := before + [last];
    assert all[|before|] == last;
    assert forall i :: 0 <= i < |before| ==> all[i] == before[i];
  }

  lemma {:induction false} AllValidNext(rows: seq<Row>, r: Row)
    ensures AllValid(rows + [r]) <==> AllValid(rows) && ValidRow(r)
  {
    hide ValidRow;
    var all := rows + [r];
    assert all[|rows|] == r;
    assert forall i :: 0 <= i < |rows| ==> all[i] == rows[i];
  }

  /** One more row keeps the keys distinct and is valid iff its numbers are ready. */
  lemma {:induction false} LastProjection(before: seq<Row>, last: Row, active: set<Text>)
    requires ValidRow(last) && !HasKey(Items(before), KeyOf(last.item))
    requires var p := ProjectRows(before, active);
      && (forall i :: 0 <= i < |p| ==> HasKey(Items(before), KeyOf(p[i].item)))
      && DistinctKeys(Items(p))
    ensures var p, q := ProjectRows(before, active), ProjectRows(before + [last], active);
      && DistinctKeys(Items(q))
      && (Projection(last, active).None? ==> q == p && (last.item.bucket == MAPPING || KeyOf(last.item) !in active))
      && (Projection(last, active).Some? ==>
            && q == p + [Projection(last, active).value]
            && KeyOf(q[|p|].item) == KeyOf(last.item) && ValidItem(q[|p|].item)
            && (AllValid(q) <==>
                  && AllValid(p)
                  && (last.item.bucket != MAPPING && KeyOf(last.item) in active ==> Complete(last.figures))))
  {
    hide ValidRow, ValidItem, Complete, KeyOf, DistinctKeys, Projection, HasKey;
    var p := ProjectRows(before, active);
    assert (before + [last])[..|before|] == before;
    match Projection(last, active)
    case None => DroppedRow(last, active);
    case Some(r) =>
      RowProjection(last, active);
      AllValidNext(p, r);
      ItemsSnoc(p, r);
      DistinctNext(Items(p), r.item);
      if HasKey(Items(p), KeyOf(r.item)) {
        var i := KeyHolder(p, KeyOf(r.item));
      }
  }

  lemma {:induction false} KeyHolder(rows: seq<Row>, k: Text) returns (i: nat)
    requires HasKey(Items(rows), k)
    ensures i < |rows| && KeyOf(rows[i].item) == k
  {
    i :| 0 <= i < |rows| && KeyOf(Items(rows)[i]) == k;
  }

  // ---------------------------------------------------------------------------------------
  // Positions and totals of the projection
  // ---------------------------------------------------------------------------------------

  function PositionKeys(rows: seq<Row>): set<Text> {
    set i | 0 <= i < |rows| && rows[i].item.isPosition :: KeyOf(rows[i].item)
  }

  function MappingKeys(rows: seq<Row>): set<Text> {
    set i | 0 <= i < |rows| && rows[i].item.bucket == MAPPING :: KeyOf(rows[i].item)
  }

  function OtherKeys(rows: seq<Row>): set<Text> {
    set i | 0 <= i < |rows| && rows[i].item.bucket != MAPPING :: KeyOf(rows[i].item)
  }

  lemma {:induction false} KeysNext(rows: seq<Row>, r: Row)
    ensures PositionKeys(rows + [r]) == PositionKeys(rows) + if r.item.isPosition then {KeyOf(r.item)} else {}
    ensures OtherKeys(rows + [r]) == OtherKeys(rows) + if r.item.bucket != MAPPING then {KeyOf(r.item)} else {}
  {
    hide KeyOf;
    var all := rows + [r];
    assert all[|rows|] == r;
    assert forall i :: 0 <= i < |rows| ==> all[i] == rows[i];
    forall k ensures k in PositionKeys(all) <==> k in PositionKeys(rows) || (r.item.isPosition && k == KeyOf(r.item)) {
      if k in PositionKeys(rows) {
        var i :| 0 <= i < |rows| && rows[i].item.isPosition && KeyOf(rows[i].item) == k;
        assert all[i].item.isPosition;
      }
    }
    forall k ensures k in OtherKeys(all) <==> k in OtherKeys(rows) || (r.item.bucket != MAPPING && k == KeyOf(r.item)) {
      if k in OtherKeys(rows) {
        var i :| 0 <= i < |rows| && rows[i].item.bucket != MAPPING && KeyOf(rows[i].item) == k;
        assert all[i].item.bucket != MAPPING;
      }
    }
  }

  /** The positions are exactly the active instruments that have a row which is not a mapping row. */
  lemma {:induction false} ProjectedPositions(rows: seq<Row>, active: set<Text>)
    requires AllValid(rows)
    ensures PositionKeys(ProjectRows(rows, active)) == active * OtherKeys(rows)
  {
    hide KeyOf, ValidRow, Projection, PositionKeys, OtherKeys;
    if rows == [] {
      assert PositionKeys([]) == {} && OtherKeys([]) == {} by { NoKeys(); }
    } else {
      var before, last := rows[..|rows| - 1], rows[|rows| - 1];
      assert rows == before + [last];
      ProjectedPositions(before, active);
      KeysNext(before, last);
      match Projection(last, active)
      case None => DroppedRow(last, active);
      case Some(r) =>
        RowProjection(last, active);
        KeysNext(ProjectRows(before, active), r);
    }
  }

  lemma {:induction false} NoKeys()
    ensures PositionKeys([]) == {} && OtherKeys([]) == {}
  {
  }

  /** With distinct keys the held rows are counted by their keys. */
  lemma {:induction false} HeldAreCounted(rows: seq<Row>)
    requires DistinctKeys(Items(rows))
    ensures Count(rows, Held) == |PositionKeys(rows)|
  {
    hide KeyOf, HasKey, DistinctKeys, PositionKeys;
    if rows == [] {
      NoKeys();
    } else {
      var before, last := rows[..|rows| - 1], rows[|rows| - 1];
      assert rows == before + [last];
      ItemsSnoc(before, last);
      DistinctPrefix(Items(rows), |before|);
      assert Items(rows)[..|before|] == Items(before);
      DistinctNext(Items(before), last.item);
      HeldAreCounted(before);
      KeysNext(before, last);
      if KeyOf(last.item) in PositionKeys(before) { PositionHasKey(before, KeyOf(last.item)); }
    }
  }

  lemma {:induction false} PositionHasKey(rows: seq<Row>, k: Text)
    requires k in PositionKeys(rows)
    ensures HasKey(Items(rows), k)
  {
    var i :| 0 <= i < |rows| && rows[i].item.isPosition && KeyOf(rows[i].item) == k;
    assert KeyOf(Items(rows)[i]) == k;
  }

  predicate ItemsAreAllValid(rows: seq<Row>) {
    forall i :: 0 <= i < |rows| ==> ValidItem(rows[i].item)
  }

  /** Quoted rows are the held ones and the mapping ones, without overlap. */
  lemma {:induction false} QuotedIsHeldOrMapping(rows: seq<Row>)
    requires ItemsAreAllValid(rows)
    ensures Count(rows, Quoted) == Count(rows, Held) + Count(rows, InMapping)
  {
    if rows != [] {
      QuotedIsHeldOrMapping(rows[..|rows| - 1]);
    }
  }

  /**
   * The projection of valid rows: its positions, its totals, and the exact condition under which
   * the snapshot validator accepts it.
   */
  lemma {:induction false} ProjectionIsExact(s: Snapshot, u: Universe)
    requires RowsValid(s.stocks) && s.time != "" && s.quality != ""
    ensures var p := Projected(s, u);
      && PositionKeys(p.stocks) == ActiveKeys(u.active) * OtherKeys(s.stocks)
      && TotalsAgree(p.summary, CountsOf(p.stocks)) && p.summary.total == |p.stocks|
      && p.summary.activeHolding == Some(|PositionKeys(p.stocks)|)
      && (ValidSnapshot(p) <==> NumbersReady(s.stocks, ActiveKeys(u.active)))
  {
    hide KeyOf, ValidRow, ValidItem, Complete, Projection, PositionKeys, OtherKeys, ActiveKeys, ProjectRows,
      Count, DistinctKeys,
      NumbersReady, ItemsAreAllValid;
    var active := ActiveKeys(u.active);
    var rows := ProjectRows(s.stocks, active);
    assert AllValid(s.stocks);
    ProjectedRows(s.stocks, active);
    ProjectedPositions(s.stocks, active);
    HeldAreCounted(rows);
    assert ItemsAreAllValid(rows) by { ValidItemsAreAllValid(rows); }
    QuotedIsHeldOrMapping(rows);
    ItemsAgree(rows);
  }

  lemma {:induction false} ValidItemsAreAllValid(rows: seq<Row>)
    requires forall i :: 0 <= i < |rows| ==> ValidItem(rows[i].item)
    ensures ItemsAreAllValid(rows)
  {
  }

  lemma {:induction false} ItemsAgree(rows: seq<Row>)
    requires DistinctKeys(Items(rows)) && forall i :: 0 <= i < |rows| ==> ValidItem(rows[i].item)
    ensures ListsAgree(Items(rows), rows)
  {
    hide ValidItem, DistinctKeys, Has, Items;
    var items := Items(rows);
    forall j | 0 <= j < |items| ensures ValidItem(items[j]) && Has(rows, items[j]) {
      HasRow(rows, j);
    }
  }

  lemma {:induction false} HasRow(rows: seq<Row>, j: nat)
    requires j < |rows|
    ensures Has(rows, rows[j].item)
  {
  }

  // ---------------------------------------------------------------------------------------
  // Freshness
  // ---------------------------------------------------------------------------------------

  const FUTURE_TOLERANCE_MS := 300_000
  const MAX_AGE_MS := 864_000_000

  /** A timestamp field of a status document; times are milliseconds. */
  datatype Stamp = Absent | Unparseable | At(ms: int)

  datatype Anchor = LRCCA | GENERATED_AT

  datatype Freshness = Freshness(anchor: Anchor, fallback: bool, inWindow: bool)

  /** The ten-day window stands on the last real confirmation, or on the generation time without one. */
  function ResolveFreshness(u: Universe, confirmed: Stamp, now: int): Freshness {
    var anchor := if confirmed.Absent? then GENERATED_AT else LRCCA;
    var parsed := match confirmed
      case Absent => u.generatedAt
      case Unparseable => None
      case At(ms) => Some(ms);
    Freshness(anchor, anchor == GENERATED_AT,
              parsed.Some? && -FUTURE_TOLERANCE_MS <= now - parsed.value <= MAX_AGE_MS)
  }
}
