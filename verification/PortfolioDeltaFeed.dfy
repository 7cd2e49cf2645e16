/**
 * The delta reducer behind the authenticated status push: each push is observed with the stored
 * universe, and the cross-check of the presented state is what lets the reducer trust the hash.
 */
module PortfolioDeltaFeed {
  import opened Basics
  import opened TextOrder
  import opened PortfolioStates
  import QuoteRows
  import opened LiveUniverse
  import opened PortfolioStatus
  import opened PortfolioDelta

  /** Market, exchange and code of an instrument, as they are hashed. */
  function RowText(i: UniverseItem): Text {
    QuoteRows.Prefix(i.market) + QuoteRows.ExchangeText(i.exchange) + [0x3A] + i.code
  }

  function RowTexts(active: seq<UniverseItem>): (texts: seq<Text>)
    ensures |texts| == |active| && forall i :: 0 <= i < |active| ==> texts[i] == RowText(active[i])
  {
    seq(|active|, i requires 0 <= i < |active| => RowText(active[i]))
  }

  /** The rows in canonical order, the input of the content hash. */
  function CanonicalRows(active: seq<UniverseItem>): seq<Text> { Sort(RowTexts(active)) }

  /** SHA-256 of the canonical rows, as an arbitrary function from rows to hashes. */
  type Digest = seq<Text> -> Text

  ghost predicate Injective(digest: Digest) {
    forall a, b :: digest(a) == digest(b) ==> a == b
  }

  /** A stored universe has passed its validator, which recomputes the content hash. */
  predicate ValidUniverse(u: Universe, digest: Digest) {
    ValidActive(u.active) && u.contentHash == digest(CanonicalRows(u.active))
  }

  /** One status push with what was stored and the clock of its derivation. */
  datatype Push = Push(universe: Option<Universe>, status: Status, now: int)

  predicate ValidPush(p: Push, digest: Digest) {
    && ValidStatus(p.status) && IsHash(p.status.contentHash)
    && (p.universe.Some? ==> ValidUniverse(p.universe.value, digest))
  }

  function Codes(universe: Option<Universe>): seq<Text> {
    match universe
    case None => []
    case Some(u) => seq(|u.active|, i requires 0 <= i < |u.active| => ActiveKey(u.active[i]))
  }

  function Observe(p: Push): Observation {
    var state := if p.universe.None? then PORTFOLIO_UNKNOWN
      else ResolvePresentation(p.universe, Some(p.status), p.now).state;
    Observation(state, p.status.contentHash, Codes(p.universe), p.status.generatedAt)
  }

  function ObserveAll(pushes: seq<Push>): (r: seq<Observation>)
    ensures |r| == |pushes| && forall i :: 0 <= i < |pushes| ==> r[i] == Observe(pushes[i])
  {
    seq(|pushes|, i requires 0 <= i < |pushes| => Observe(pushes[i]))
  }

  /** Only a universe whose hash is the pushed one is ever observed as complete. */
  lemma {:induction false} CompleteMeansSameHash(p: Push)
    requires ValidStatus(p.status) && Observe(p).state == LIVE_COMPLETE
    ensures p.universe.Some? && p.universe.value.contentHash == p.status.contentHash
  {
    StateIsExact(p.universe, Some(p.status), p.now);
  }

  /**
   * What is observed: complete exactly on a complete status, at most a day old, that carries both
   * hashes of the stored universe; its hash and time are those of the status, its codes the
   * instruments of the universe.
   */
  lemma {:induction false} ObservedAs(p: Push)
    requires ValidStatus(p.status)
    ensures var o := Observe(p);
      && (o.state == LIVE_COMPLETE <==>
            && p.universe.Some? && p.status.state == LIVE_COMPLETE
            && p.universe.value.contentHash == p.status.contentHash
            && p.universe.value.manifestHash == p.status.manifestHash
            && -300_000 <= p.now - p.status.confirmedAt.ms <= 86_400_000)
      && (o.state == PORTFOLIO_UNKNOWN <==>
            || p.universe.None? || p.status.state == PORTFOLIO_UNKNOWN
            || !(-300_000 <= p.now - p.status.confirmedAt.ms <= 864_000_000))
      && o.hash == p.status.contentHash && o.at == p.status.generatedAt
      && (p.universe.None? ==> o.codes == [])
      && (p.universe.Some? ==>
            && |o.codes| == |p.universe.value.active|
            && forall i :: 0 <= i < |o.codes| ==> o.codes[i] == ActiveKey(p.universe.value.active[i]))
  {
    StateIsExact(p.universe, Some(p.status), p.now);
  }

  lemma {:induction false} KeyIsCode(i: UniverseItem)
    requires ValidUniverseItem(i)
    ensures IsCode(ActiveKey(i))
  {
    var k := ActiveKey(i);
    assert k[..3] == QuoteRows.Prefix(i.market);
    assert forall j :: 3 <= j < |k| ==> k[j] == i.code[j - 3];
  }

  /** What the universe validator accepts: at most two hundred items with distinct well-formed codes. */
  lemma {:induction false} ActiveIsValidIff(active: seq<UniverseItem>)
    ensures ValidActive(active) <==>
            && |active| <= 200
            && (forall i :: 0 <= i < |active| ==> IsCode(ActiveKey(active[i])) && OnItsMarket(active[i]))
            && (forall i, j :: 0 <= i < j < |active| ==> ActiveKey(active[i]) != ActiveKey(active[j]))
  {
    hide IsCode, ActiveKey, ValidUniverseItem, OnItsMarket;
    forall i | 0 <= i < |active|
      ensures ValidUniverseItem(active[i]) <==> IsCode(ActiveKey(active[i])) && OnItsMarket(active[i])
    {
      ItemIsValidIff(active[i]);
    }
  }

  predicate OnItsMarket(i: UniverseItem) { i.exchange == QuoteRows.HKX <==> i.market == QuoteRows.HK }

  lemma {:induction false} ItemIsValidIff(i: UniverseItem)
    ensures ValidUniverseItem(i) <==> IsCode(ActiveKey(i)) && OnItsMarket(i)
  {
    var k := ActiveKey(i);
    assert k[..3] == QuoteRows.Prefix(i.market) && |k| == |i.code| + 3;
    assert forall j :: 3 <= j < |k| ==> k[j] == i.code[j - 3];
    assert forall j :: 0 <= j < |i.code| ==> i.code[j] == k[j + 3];
  }

  /** No valid push is refused by the reducer's own validation. */
  lemma {:induction false} ObservationsAreValid(p: Push, digest: Digest)
    requires ValidPush(p, digest)
    ensures ValidateObservation(Observe(p)).Ok?
  {
    hide IsCode, IsHash, ActiveKey, ResolvePresentation, ValidUniverseItem;
    if p.universe.Some? {
      var active, codes := p.universe.value.active, Codes(p.universe);
      forall i | 0 <= i < |codes| ensures IsCode(codes[i]) {
        KeyIsCode(active[i]);
      }
      assert forall i, j :: 0 <= i < j < |codes| ==>
        codes[i] == ActiveKey(active[i]) && codes[j] == ActiveKey(active[j]);
    }
  }

  lemma {:induction false} RowTextIsInjective(i: UniverseItem, j: UniverseItem)
    requires RowText(i) == RowText(j)
    ensures i == j
  {
    var a, b := RowText(i), RowText(j);
    assert a[0] == QuoteRows.Prefix(i.market)[0] && b[0] == QuoteRows.Prefix(j.market)[0];
    assert a[3] == QuoteRows.ExchangeText(i.exchange)[0] && a[4] == QuoteRows.ExchangeText(i.exchange)[1];
    assert b[3] == QuoteRows.ExchangeText(j.exchange)[0] && b[4] == QuoteRows.ExchangeText(j.exchange)[1];
    assert a[6..] == i.code && b[6..] == j.code;
  }

  /** Equal content hashes stand for the same instruments. */
  lemma {:induction false} SameHashSameActive(u: Universe, v: Universe, digest: Digest)
    requires Injective(digest) && ValidUniverse(u, digest) && ValidUniverse(v, digest) && u.contentHash == v.contentHash
    ensures forall i :: i in u.active ==> i in v.active
  {
    hide RowText, ValidActive;
    assert CanonicalRows(u.active) == CanonicalRows(v.active);
    forall i | i in u.active ensures i in v.active {
      var k :| 0 <= k < |u.active| && u.active[k] == i;
      assert RowTexts(u.active)[k] in RowTexts(u.active);
      assert RowText(i) in CanonicalRows(v.active);
      var l :| 0 <= l < |v.active| && RowTexts(v.active)[l] == RowText(i);
      RowTextIsInjective(i, v.active[l]);
    }
  }

  lemma {:induction false} CodesOf(u: Universe, t: Text)
    ensures t in Members(Codes(Some(u))) <==> exists i :: i in u.active && ActiveKey(i) == t
  {
    hide ActiveKey;
    var codes := Codes(Some(u));
    if t in Members(codes) {
      var k :| 0 <= k < |codes| && codes[k] == t;
      assert u.active[k] in u.active;
    }
    if i :| i in u.active && ActiveKey(i) == t {
      var k :| 0 <= k < |u.active| && u.active[k] == i;
      assert codes[k] == t;
    }
  }

  lemma {:induction false} SameHashSameCodesOfPushes(p: Push, q: Push, digest: Digest)
    requires Injective(digest) && ValidPush(p, digest) && ValidPush(q, digest)
    ensures SameHashSameCodes(Observe(p), Observe(q))
  {
    hide ActiveKey, ResolvePresentation, IsHash, ValidActive, Members, Codes;
    if Observe(p).state == LIVE_COMPLETE && Observe(q).state == LIVE_COMPLETE && Observe(p).hash == Observe(q).hash {
      CompleteMeansSameHash(p);
      CompleteMeansSameHash(q);
      var u, v := p.universe.value, q.universe.value;
      SameHashSameActive(u, v, digest);
      SameHashSameActive(v, u, digest);
      forall t ensures t in Members(Codes(p.universe)) <==> t in Members(Codes(q.universe)) {
        CodesOf(u, t);
        CodesOf(v, t);
      }
      assert Members(Codes(p.universe)) == Members(Codes(q.universe));
    }
  }

  /**
   * Composition: over any sequence of valid pushes, whatever is stored and whatever the clocks,
   * no push is refused, and the deltas since the last rebase replay to exactly the stored codes.
   */
  lemma {:induction false} LiveChainReplays(pushes: seq<Push>, digest: Digest)
    requires Injective(digest) && forall i :: 0 <= i < |pushes| ==> ValidPush(pushes[i], digest)
    ensures var observations := ObserveAll(pushes);
      && (forall i :: 0 <= i < |observations| ==> ValidateObservation(observations[i]).Ok?)
      && Replays(Fold(observations)) && Links(Fold(observations))
  {
    hide Observe, ValidPush, SameHashSameCodes, Replays, Links, Fold, ValidateObservation, Injective;
    var observations := ObserveAll(pushes);
    forall i | 0 <= i < |observations| ensures ValidateObservation(observations[i]).Ok? {
      ObservationsAreValid(pushes[i], digest);
    }
    forall i, j | 0 <= i < |observations| && 0 <= j < |observations|
      ensures SameHashSameCodes(observations[i], observations[j])
    {
      SameHashSameCodesOfPushes(pushes[i], pushes[j], digest);
    }
    ChainReplays(observations);
  }
}
