/**
 * Dynamic quotes for active instruments without a catalog row: identities are checked, all
 * quotes are fetched or none is used, and complete batches are merged into the snapshot.
 *
 * The provider is an arbitrary function of the identity; a blank text is the empty one.
 */
module DynamicQuotes {
  import opened Basics
  import opened TextOrder
  import opened QuoteRows
  import opened LiveUniverse

  datatype ErrorCode =
    | INVALID_IDENTITY | UNSUPPORTED_EXCHANGE | PROVIDER_UNAVAILABLE | INVALID_PROVIDER_QUOTE | PARTIAL_PROVIDER_FAILURE

  datatype Failure = Failure(identity: Option<UniverseItem>, code: ErrorCode)

  datatype FetchError = FetchError(code: ErrorCode, failures: seq<Failure>)

  // ---------------------------------------------------------------------------------------
  // Identities and quotes
  // ---------------------------------------------------------------------------------------

  /** CN codes have six digits, HK codes five; BJ is not supported. */
  function CanonicalizeIdentity(i: UniverseItem): Result<UniverseItem, ErrorCode> {
    if i.exchange == BJ then Err(UNSUPPORTED_EXCHANGE)
    else if (i.market == HK) != (i.exchange == HKX) then Err(INVALID_IDENTITY)
    else if |i.code| != (if i.market == CN then 6 else 5) || !IsDigits(i.code) then Err(INVALID_IDENTITY)
    else Ok(i)
  }

  datatype StatusField = NoStatus | Given(status: MarketStatus) | BadStatus

  /** A provider's quote: the first seven numbers are required, the next five are not. */
  datatype Quote = Quote(
    price: Option<real>, preClose: Option<real>, open: Option<real>, high: Option<real>, low: Option<real>,
    volume: Option<real>, amount: Option<real>,
    prevClose: Option<real>, change: Option<real>, changePct: Option<real>, pctChange: Option<real>,
    ageSeconds: Option<real>, derivedAge: real,
    name: Text, marketStatus: StatusField,
    marketDataTime: string, fetchTime: string, sourceUpdateTime: string, quoteTime: string)

  datatype Outcome = Rejected(code: ErrorCode) | NoQuote | NotAnObject | Answered(quote: Quote)

  function Or<T>(o: Option<T>, fallback: T): T { if o.Some? then o.value else fallback }

  function OrText(s: string, fallback: string): string { if s != "" then s else fallback }

  predicate HasRequired(q: Quote) {
    && q.price.Some? && q.preClose.Some? && q.open.Some? && q.high.Some? && q.low.Some?
    && q.volume.Some? && q.amount.Some?
  }

  function FiguresOf(q: Quote): Figures
    requires HasRequired(q)
  {
    var change := Or(q.change, q.price.value - q.preClose.value);
    var changePct := Or(q.changePct, if q.preClose.value == 0.0 then 0.0 else change / q.preClose.value * 100.0);
    Figures(q.price, Some(change), Some(changePct), q.preClose, Some(Or(q.prevClose, q.preClose.value)), q.open,
            q.high, q.low, Some(Or(q.pctChange, changePct)), q.volume, q.amount, Some(Or(q.ageSeconds, q.derivedAge)))
  }

  /** A newly observed holding: a watch row that is an active position. */
  function WatchItem(i: UniverseItem, name: Text): Item {
    Item(i.code, i.market, i.exchange, if name != [] then name else ExchangeText(i.exchange) + i.code,
         Watch, WATCH, Some(AsWatch), ACTIVE, false, None, None, None, true)
  }

  function NormalizeQuote(i: UniverseItem, outcome: Outcome, now: string): Result<Row, ErrorCode> {
    match outcome
    case Rejected(code) => Err(code)
    case NoQuote => Err(PROVIDER_UNAVAILABLE)
    case NotAnObject => Err(INVALID_PROVIDER_QUOTE)
    case Answered(q) =>
      if !HasRequired(q) || q.marketDataTime == "" || q.marketStatus.BadStatus? then Err(INVALID_PROVIDER_QUOTE)
      else
        var status := if q.marketStatus.NoStatus? then CLOSED else q.marketStatus.status;
        Ok(Row(WatchItem(i, q.name), FiguresOf(q),
               Provenance(status, "MARKET_DATA", "OK", "LIVE_QUOTE", OrText(q.fetchTime, now),
                          Some(q.marketDataTime), Some(OrText(q.quoteTime, q.marketDataTime)),
                          Some(OrText(q.sourceUpdateTime, q.marketDataTime)), Some("tencent"), None)))
  }

  /** A normalized quote of a canonical identity is a valid row of that instrument, without nulls. */
  lemma {:induction false} NormalizedRowIsValid(i: UniverseItem, outcome: Outcome, now: string)
    requires CanonicalizeIdentity(i).Ok? && NormalizeQuote(i, outcome, now).Ok? && now != ""
    ensures var r := NormalizeQuote(i, outcome, now).value;
      ValidRow(r) && Complete(r.figures) && r.item.bucket == WATCH
      && KeyOf(r.item) == ActiveKey(i) && r.item.exchange == i.exchange
  {
    hide Key;
  }

  /** A supplied number is kept; a missing change and percentage satisfy what they mean. */
  predicate FiguresMean(q: Quote, f: Figures)
    requires HasRequired(q) && Complete(f)
  {
    && f.price == q.price && f.preClose == q.preClose && f.open == q.open && f.high == q.high && f.low == q.low
    && f.volume == q.volume && f.amount == q.amount
    && (if q.change.Some? then f.change == q.change else f.preClose.value + f.change.value == f.price.value)
    && (if q.changePct.Some? then f.changePct == q.changePct
        else if q.preClose == Some(0.0) then f.changePct == Some(0.0)
        else f.changePct.value * f.preClose.value == f.change.value * 100.0)
    && (if q.pctChange.Some? then f.pctChange == q.pctChange else f.pctChange == f.changePct)
    && (if q.prevClose.Some? then f.prevClose == q.prevClose else f.prevClose == f.preClose)
  }

  lemma {:induction false} Percentage(change: real, base: real)
    requires base != 0.0
    ensures change / base * 100.0 * base == change * 100.0
  {
    assert change / base * base == change;
  }

  /** Every number of a normalized quote is the provider's, or follows from the provider's. */
  lemma {:induction false} NormalizedFiguresMean(i: UniverseItem, outcome: Outcome, now: string)
    requires NormalizeQuote(i, outcome, now).Ok?
    ensures outcome.Answered? && HasRequired(outcome.quote)
    ensures var r := NormalizeQuote(i, outcome, now).value;
      && Complete(r.figures) && FiguresMean(outcome.quote, r.figures)
      && r.provenance.marketDataTime == Some(outcome.quote.marketDataTime)
      && (outcome.quote.name != [] ==> r.item.name == outcome.quote.name)
  {
    var q := outcome.quote;
    if q.preClose.value != 0.0 {
      Percentage(Or(q.change, q.price.value - q.preClose.value), q.preClose.value);
    }
  }

  /** The identities that can be quoted: two mainland exchanges with six digits, Hong Kong with five. */
  lemma {:induction false} CanonicalIff(i: UniverseItem)
    ensures CanonicalizeIdentity(i).Ok? <==>
      && (forall k :: 0 <= k < |i.code| ==> 0x30 <= i.code[k] <= 0x39)
      && (|| (i.market == CN && i.exchange in {SH, SZ} && |i.code| == 6)
          || (i.market == HK && i.exchange == HKX && |i.code| == 5))
    ensures CanonicalizeIdentity(i).Err? ==>
      CanonicalizeIdentity(i).error == if i.exchange == BJ then UNSUPPORTED_EXCHANGE else INVALID_IDENTITY
  {
  }

  /** Of the valid active instruments those of BJ and those with a code of the other length cannot be quoted. */
  lemma {:induction false} ValidIsCanonicalIff(i: UniverseItem)
    requires ValidUniverseItem(i)
    ensures CanonicalizeIdentity(i).Ok? <==> i.exchange != BJ && (|i.code| == 6 <==> i.market == CN)
  {
  }

  predicate IsUsable(o: Outcome) {
    && o.Answered? && o.quote.marketDataTime != "" && !o.quote.marketStatus.BadStatus?
    && o.quote.price.Some? && o.quote.preClose.Some? && o.quote.open.Some? && o.quote.high.Some?
    && o.quote.low.Some? && o.quote.volume.Some? && o.quote.amount.Some?
  }

  /** Texts and status of a row are the provider's where given; a quote without status counts as closed. */
  predicate TextsMean(i: UniverseItem, q: Quote, now: string, r: Row) {
    var p := r.provenance;
    && (if q.marketStatus.Given? then p.marketStatus == q.marketStatus.status else p.marketStatus == CLOSED)
    && p.marketDataTime == Some(q.marketDataTime)
    && p.fetchTime == (if q.fetchTime == "" then now else q.fetchTime)
    && p.quoteTime == Some(if q.quoteTime == "" then q.marketDataTime else q.quoteTime)
    && p.sourceUpdateTime == Some(if q.sourceUpdateTime == "" then q.marketDataTime else q.sourceUpdateTime)
    && p.primarySource == Some("tencent") && p.secondarySource == None
    && p.freshnessBasis == "MARKET_DATA" && p.sourceStatus == "OK" && p.quality == "LIVE_QUOTE"
    && r.item.code == i.code && r.item.market == i.market && r.item.exchange == i.exchange
    && r.item.name == (if q.name == [] then ExchangeText(i.exchange) + i.code else q.name)
    && r.item.group == Watch && r.item.bucket == WATCH && r.item.research == Some(AsWatch)
    && r.item.holding == ACTIVE && !r.item.mappingOnly && r.item.mappedTo == None && r.item.mappingTo == None
    && r.item.positionQty == None && r.item.isPosition
    && r.figures.ageSeconds == Some(if q.ageSeconds.Some? then q.ageSeconds.value else q.derivedAge)
  }

  /** Exactly which outcomes give a row, what the row says, and with which code the others are refused. */
  lemma {:induction false} NormalizesIff(i: UniverseItem, outcome: Outcome, now: string)
    ensures var r := NormalizeQuote(i, outcome, now);
      && (r.Ok? <==> IsUsable(outcome))
      && (r.Ok? ==> TextsMean(i, outcome.quote, now, r.value))
      && (outcome.Rejected? ==> r == Err(outcome.code))
      && (outcome.NoQuote? ==> r == Err(PROVIDER_UNAVAILABLE))
      && (r.Err? && !outcome.Rejected? && !outcome.NoQuote? ==> r == Err(INVALID_PROVIDER_QUOTE))
  {
  }

  // ---------------------------------------------------------------------------------------
  // Fetch: all or nothing
  // ---------------------------------------------------------------------------------------

  datatype Batch = Batch(identities: seq<UniverseItem>, rows: seq<Row>)

  /** The identities accepted so far and the failures so far. */
  function ResolveIdentities(inputs: seq<UniverseItem>): (seq<UniverseItem>, seq<Failure>) {
    if inputs == [] then ([], [])
    else
      var (identities, failures) := ResolveIdentities(inputs[..|inputs| - 1]);
      match CanonicalizeIdentity(inputs[|inputs| - 1])
      case Err(code) => (identities, failures + [Failure(None, code)])
      case Ok(i) =>
        if ActiveKey(i) in ActiveKeys(identities) then (identities, failures + [Failure(Some(i), INVALID_IDENTITY)])
        else (identities + [i], failures)
  }

  function SettleRows(identities: seq<UniverseItem>, provider: UniverseItem -> Outcome,
          now: string): (seq<Row>, seq<Failure>) {
    if identities == [] then ([], [])
    else
      var i := identities[|identities| - 1];
      var (rows, failures) := SettleRows(identities[..|identities| - 1], provider, now);
      match NormalizeQuote(i, provider(i), now)
      case Ok(row) => (rows + [row], failures)
      case Err(code) => (rows, failures + [Failure(Some(i), code)])
  }

  function Unavailable(identities: seq<UniverseItem>): seq<Failure> {
    seq(|identities|, i requires 0 <= i < |identities| => Failure(Some(identities[i]), PROVIDER_UNAVAILABLE))
  }

  function BatchErrorCode(failures: seq<Failure>, total: nat): ErrorCode {
    if |failures| < total then PARTIAL_PROVIDER_FAILURE
    else if forall i :: 0 <= i < |failures| ==> failures[i].code == PROVIDER_UNAVAILABLE then PROVIDER_UNAVAILABLE
    else failures[0].code
  }

  function Fetch(inputs: seq<UniverseItem>, available: bool, provider: UniverseItem -> Outcome, now: string)
    : Result<Batch, FetchError>
  {
    var (identities, refused) := ResolveIdentities(inputs);
    if refused != [] then Err(FetchError(INVALID_IDENTITY, refused))
    else if identities == [] then Ok(Batch([], []))
    else if !available then Err(FetchError(PROVIDER_UNAVAILABLE, Unavailable(identities)))
    else
      var (rows, failures) := SettleRows(identities, provider, now);
      if failures != [] then Err(FetchError(BatchErrorCode(failures, |identities|), failures))
      else Ok(Batch(identities, rows))
  }

  method FetchDynamicQuoteRows(inputs: seq<UniverseItem>, available: bool, provider: UniverseItem -> Outcome,
          now: string)
    returns (answer: Result<Batch, FetchError>)
    ensures answer == Fetch(inputs, available, provider, now)
  {
    var identities: seq<UniverseItem>, refused: seq<Failure>, seen: set<Text> := [], [], {};
    for i := 0 to |inputs|
      invariant (identities, refused) == ResolveIdentities(inputs[..i])
      invariant seen == ActiveKeys(identities)
    {
      assert inputs[..i + 1][..i] == inputs[..i];
      match CanonicalizeIdentity(inputs[i])
      case Err(code) => refused := refused + [Failure(None, code)];
      case Ok(identity) =>
        var key := ActiveKey(identity);
        if key in seen {
          refused := refused + [Failure(Some(identity), INVALID_IDENTITY)];
        } else {
          assert (identities + [identity])[..|identities|] == identities;
          ActiveNext(identities + [identity], |identities|);
          assert (identities + [identity])[..|identities| + 1] == identities + [identity];
          seen := seen + {key};
          identities := identities + [identity];
        }
    }
    assert inputs[..|inputs|] == inputs;
    if refused != [] { return Err(FetchError(INVALID_IDENTITY, refused)); }
    if identities == [] { return Ok(Batch([], [])); }
    if !available { return Err(FetchError(PROVIDER_UNAVAILABLE, Unavailable(identities))); }
    var rows: seq<Row>, failures: seq<Failure> := [], [];
    for i := 0 to |identities|
      invariant (rows, failures) == SettleRows(identities[..i], provider, now)
    {
      assert identities[..i + 1][..i] == identities[..i];
      match NormalizeQuote(identities[i], provider(identities[i]), now)
      case Ok(row) => rows := rows + [row];
      case Err(code) => failures := failures + [Failure(Some(identities[i]), code)];
    }
    assert identities[..|identities|] == identities;
    if failures != [] { return Err(FetchError(BatchErrorCode(failures, |identities|), failures)); }
    answer := Ok(Batch(identities, rows));
  }

  predicate AllCanonical(inputs: seq<UniverseItem>) {
    forall i :: 0 <= i < |inputs| ==> CanonicalizeIdentity(inputs[i]).Ok?
  }

  predicate AllQuoted(inputs: seq<UniverseItem>, provider: UniverseItem -> Outcome, now: string) {
    forall i :: 0 <= i < |inputs| ==> NormalizeQuote(inputs[i], provider(inputs[i]), now).Ok?
  }

  lemma {:induction false} DistinctActiveNext(active: seq<UniverseItem>, i: UniverseItem)
    requires DistinctActive(active)
    ensures DistinctActive(active + [i]) <==> ActiveKey(i) !in ActiveKeys(active)
  {
    hide ActiveKey;
    var all := active + [i];
    if ActiveKey(i) in ActiveKeys(active) {
      var j :| 0 <= j < |active| && ActiveKey(active[j]) == ActiveKey(i);
      assert ActiveKey(all[j]) == ActiveKey(all[|active|]);
    } else {
      assert forall j :: 0 <= j < |active| ==> ActiveKey(active[j]) in ActiveKeys(active);
    }
  }

  lemma {:induction false} IdentitiesResolve(inputs: seq<UniverseItem>)
    ensures var (identities, failures) := ResolveIdentities(inputs);
      && (failures == [] <==> AllCanonical(inputs) && DistinctActive(inputs))
      && (failures == [] ==> identities == inputs)
  {
    hide CanonicalizeIdentity, DistinctActive, ActiveKeys, ActiveKey;
    if inputs == [] {
      assert DistinctActive([]) by { NoneActive(); }
    } else {
      var before, last := inputs[..|inputs| - 1], inputs[|inputs| - 1];
      assert inputs == before + [last];
      IdentitiesResolve(before);
      CanonicalIsSame(last);
      if DistinctActive(inputs) { PrefixDistinct(inputs, |before|); }
      if DistinctActive(before) { DistinctActiveNext(before, last); }
      assert AllCanonical(inputs) <==> AllCanonical(before) && CanonicalizeIdentity(last).Ok?;
    }
  }

  lemma {:induction false} NoneActive()
    ensures DistinctActive([])
  {
  }

  lemma {:induction false} PrefixDistinct(active: seq<UniverseItem>, n: nat)
    requires DistinctActive(active) && n <= |active|
    ensures DistinctActive(active[..n])
  {
  }

  lemma {:induction false} CanonicalIsSame(i: UniverseItem)
    ensures CanonicalizeIdentity(i).Ok? ==> CanonicalizeIdentity(i).value == i
  {
  }

  lemma {:induction false} RowsSettle(identities: seq<UniverseItem>, provider: UniverseItem -> Outcome, now: string)
    ensures var (rows, failures) := SettleRows(identities, provider, now);
      && |rows| + |failures| == |identities|
      && (failures == [] <==> AllQuoted(identities, provider, now))
      && (failures == [] ==> forall i :: 0 <= i < |rows| ==>
            NormalizeQuote(identities[i], provider(identities[i]), now) == Ok(rows[i]))
  {
    hide NormalizeQuote;
    if identities != [] {
      var before := identities[..|identities| - 1];
      RowsSettle(before, provider, now);
      assert AllQuoted(identities, provider, now) ==> AllQuoted(before, provider, now);
    }
  }

  /**
   * Fetching is all or nothing: it succeeds iff every identity is canonical and distinct and
   * every quote normalizes, and then each row is the quote of its identity.
   */
  lemma {:induction false} FetchIsAllOrNothing(inputs: seq<UniverseItem>, available: bool,
          provider: UniverseItem -> Outcome, now: string)
    ensures var f := Fetch(inputs, available, provider, now);
      && (f.Ok? <==> AllCanonical(inputs) && DistinctActive(inputs)
                     && (inputs == [] || (available && AllQuoted(inputs, provider, now))))
      && (f.Ok? ==>
            && f.value.identities == inputs && |f.value.rows| == |inputs|
            && forall i :: 0 <= i < |inputs| ==>
                 NormalizeQuote(inputs[i], provider(inputs[i]), now) == Ok(f.value.rows[i]))
  {
    hide NormalizeQuote, DistinctActive, AllCanonical, AllQuoted;
    IdentitiesResolve(inputs);
    RowsSettle(inputs, provider, now);
  }

  /** A refused batch is called partial iff the provider answered some of its instruments. */
  lemma {:induction false} PartialMeansSomeAnswered(inputs: seq<UniverseItem>,
          provider: UniverseItem -> Outcome, now: string)
    requires AllCanonical(inputs) && DistinctActive(inputs) && !AllQuoted(inputs, provider, now)
    requires forall i :: provider(i).Rejected? ==> provider(i).code != PARTIAL_PROVIDER_FAILURE
    ensures var f := Fetch(inputs, true, provider, now);
      && f.Err?
      && (f.error.code == PARTIAL_PROVIDER_FAILURE <==> |f.error.failures| < |inputs|)
      && (|f.error.failures| < |inputs| <==> SomeQuoted(inputs, provider, now))
  {
    hide NormalizeQuote, DistinctActive, AllCanonical, AllQuoted;
    IdentitiesResolve(inputs);
    RowsSettle(inputs, provider, now);
    SettledFailures(inputs, provider, now);
    NothingIsQuoted(provider, now);
  }

  predicate Quotes(i: UniverseItem, provider: UniverseItem -> Outcome, now: string) {
    NormalizeQuote(i, provider(i), now).Ok?
  }

  predicate SomeQuoted(identities: seq<UniverseItem>, provider: UniverseItem -> Outcome, now: string) {
    exists i :: 0 <= i < |identities| && Quotes(identities[i], provider, now)
  }

  lemma {:induction false} SomeQuotedNext(before: seq<UniverseItem>, last: UniverseItem,
          provider: UniverseItem -> Outcome, now: string)
    ensures SomeQuoted(before + [last], provider, now) <==>
            SomeQuoted(before, provider, now) || NormalizeQuote(last, provider(last), now).Ok?
  {
    var all := before + [last];
    assert Quotes(all[|before|], provider, now) <==> NormalizeQuote(last, provider(last), now).Ok?;
    assert forall i :: 0 <= i < |before| ==> all[i] == before[i];
    if SomeQuoted(before, provider, now) {
      var i :| 0 <= i < |before| && Quotes(before[i], provider, now);
      assert Quotes(all[i], provider, now);
    }
  }

  lemma {:induction false} NothingIsQuoted(provider: UniverseItem -> Outcome, now: string)
    ensures AllQuoted([], provider, now)
  {
  }

  lemma {:induction false} SettledFailures(identities: seq<UniverseItem>, provider: UniverseItem -> Outcome,
          now: string)
    requires forall i :: provider(i).Rejected? ==> provider(i).code != PARTIAL_PROVIDER_FAILURE
    ensures var failures := SettleRows(identities, provider, now).1;
      && (forall k :: 0 <= k < |failures| ==> failures[k].code != PARTIAL_PROVIDER_FAILURE)
      && (|failures| < |identities| <==> SomeQuoted(identities, provider, now))
  {
    if identities != [] {
      var n := |identities| - 1;
      SettledFailures(identities[..n], provider, now);
      RowsSettle(identities[..n], provider, now);
      NormalizeIsNeverPartial(identities[n], provider(identities[n]), now);
      assert identities == identities[..n] + [identities[n]];
      SomeQuotedNext(identities[..n], identities[n], provider, now);
    }
  }

  lemma {:induction false} NormalizeIsNeverPartial(i: UniverseItem, outcome: Outcome, now: string)
    requires outcome.Rejected? ==> outcome.code != PARTIAL_PROVIDER_FAILURE
    ensures NormalizeQuote(i, outcome, now).Err? ==> NormalizeQuote(i, outcome, now).error != PARTIAL_PROVIDER_FAILURE
  {
  }

  predicate IsFailureOf(identities: seq<UniverseItem>, provider: UniverseItem -> Outcome, now: string, f: Failure) {
    exists i :: 0 <= i < |identities| && FailsWith(identities[i], provider, now, f)
  }

  predicate FailsWith(i: UniverseItem, provider: UniverseItem -> Outcome, now: string, f: Failure) {
    NormalizeQuote(i, provider(i), now).Err? && f == Failure(Some(i), NormalizeQuote(i, provider(i), now).error)
  }

  lemma {:induction false} FailuresNext(before: seq<UniverseItem>, last: UniverseItem,
          provider: UniverseItem -> Outcome, now: string, f: Failure)
    ensures IsFailureOf(before + [last], provider, now, f) <==>
            IsFailureOf(before, provider, now, f) || FailsWith(last, provider, now, f)
  {
    hide FailsWith;
    var all := before + [last];
    assert all[|before|] == last;
    if IsFailureOf(before, provider, now, f) {
      var i :| 0 <= i < |before| && FailsWith(before[i], provider, now, f);
      assert all[i] == before[i];
    }
  }

  /** The failures listed are exactly those of the instruments that were not quoted. */
  lemma {:induction false} FailuresAreListed(identities: seq<UniverseItem>, provider: UniverseItem -> Outcome,
          now: string)
    ensures var failures := SettleRows(identities, provider, now).1;
      && (forall f :: f in failures <==> IsFailureOf(identities, provider, now, f))
      && |failures| <= |identities|
      && (|failures| < |identities| <==> SomeQuoted(identities, provider, now))
      && (|failures| == |identities| ==> forall i :: 0 <= i < |identities| ==>
            FailsWith(identities[i], provider, now, failures[i]))
  {
    hide NormalizeQuote, IsFailureOf, SomeQuoted;
    if identities != [] {
      var before, last := identities[..|identities| - 1], identities[|identities| - 1];
      assert identities == before + [last];
      FailuresAreListed(before, provider, now);
      RowsSettle(before, provider, now);
      SomeQuotedNext(before, last, provider, now);
      var failures := SettleRows(identities, provider, now).1;
      forall f ensures f in failures <==> IsFailureOf(identities, provider, now, f) {
        FailuresNext(before, last, provider, now, f);
      }
    } else {
      NothingFails(provider, now);
    }
  }

  lemma {:induction false} NothingFails(provider: UniverseItem -> Outcome, now: string)
    ensures !SomeQuoted([], provider, now) && forall f :: !IsFailureOf([], provider, now, f)
  {
  }

  predicate Precedes(inputs: seq<UniverseItem>, n: nat, key: Text)
    requires n <= |inputs|
  {
    exists j :: 0 <= j < n && CanonicalizeIdentity(inputs[j]).Ok? && ActiveKey(inputs[j]) == key
  }

  /** Why input `k` is refused: it is not canonical, or an earlier canonical one has its key. */
  predicate RefusedAs(inputs: seq<UniverseItem>, k: nat, f: Failure)
    requires k < |inputs|
  {
    match CanonicalizeIdentity(inputs[k])
    case Err(code) => f == Failure(None, code)
    case Ok(i) => Precedes(inputs, k, ActiveKey(i)) && f == Failure(Some(i), INVALID_IDENTITY)
  }

  predicate IsRefusal(inputs: seq<UniverseItem>, f: Failure) {
    exists k :: 0 <= k < |inputs| && RefusedAs(inputs, k, f)
  }

  lemma {:induction false} PrecedesNext(before: seq<UniverseItem>, last: UniverseItem, key: Text)
    ensures Precedes(before + [last], |before| + 1, key) <==>
            Precedes(before, |before|, key) || (CanonicalizeIdentity(last).Ok? && ActiveKey(last) == key)
    ensures Precedes(before + [last], |before|, key) <==> Precedes(before, |before|, key)
  {
    hide CanonicalizeIdentity, ActiveKey;
    var all := before + [last];
    assert all[|before|] == last && forall j :: 0 <= j < |before| ==> all[j] == before[j];
  }

  lemma {:induction false} RefusalNext(before: seq<UniverseItem>, last: UniverseItem, f: Failure)
    ensures IsRefusal(before + [last], f) <==> IsRefusal(before, f) || RefusedAs(before + [last], |before|, f)
  {
    hide CanonicalizeIdentity, ActiveKey;
    var all := before + [last];
    forall k: nat | k < |before| ensures RefusedAs(all, k, f) <==> RefusedAs(before, k, f) {
      assert all[k] == before[k] && forall j :: 0 <= j < k ==> all[j] == before[j];
    }
  }

  /** The identities accepted have exactly the canonical keys, and the refusals listed are exactly these. */
  lemma {:induction false} RefusalsAreListed(inputs: seq<UniverseItem>)
    ensures var (identities, failures) := ResolveIdentities(inputs);
      && (forall key :: key in ActiveKeys(identities) <==> Precedes(inputs, |inputs|, key))
      && (forall f :: f in failures <==> IsRefusal(inputs, f))
  {
    hide CanonicalizeIdentity, ActiveKey, IsRefusal, Precedes;
    if inputs == [] {
      NothingRefused();
    } else {
      var before, last := inputs[..|inputs| - 1], inputs[|inputs| - 1];
      assert inputs == before + [last];
      RefusalsAreListed(before);
      CanonicalIsSame(last);
      var (accepted, refused) := ResolveIdentities(before);
      var (identities, failures) := ResolveIdentities(inputs);
      forall key ensures key in ActiveKeys(identities) <==> Precedes(inputs, |inputs|, key) {
        PrecedesNext(before, last, key);
        KeysAppended(accepted, last);
      }
      forall f ensures f in failures <==> IsRefusal(inputs, f) {
        RefusalNext(before, last, f);
        PrecedesNext(before, last, ActiveKey(last));
      }
    }
  }

  lemma {:induction false} KeysAppended(active: seq<UniverseItem>, i: UniverseItem)
    ensures ActiveKeys(active + [i]) == ActiveKeys(active) + {ActiveKey(i)}
  {
    ActiveNext(active + [i], |active|);
    assert (active + [i])[..|active|] == active && (active + [i])[..|active| + 1] == active + [i];
  }

  lemma {:induction false} NothingRefused()
    ensures forall key :: key !in ActiveKeys([]) && !Precedes([], 0, key)
    ensures forall f :: !IsRefusal([], f)
  {
  }

  predicate Unreachable(i: UniverseItem, provider: UniverseItem -> Outcome) {
    var o := provider(i);
    o.NoQuote? || o == Rejected(PROVIDER_UNAVAILABLE)
  }

  lemma {:induction false} UnreachableCode(i: UniverseItem, provider: UniverseItem -> Outcome, now: string, f: Failure)
    requires FailsWith(i, provider, now, f)
    ensures f.code == PROVIDER_UNAVAILABLE <==> Unreachable(i, provider)
  {
  }

  /** With which code a refused fetch is answered, and which failures it lists. */
  lemma {:induction false} FetchRefusal(inputs: seq<UniverseItem>, available: bool,
          provider: UniverseItem -> Outcome, now: string)
    requires Fetch(inputs, available, provider, now).Err?
    ensures var e := Fetch(inputs, available, provider, now).error;
      if !AllCanonical(inputs) || !DistinctActive(inputs) then
        e.code == INVALID_IDENTITY && forall f :: f in e.failures <==> IsRefusal(inputs, f)
      else if !available then
        && e.code == PROVIDER_UNAVAILABLE && |e.failures| == |inputs|
        && forall i :: 0 <= i < |inputs| ==> e.failures[i] == Failure(Some(inputs[i]), PROVIDER_UNAVAILABLE)
      else
        && inputs != [] && (forall f :: f in e.failures <==> IsFailureOf(inputs, provider, now, f))
        && (if SomeQuoted(inputs, provider, now) then e.code == PARTIAL_PROVIDER_FAILURE
            else if forall i :: 0 <= i < |inputs| ==> Unreachable(inputs[i], provider)
            then e.code == PROVIDER_UNAVAILABLE
            else FailsWith(inputs[0], provider, now, Failure(Some(inputs[0]), e.code)))
  {
    hide NormalizeQuote, DistinctActive, AllCanonical, AllQuoted, Unreachable, FailsWith, IsFailureOf, SomeQuoted;
    hide IsRefusal;
    IdentitiesResolve(inputs);
    RefusalsAreListed(inputs);
    if AllCanonical(inputs) && DistinctActive(inputs) && available {
      RowsSettle(inputs, provider, now);
      FailuresAreListed(inputs, provider, now);
      var failures := SettleRows(inputs, provider, now).1;
      if !SomeQuoted(inputs, provider, now) {
        forall i | 0 <= i < |inputs|
          ensures failures[i].code == PROVIDER_UNAVAILABLE <==> Unreachable(inputs[i], provider)
        {
          UnreachableCode(inputs[i], provider, now, failures[i]);
        }
        NamesItsInstrument(inputs[0], provider, now, failures[0]);
      }
    }
  }

  lemma {:induction false} NamesItsInstrument(i: UniverseItem, provider: UniverseItem -> Outcome, now: string,
          f: Failure)
    requires FailsWith(i, provider, now, f)
    ensures f == Failure(Some(i), f.code)
  {
  }

  // ---------------------------------------------------------------------------------------
  // Merge
  // ---------------------------------------------------------------------------------------

  predicate Names(i: UniverseItem, r: Row) { ActiveKey(i) == KeyOf(r.item) && i.exchange == r.item.exchange }

  predicate InUniverse(identities: seq<UniverseItem>, r: Row) {
    exists i :: 0 <= i < |identities| && Names(identities[i], r)
  }

  /** The rows to add and the keys seen, or the refusal of a row outside the batch or seen before. */
  function Additions(rows: seq<Row>, identities: seq<UniverseItem>, existing: set<Text>): Result<(seq<Row>,
          set<Text>), ErrorCode> {
    if rows == [] then Ok(([], {}))
    else
      var row := rows[|rows| - 1];
      match Additions(rows[..|rows| - 1], identities, existing)
      case Err(code) => Err(code)
      case Ok((additions, seen)) =>
        if !InUniverse(identities, row) || KeyOf(row.item) in seen then Err(INVALID_PROVIDER_QUOTE)
        else Ok((if KeyOf(row.item) in existing then additions else additions + [row], seen + {KeyOf(row.item)}))
  }

  function Merged(s: Snapshot, additions: seq<Row>): Snapshot {
    var stocks := s.stocks + additions;
    var c := CountsOf(stocks);
    s.(stocks := stocks, universe := s.universe + Items(additions),
       summary := s.summary.(
         total := c.total, activeQuote := Some(c.activeQuote), activeHolding := Some(c.activeHolding),
         watch := Some(c.watch), exitedWatch := Some(c.exitedWatch), mapping := Some(c.mapping),
         core := Some(c.core), growth := Some(c.growth),
         usable := if s.summary.usable.Some? then Some(c.total) else None))
  }

  function Merge(s: Snapshot, b: Batch): Result<Snapshot, ErrorCode> {
    if !DistinctActive(b.identities) then Err(PARTIAL_PROVIDER_FAILURE)
    else match Additions(b.rows, b.identities, KeySet(Items(s.stocks)))
      case Err(code) => Err(code)
      case Ok((additions, seen)) =>
        if ActiveKeys(b.identities) <= seen then Ok(Merged(s, additions)) else Err(PARTIAL_PROVIDER_FAILURE)
  }

  lemma {:induction false} ActiveLookup(identities: seq<UniverseItem>, byKey: map<Text, UniverseItem>, row: Row)
    requires DistinctActive(identities)
    requires forall k :: k in byKey <==> k in ActiveKeys(identities)
    requires forall i :: 0 <= i < |identities| ==> byKey[ActiveKey(identities[i])] == identities[i]
    ensures InUniverse(identities, row) <==>
            KeyOf(row.item) in byKey && byKey[KeyOf(row.item)].exchange == row.item.exchange
  {
    hide Key;
    if KeyOf(row.item) in ActiveKeys(identities) {
      var i :| 0 <= i < |identities| && ActiveKey(identities[i]) == KeyOf(row.item);
      assert Names(identities[i], row) <==> identities[i].exchange == row.item.exchange;
    }
  }

  lemma {:induction false} KeySetNext(items: seq<Item>, n: nat)
    requires n < |items|
    ensures KeySet(items[..n + 1]) == KeySet(items[..n]) + {KeyOf(items[n])}
  {
    hide KeyOf;
    var before, all := items[..n], items[..n + 1];
    forall k ensures k in KeySet(all) <==> k in KeySet(before) || k == KeyOf(items[n]) {
      if k in KeySet(before) {
        var i :| 0 <= i < |before| && KeyOf(before[i]) == k;
        assert all[i] == before[i];
      }
      assert all[n] == items[n];
    }
  }

  lemma {:induction false} DistinctActiveCount(active: seq<UniverseItem>)
    ensures |ActiveKeys(active)| <= |active|
    ensures |ActiveKeys(active)| == |active| <==> DistinctActive(active)
  {
    hide ActiveKey;
    if active == [] {
      assert ActiveKeys(active) == {};
    } else {
      var n := |active| - 1;
      assert active == active[..n] + [active[n]] && active[..n + 1] == active;
      DistinctActiveCount(active[..n]);
      ActiveNext(active, n);
      if DistinctActive(active[..n]) {
        DistinctActiveNext(active[..n], active[n]);
      }
    }
  }

  /** The batch's identities by key; a later one under the same key would replace the earlier. */
  method IdentitiesByKey(identities: seq<UniverseItem>) returns (byKey: map<Text, UniverseItem>)
    ensures byKey.Keys == ActiveKeys(identities)
    ensures DistinctActive(identities) ==>
      forall i :: 0 <= i < |identities| ==> byKey[ActiveKey(identities[i])] == identities[i]
  {
    hide ActiveKey;
    byKey := map[];
    for i := 0 to |identities|
      invariant byKey.Keys == ActiveKeys(identities[..i])
      invariant DistinctActive(identities) ==>
        forall j :: 0 <= j < i ==> ActiveKey(identities[j]) in byKey && byKey[ActiveKey(identities[j])] == identities[j]
    {
      ActiveNext(identities, i);
      byKey := byKey[ActiveKey(identities[i]) := identities[i]];
    }
    assert identities[..|identities|] == identities;
  }

  method KeysOf(rows: seq<Row>) returns (keys: set<Text>)
    ensures keys == KeySet(Items(rows))
  {
    hide KeyOf;
    keys := {};
    for i := 0 to |rows|
      invariant keys == KeySet(Items(rows)[..i])
    {
      KeySetNext(Items(rows), i);
      keys := keys + {KeyOf(rows[i].item)};
    }
    assert Items(rows)[..|rows|] == Items(rows);
  }

  method CollectAdditions(rows: seq<Row>, identities: seq<UniverseItem>, byKey: map<Text, UniverseItem>,
          existing: set<Text>)
    returns (answer: Result<(seq<Row>, set<Text>), ErrorCode>)
    requires DistinctActive(identities) && byKey.Keys == ActiveKeys(identities)
    requires forall i :: 0 <= i < |identities| ==> byKey[ActiveKey(identities[i])] == identities[i]
    ensures answer == Additions(rows, identities, existing)
  {
    hide KeyOf, ActiveKey, DistinctActive, InUniverse, ActiveKeys;
    var additions: seq<Row>, seen: set<Text> := [], {};
    for i := 0 to |rows|
      invariant Additions(rows[..i], identities, existing) == Ok((additions, seen))
    {
      var row := rows[i];
      var key := KeyOf(row.item);
      assert rows[..i + 1][..i] == rows[..i];
      ActiveLookup(identities, byKey, row);
      if key !in byKey || byKey[key].exchange != row.item.exchange || key in seen {
        RefusedPrefix(rows, i + 1, identities, existing);
        return Err(INVALID_PROVIDER_QUOTE);
      }
      seen := seen + {key};
      if key !in existing { additions := additions + [row]; }
    }
    assert rows[..|rows|] == rows;
    answer := Ok((additions, seen));
  }

  lemma {:induction false} RefusedPrefix(rows: seq<Row>, n: nat, identities: seq<UniverseItem>, existing: set<Text>)
    requires n <= |rows| && Additions(rows[..n], identities, existing).Err?
    ensures Additions(rows, identities, existing) == Err(INVALID_PROVIDER_QUOTE)
    decreases |rows| - n
  {
    OnlyOneRefusal(rows, identities, existing);
    if n == |rows| {
      assert rows[..n] == rows;
    } else {
      assert rows[..n + 1][..n] == rows[..n];
      RefusedPrefix(rows, n + 1, identities, existing);
    }
  }

  lemma {:induction false} OnlyOneRefusal(rows: seq<Row>, identities: seq<UniverseItem>, existing: set<Text>)
    ensures Additions(rows, identities, existing).Err? ==>
      Additions(rows, identities, existing) == Err(INVALID_PROVIDER_QUOTE)
  {
    if rows != [] {
      OnlyOneRefusal(rows[..|rows| - 1], identities, existing);
    }
  }

  method MergeDynamicQuoteRows(s: Snapshot, b: Batch) returns (answer: Result<Snapshot, ErrorCode>)
    ensures answer == Merge(s, b)
  {
    hide KeyOf, ActiveKey, DistinctActive, Additions;
    var existing := KeysOf(s.stocks);
    var byKey := IdentitiesByKey(b.identities);
    DistinctActiveCount(b.identities);
    if |byKey.Keys| != |b.identities| { return Err(PARTIAL_PROVIDER_FAILURE); }
    var collected := CollectAdditions(b.rows, b.identities, byKey, existing);
    if collected.Err? { return Err(collected.error); }
    var (additions, seen) := collected.value;
    for i := 0 to |b.identities|
      invariant forall j :: 0 <= j < i ==> ActiveKey(b.identities[j]) in seen
    {
      if ActiveKey(b.identities[i]) !in seen { return Err(PARTIAL_PROVIDER_FAILURE); }
    }
    var stocks := s.stocks + additions;
    var c := GetSnapshotCounts(stocks);
    answer := Ok(s.(
      stocks := stocks, universe := s.universe + Items(additions),
      summary := s.summary.(
        total := c.total, activeQuote := Some(c.activeQuote), activeHolding := Some(c.activeHolding),
        watch := Some(c.watch), exitedWatch := Some(c.exitedWatch), mapping := Some(c.mapping),
        core := Some(c.core), growth := Some(c.growth),
        usable := if s.summary.usable.Some? then Some(c.total) else None)));
  }

  // ---------------------------------------------------------------------------------------
  // When a merge succeeds and what it gives
  // ---------------------------------------------------------------------------------------

  predicate RowsNamed(rows: seq<Row>, identities: seq<UniverseItem>) {
    forall i :: 0 <= i < |rows| ==> InUniverse(identities, rows[i])
  }

  /** The rows whose key is not in the catalog, in their order. */
  function NewRows(rows: seq<Row>, existing: set<Text>): seq<Row> {
    if rows == [] then []
    else
      var rest, row := NewRows(rows[..|rows| - 1], existing), rows[|rows| - 1];
      if KeyOf(row.item) in existing then rest else rest + [row]
  }

  lemma {:induction false} AdditionsAreNewRows(rows: seq<Row>, identities: seq<UniverseItem>, existing: set<Text>)
    ensures var a := Additions(rows, identities, existing);
      && (a.Ok? <==> RowsNamed(rows, identities) && DistinctKeys(Items(rows)))
      && (a.Ok? ==> a.value == (NewRows(rows, existing), KeySet(Items(rows))))
  {
    hide KeyOf, InUniverse, DistinctKeys, HasKey, KeySet;
    if rows == [] {
      NoRows();
    } else {
      var before, last := rows[..|rows| - 1], rows[|rows| - 1];
      assert rows == before + [last];
      AdditionsAreNewRows(before, identities, existing);
      ItemsSnoc(before, last);
      assert Items(rows)[..|before|] == Items(before) && Items(rows)[..|before| + 1] == Items(rows);
      KeySetNext(Items(rows), |before|);
      if DistinctKeys(Items(rows)) { DistinctPrefix(Items(rows), |before|); }
      if DistinctKeys(Items(before)) { DistinctNext(Items(before), last.item); }
      KeySetHasKey(Items(before), KeyOf(last.item));
      assert RowsNamed(rows, identities) <==> RowsNamed(before, identities) && InUniverse(identities, last);
    }
  }

  lemma {:induction false} NoRows()
    ensures DistinctKeys(Items([])) && KeySet(Items([])) == {}
  {
  }

  lemma {:induction false} KeySetHasKey(items: seq<Item>, k: Text)
    ensures k in KeySet(items) <==> HasKey(items, k)
  {
  }

  /** A merge succeeds iff the batch is complete, without repeats and only of its own identities. */
  lemma {:induction false} MergeSucceedsIff(s: Snapshot, b: Batch)
    ensures Merge(s, b).Ok? <==>
            && DistinctActive(b.identities) && RowsNamed(b.rows, b.identities) && DistinctKeys(Items(b.rows))
            && ActiveKeys(b.identities) <= KeySet(Items(b.rows))
    ensures Merge(s, b).Ok? ==> Merge(s, b).value == Merged(s, NewRows(b.rows, KeySet(Items(s.stocks))))
    ensures Merge(s, b).Err? ==>
      Merge(s, b).error ==
        if DistinctActive(b.identities) && !(RowsNamed(b.rows, b.identities) && DistinctKeys(Items(b.rows)))
        then INVALID_PROVIDER_QUOTE else PARTIAL_PROVIDER_FAILURE
  {
    hide KeyOf, DistinctActive, Additions, RowsNamed, DistinctKeys, KeySet, ActiveKeys, Merged, NewRows;
    OnlyOneRefusal(b.rows, b.identities, KeySet(Items(s.stocks)));
    AdditionsAreNewRows(b.rows, b.identities, KeySet(Items(s.stocks)));
  }
}
