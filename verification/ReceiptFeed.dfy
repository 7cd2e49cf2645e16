/**
 * The receipt feed read by cursor: the lossless decimal sequence text, the versioned cursor,
 * one page request, and a consumer that follows next_since while writers keep appending.
 */
module ReceiptFeed {
  import opened Basics
  import opened ReceiptLog

  const MAX_SEQUENCE: nat := 9_223_372_036_854_775_807
  const RECEIPTS_MAX_LIMIT := 500

  datatype Failure = INTEGRITY_FAILED | STORE_UNAVAILABLE

  // ---------------------------------------------------------------------------------------
  // Canonical decimal text of a signed 64-bit sequence
  // ---------------------------------------------------------------------------------------

  predicate IsDigit(c: char) { '0' <= c <= '9' }

  predicate IsDigits(s: string) { forall i :: 0 <= i < |s| ==> IsDigit(s[i]) }

  /** The text the database's CAST of an integer gives. */
  function DecimalText(n: nat): (s: string)
    ensures s != []
  {
    if n < 10 then [('0' as int + n) as char]
    else DecimalText(n / 10) + [('0' as int + n % 10) as char]
  }

  function DecimalValue(s: string): nat
    requires IsDigits(s)
  {
    if s == [] then 0
    else DecimalValue(s[..|s| - 1]) * 10 + (s[|s| - 1] as int - '0' as int)
  }

  function SequenceText(text: string, allowZero: bool): (r: Result<nat, Failure>) {
    if !IsDigits(text) || |text| == 0 || |text| > 19 then Err(INTEGRITY_FAILED)
    else if text[0] == '0' && !(allowZero && text == "0") then Err(INTEGRITY_FAILED)
    else if DecimalValue(text) > MAX_SEQUENCE then Err(INTEGRITY_FAILED)
    else Ok(DecimalValue(text))
  }

  function Pow10(k: nat): nat { if k == 0 then 1 else 10 * Pow10(k - 1) }

  lemma {:induction false} TextOfNumber(n: nat)
    ensures IsDigits(DecimalText(n)) && DecimalValue(DecimalText(n)) == n
    ensures DecimalText(n)[0] == '0' <==> n == 0
  {
    if n >= 10 {
      TextOfNumber(n / 10);
      var t := DecimalText(n / 10);
      assert DecimalText(n)[..|t|] == t;
    } else {
      assert DecimalText(n)[..0] == [];
    }
  }

  lemma {:induction false} TextLength(n: nat, k: nat)
    requires k >= 1 && n < Pow10(k)
    ensures |DecimalText(n)| <= k
  {
    if n >= 10 {
      assert Pow10(1) == 10;
      TextLength(n / 10, k - 1);
    }
  }

  lemma {:induction false} NumberOfText(s: string)
    requires IsDigits(s) && s != [] && (s[0] != '0' || |s| == 1)
    ensures DecimalText(DecimalValue(s)) == s
    ensures s[0] != '0' ==> DecimalValue(s) > 0
  {
    var p, c := s[..|s| - 1], s[|s| - 1];
    assert s == p + [c];
    if p == [] {
      assert DecimalValue(p) == 0;
    } else {
      NumberOfText(p);
      assert DecimalValue(s) / 10 == DecimalValue(p);
    }
  }

  /** The validator accepts exactly the canonical texts of the representable sequences. */
  lemma {:induction false} SequenceTextIsLossless(text: string, allowZero: bool, n: nat)
    ensures SequenceText(text, allowZero) == Ok(n)
       <==> text == DecimalText(n) && n <= MAX_SEQUENCE && (n > 0 || allowZero)
  {
    if SequenceText(text, allowZero) == Ok(n) {
      NumberOfText(text);
    }
    if text == DecimalText(n) && n <= MAX_SEQUENCE && (n > 0 || allowZero) {
      TextOfNumber(n);
      assert Pow10(19) == 10_000_000_000_000_000_000 by {
        assert Pow10(5) == 100_000;
        assert Pow10(10) == 100_000 * Pow10(5);
        assert Pow10(15) == 100_000 * Pow10(10);
      }
      TextLength(n, 19);
    }
  }

  // ---------------------------------------------------------------------------------------
  // Cursors
  // ---------------------------------------------------------------------------------------

  /** What a `since` argument decodes to; the base64 JSON envelope is an invertible codec. */
  datatype Cursor =
    | Absent
    | V3(currentEpoch: bool, sequence: string)
    | V2(position: string)
    | V1(timeParses: bool)
    | Timestamp(parses: bool)
    | Unreadable

  function Encode(sequence: string): Cursor { V3(true, sequence) }

  function Decode(since: Cursor): Result<Option<nat>, Failure> {
    match since
    case Absent => Ok(None)
    case V3(currentEpoch, text) =>
      if !currentEpoch then Err(INTEGRITY_FAILED)
      else (match SequenceText(text, true)
            case Ok(n) => Ok(Some(n))
            case Err(e) => Err(e))
    case V2(text) =>
      // A position of the old mapping is validated but never translated.
      (match SequenceText(text, false)
       case Ok(_) => Ok(Some(0))
       case Err(e) => Err(e))
    case V1(parses) => if parses then Ok(Some(0)) else Err(INTEGRITY_FAILED)
    case Timestamp(parses) => if parses then Ok(Some(0)) else Err(INTEGRITY_FAILED)
    case Unreadable => Err(INTEGRITY_FAILED)
  }

  /** The sequence after which a decoded cursor continues. */
  function Position(after: Option<nat>): nat {
    match after case None => 0 case Some(n) => n
  }

  /** Cursor round trip for every issued sequence. */
  lemma {:induction false} CursorRoundTrip(n: nat)
    requires n <= MAX_SEQUENCE
    ensures Decode(Encode(DecimalText(n))) == Ok(Some(n))
  {
    SequenceTextIsLossless(DecimalText(n), true, n);
  }

  /**
   * Which cursors are accepted, and where they continue: a current one at its sequence, the legacy
   * ones at the beginning, and every other one is refused.
   */
  lemma {:induction false} CursorIsAcceptedIff(since: Cursor, n: nat)
    ensures since.V3? ==>
      (Decode(since) == Ok(Some(n)) <==>
         since.currentEpoch && since.sequence == DecimalText(n) && n <= 9_223_372_036_854_775_807)
    ensures since.V2? && since.position == DecimalText(n) && 0 < n <= 9_223_372_036_854_775_807 ==>
      Decode(since) == Ok(Some(0))
    ensures since.V2? && Decode(since).Ok? ==> exists k: nat :: k > 0 && since.position == DecimalText(k)
    ensures since.V1? ==> Decode(since) == if since.timeParses then Ok(Some(0)) else Err(INTEGRITY_FAILED)
    ensures since.Timestamp? ==> Decode(since) == if since.parses then Ok(Some(0)) else Err(INTEGRITY_FAILED)
    ensures since == Absent ==> Decode(since) == Ok(None)
    ensures Decode(since).Err? ==> Decode(since) == Err(INTEGRITY_FAILED) && since != Absent
    ensures since == Unreadable ==> Decode(since).Err?
  {
    hide SequenceText;
    match since
    case V3(_, text) =>
      SequenceTextIsLossless(text, true, n);
      OneRefusal(text, true);
    case V2(text) =>
      SequenceTextIsLossless(text, false, n);
      OneRefusal(text, false);
      if SequenceText(text, false).Ok? {
        SequenceTextIsLossless(text, false, SequenceText(text, false).value);
      }
    case _ =>
  }

  lemma {:induction false} OneRefusal(text: string, allowZero: bool)
    ensures SequenceText(text, allowZero).Err? ==> SequenceText(text, allowZero) == Err(INTEGRITY_FAILED)
  {
  }

  // ---------------------------------------------------------------------------------------
  // Pages
  // ---------------------------------------------------------------------------------------

  datatype Row = Row(event: Event, sequence: int)

  predicate Eligible(log: Log, after: Option<nat>, e: Event) {
    e in log.events && e.id in log.order && (after.Some? ==> log.order[e.id] > after.value)
  }

  /** The answer of the page query: join, lower bound, ascending order, LIMIT. */
  ghost predicate IsPage(log: Log, after: Option<nat>, limit: int, rows: seq<Row>) {
    && |rows| <= limit
    && (forall i :: 0 <= i < |rows| ==>
          Eligible(log, after, rows[i].event) && rows[i].sequence == log.order[rows[i].event.id])
    && (forall i, j :: 0 <= i < j < |rows| ==> rows[i].sequence < rows[j].sequence)
    && (forall e :: Eligible(log, after, e) ==> Returned(rows, e) || CutOff(log, limit, rows, e))
  }

  ghost predicate Returned(rows: seq<Row>, e: Event) {
    exists i :: 0 <= i < |rows| && rows[i].event == e
  }

  ghost predicate CutOff(log: Log, limit: int, rows: seq<Row>, e: Event)
    requires e.id in log.order
  {
    |rows| == limit && forall i :: 0 <= i < |rows| ==> rows[i].sequence < log.order[e.id]
  }

  ghost predicate Increasing(q: seq<int>) {
    forall i, j :: 0 <= i < j < |q| ==> q[i] < q[j]
  }

  /** `q` holds every number above `c`, up to its limit or up to `n`. */
  ghost predicate Gapless(q: seq<int>, c: int, n: int, limit: int) {
    forall s {:trigger s in q} :: c < s <= n && (|q| < limit || (q != [] && s <= q[|q| - 1])) ==> s in q
  }

  lemma {:induction false} ConsecutiveUpTo(q: seq<int>, c: int, n: int, limit: int, i: nat)
    requires Increasing(q) && Gapless(q, c, n, limit) && i < |q|
    requires forall j :: 0 <= j < |q| ==> c < q[j] <= n
    ensures q[i] == c + i + 1
  {
    if i > 0 {
      ConsecutiveUpTo(q, c, n, limit, i - 1);
    }
    if q[i] > c + i + 1 {
      assert c + i + 1 in q;
      assert forall j :: 0 <= j < i ==> q[j] <= q[i - 1];
    }
  }

  lemma {:induction false} Consecutive(q: seq<int>, c: int, n: int, limit: int)
    requires Increasing(q) && Gapless(q, c, n, limit) && |q| <= limit && limit >= 1
    requires forall j :: 0 <= j < |q| ==> c < q[j] <= n
    ensures forall i :: 0 <= i < |q| ==> q[i] == c + i + 1
    ensures c <= n ==> |q| == Min(limit, n - c)
    ensures c >= n ==> q == []
  {
    forall i | 0 <= i < |q| ensures q[i] == c + i + 1 {
      ConsecutiveUpTo(q, c, n, limit, i);
    }
    if q != [] {
      assert q[|q| - 1] == c + |q|;
    }
    assert |q| < limit && c + |q| + 1 <= n ==> c + |q| + 1 in q;
  }

  function Sequences(rows: seq<Row>): (q: seq<int>)
    ensures |q| == |rows| && forall i :: 0 <= i < |q| ==> q[i] == rows[i].sequence
  {
    seq(|rows|, i requires 0 <= i < |rows| => rows[i].sequence)
  }

  lemma {:induction false} ServedSequence(log: Log, feed: seq<Event>, after: Option<nat>, limit: int,
          rows: seq<Row>, s: int)
    requires Indexed(log, feed) && IsPage(log, after, limit, rows)
    requires Position(after) < s <= |feed|
    requires |rows| < limit || (rows != [] && s <= rows[|rows| - 1].sequence)
    ensures s in Sequences(rows)
  {
    var e := feed[s - 1];
    assert Eligible(log, after, e);
    assert Returned(rows, e);
    var j :| 0 <= j < |rows| && rows[j].event == e;
    assert Sequences(rows)[j] == s;
  }

  lemma {:induction false} ServedEvent(log: Log, feed: seq<Event>, after: Option<nat>, limit: int,
          rows: seq<Row>, i: nat)
    requires Indexed(log, feed) && IsPage(log, after, limit, rows) && i < |rows|
    ensures Position(after) < rows[i].sequence <= |feed| && rows[i].event == feed[rows[i].sequence - 1]
  {
    assert Eligible(log, after, rows[i].event);
  }

  lemma {:induction false} PageIsGapless(log: Log, feed: seq<Event>, after: Option<nat>, limit: int, rows: seq<Row>)
    requires Indexed(log, feed) && IsPage(log, after, limit, rows)
    ensures Gapless(Sequences(rows), Position(after), |feed|, limit)
  {
    hide IsPage, Indexed;
    var q, c := Sequences(rows), Position(after);
    forall s | c < s <= |feed| && (|q| < limit || (q != [] && s <= q[|q| - 1])) ensures s in q {
      ServedSequence(log, feed, after, limit, rows, s);
    }
  }

  /** Any answer of the page query is exactly the next events of the feed, without gap or repeat. */
  lemma {:induction false} PageIsNextEvents(log: Log, feed: seq<Event>, after: Option<nat>, limit: int, rows: seq<Row>)
    requires IsFeed(log, feed) && IsPage(log, after, limit, rows) && limit >= 1
    ensures Position(after) <= |log.events| ==> |rows| == Min(limit, |log.events| - Position(after))
    ensures Position(after) >= |log.events| ==> rows == []
    ensures |feed| == |log.events|
    ensures forall i :: 0 <= i < |rows| ==>
      && rows[i].sequence == Position(after) + i + 1 <= |feed|
      && rows[i].event == feed[Position(after) + i]
  {
    hide IsPage, Indexed, IsFeed, Increasing, Gapless;
    FeedIsIndexed(log, feed);
    var q, c := Sequences(rows), Position(after);
    assert Increasing(q) && |q| <= limit by { PageIncreases(log, after, limit, rows); }
    PageIsGapless(log, feed, after, limit, rows);
    forall i | 0 <= i < |rows| ensures c < q[i] <= |feed| && rows[i].event == feed[q[i] - 1] {
      ServedEvent(log, feed, after, limit, rows, i);
    }
    Consecutive(q, c, |feed|, limit);
  }

  /** The next events of the feed, up to the limit. */
  function NextRows(feed: seq<Event>, from: nat, limit: nat): (rows: seq<Row>)
    requires from <= |feed|
    ensures |rows| == Min(limit, |feed| - from)
  {
    seq(Min(limit, |feed| - from), i requires 0 <= i < |feed| - from => Row(feed[from + i], from + i + 1))
  }

  /** The page query always has an answer: these events. */
  lemma {:induction false} NextEventsArePage(log: Log, feed: seq<Event>, after: Option<nat>, limit: nat)
    requires IsFeed(log, feed) && Position(after) <= |feed|
    ensures IsPage(log, after, limit, NextRows(feed, Position(after), limit))
  {
    hide IsFeed;
    FeedIsIndexed(log, feed);
    var from := Position(after);
    var rows := NextRows(feed, from, limit);
    forall e | Eligible(log, after, e) ensures Returned(rows, e) || CutOff(log, limit, rows, e) {
      var s := log.order[e.id];
      assert feed[s - 1] == e;
      if s - 1 < from + |rows| { assert rows[s - 1 - from].event == e; }
    }
  }

  lemma {:induction false} PageIncreases(log: Log, after: Option<nat>, limit: int, rows: seq<Row>)
    requires IsPage(log, after, limit, rows)
    ensures Increasing(Sequences(rows)) && |rows| <= limit
  {
  }

  // ---------------------------------------------------------------------------------------
  // One page request
  // ---------------------------------------------------------------------------------------

  /** The whitelisted projection of one event; the receipt id is a digest of the event id. */
  datatype Receipt = Receipt(
    eventDigest: int, job: int, kind: EventKind, at: int, actor: Principal, proposal: Option<int>, request: int)

  datatype Page = Page(nextSince: Cursor, receipts: seq<Receipt>)

  function Project(e: Event): Receipt {
    Receipt(e.id, e.job, e.kind, e.at, e.actor, e.proposal, e.request)
  }

  /** The mapping-integrity check: no event without a sequence, no sequence without an event. */
  predicate MappingComplete(log: Log) {
    && (forall e :: e in log.events ==> e.id in log.order)
    && (forall id :: id in log.order ==> exists e :: e in log.events && e.id == id)
  }

  lemma {:induction false} NumberedLogIsComplete(log: Log)
    requires Numbered(log)
    ensures MappingComplete(log)
  {
    NumberingIsBijection(log);
  }

  /** The answer given the log seen by the integrity read and the rows of the later page read. */
  function Respond(checked: Log, since: Cursor, limit: int, rows: seq<Row>): Result<Page, Failure> {
    if limit < 1 || limit > RECEIPTS_MAX_LIMIT then Err(INTEGRITY_FAILED)
    else if Decode(since).Err? then Err(Decode(since).error)
    else if !MappingComplete(checked) then Err(STORE_UNAVAILABLE)
    else if rows == [] then Ok(Page(since, []))
    else
      var last := rows[|rows| - 1].sequence;
      if last < 0 || SequenceText(DecimalText(last), false).Err? then Err(INTEGRITY_FAILED)
      else Ok(Page(Encode(DecimalText(last)), seq(|rows|, i requires 0 <= i < |rows| => Project(rows[i].event))))
  }

  /** The request as it runs: the rows are pushed one by one onto the answer. */
  method ListReceipts(checked: Log, since: Cursor, limit: int, rows: seq<Row>)
    returns (answer: Result<Page, Failure>)
    ensures answer == Respond(checked, since, limit, rows)
  {
    if limit < 1 || limit > RECEIPTS_MAX_LIMIT { return Err(INTEGRITY_FAILED); }
    var cursor := Decode(since);
    if cursor.Err? { return Err(cursor.error); }
    if !MappingComplete(checked) { return Err(STORE_UNAVAILABLE); }
    var receipts: seq<Receipt> := [];
    for i := 0 to |rows|
      invariant receipts == seq(i, k requires 0 <= k < i => Project(rows[k].event))
    {
      receipts := receipts + [Project(rows[i].event)];
    }
    var nextSince := since;
    if |rows| > 0 {
      var last := rows[|rows| - 1].sequence;
      if last < 0 { return Err(INTEGRITY_FAILED); }
      var text := SequenceText(DecimalText(last), false);
      if text.Err? { return Err(INTEGRITY_FAILED); }
      nextSince := Encode(DecimalText(last));
    }
    answer := Ok(Page(nextSince, receipts));
  }

  // ---------------------------------------------------------------------------------------
  // A consumer following next_since while writers append
  // ---------------------------------------------------------------------------------------

  datatype Consumer = Consumer(log: Log, since: Cursor, received: seq<Receipt>)

  datatype Act =
    | Write(later: Log)
    | Read(checked: Log, limit: int, rows: seq<Row>)

  /** One step: writers commit a batch of events, or the consumer reads one page. */
  ghost predicate Step(s: Consumer, act: Act, t: Consumer) {
    match act
    case Write(later) => Extends(s.log, later) && t == s.(log := later)
    case Read(checked, limit, rows) =>
      && Decode(s.since).Ok?
      && Numbered(checked)
      && IsPage(s.log, Decode(s.since).value, limit, rows)
      && (match Respond(checked, s.since, limit, rows)
          case Ok(page) => t == s.(since := page.nextSince, received := s.received + page.receipts)
          case Err(_) => t == s)
  }

  /** `run[0]` starts with nothing received from an empty or accepted legacy cursor. */
  ghost predicate Run(run: seq<Consumer>, acts: seq<Act>) {
    && |run| == |acts| + 1
    && Numbered(run[0].log) && run[0].received == []
    && Decode(run[0].since).Ok? && Position(Decode(run[0].since).value) == 0
    && forall i :: 0 <= i < |acts| ==> Step(run[i], acts[i], run[i + 1])
  }

  /** The receipt tells all seven public fields of the event. */
  predicate Reports(r: Receipt, e: Event) {
    && r.eventDigest == e.id && r.job == e.job && r.kind == e.kind && r.at == e.at
    && r.actor == e.actor && r.proposal == e.proposal && r.request == e.request
  }

  ghost predicate ExactlyOnce(s: Consumer) {
    && Numbered(s.log)
    && Decode(s.since).Ok? && Position(Decode(s.since).value) == |s.received|
    && |s.received| <= |Feed(s.log)|
    && forall i :: 0 <= i < |s.received| ==> Reports(s.received[i], Feed(s.log)[i])
  }

  lemma {:induction false} WriteKeepsExactlyOnce(s: Consumer, later: Log)
    requires ExactlyOnce(s) && Extends(s.log, later)
    ensures ExactlyOnce(s.(log := later))
  {
    hide Numbered;
    FeedIsPrefix(s.log, later);
  }

  lemma {:induction false} WriteStep(s: Consumer, later: Log, t: Consumer)
    requires ExactlyOnce(s) && Step(s, Write(later), t)
    ensures ExactlyOnce(t)
  {
    WriteKeepsExactlyOnce(s, later);
  }

  /** What a served page does to the consumer. */
  lemma {:induction false} ServedPage(s: Consumer, checked: Log, limit: int, rows: seq<Row>)
    requires ExactlyOnce(s) && Numbered(checked)
    requires IsPage(s.log, Decode(s.since).value, limit, rows)
    requires Respond(checked, s.since, limit, rows).Ok?
    ensures var page := Respond(checked, s.since, limit, rows).value;
      && |s.received| + |rows| == Min(|s.received| + limit, |s.log.events|)
      && page.receipts == seq(|rows|, i requires 0 <= i < |rows| => Project(rows[i].event))
      && |s.received| + |rows| <= |Feed(s.log)|
      && (forall i :: 0 <= i < |rows| ==> rows[i].event == Feed(s.log)[|s.received| + i])
      && Decode(page.nextSince).Ok?
      && Position(Decode(page.nextSince).value) == |s.received| + |rows|
  {
    hide IsPage, IsFeed;
    var after := Decode(s.since).value;
    PageIsNextEvents(s.log, Feed(s.log), after, limit, rows);
    if rows != [] {
      var last := rows[|rows| - 1].sequence;
      SequenceTextIsLossless(DecimalText(last), false, SequenceText(DecimalText(last), false).value);
      TextOfNumber(last);
      CursorRoundTrip(last);
    }
  }

  /** A page that is exactly the next events takes the consumer to a longer prefix. */
  lemma {:induction false} ReceivingNextEvents(s: Consumer, page: Page, rows: seq<Row>)
    requires ExactlyOnce(s)
    requires page.receipts == seq(|rows|, i requires 0 <= i < |rows| => Project(rows[i].event))
    requires |s.received| + |rows| <= |Feed(s.log)|
    requires forall i :: 0 <= i < |rows| ==> rows[i].event == Feed(s.log)[|s.received| + i]
    requires Decode(page.nextSince).Ok? && Position(Decode(page.nextSince).value) == |s.received| + |rows|
    ensures ExactlyOnce(s.(since := page.nextSince, received := s.received + page.receipts))
  {
    hide Decode, Position, IsFeed, Numbered;
  }

  lemma {:induction false} ReadKeepsExactlyOnce(s: Consumer, checked: Log, limit: int, rows: seq<Row>, t: Consumer)
    requires ExactlyOnce(s) && Step(s, Read(checked, limit, rows), t)
    ensures ExactlyOnce(t)
  {
    hide IsPage, IsFeed, Decode, Position, Numbered, ExactlyOnce, MappingComplete;
    if Respond(checked, s.since, limit, rows).Ok? {
      NumberedLogIsComplete(checked);
      var page := Respond(checked, s.since, limit, rows).value;
      ServedPage(s, checked, limit, rows);
      ReceivingNextEvents(s, page, rows);
    }
  }

  lemma {:induction false} EmptyPageMeansCaughtUp(s: Consumer, checked: Log, limit: int, rows: seq<Row>, t: Consumer)
    requires ExactlyOnce(s) && Step(s, Read(checked, limit, rows), t)
    requires 1 <= limit <= RECEIPTS_MAX_LIMIT && rows == []
    ensures |s.received| == |s.log.events|
  {
    hide IsPage, IsFeed;
    PageIsNextEvents(s.log, Feed(s.log), Decode(s.since).value, limit, rows);
  }

  lemma {:induction false} StartIsExactlyOnce(run: seq<Consumer>, acts: seq<Act>)
    requires Run(run, acts)
    ensures ExactlyOnce(run[0])
  {
  }

  /**
   * Receipt feed exactly once: after any interleaving of appends and page reads of any limits
   * the consumer holds exactly the first k events in receipt order, and an empty page means it
   * holds all of them.
   */
  lemma {:induction false} FeedIsExactlyOnce(run: seq<Consumer>, acts: seq<Act>, i: nat)
    requires Run(run, acts) && i < |run|
    ensures ExactlyOnce(run[i])
    ensures i < |acts| && acts[i].Read? && 1 <= acts[i].limit <= RECEIPTS_MAX_LIMIT && acts[i].rows == [] ==>
      |run[i].received| == |run[i].log.events|
  {
    hide Step, ExactlyOnce;
    assert i == 0 ==> ExactlyOnce(run[0]) by { StartIsExactlyOnce(run, acts); }
    if i > 0 {
      FeedIsExactlyOnce(run, acts, i - 1);
      assert Step(run[i - 1], acts[i - 1], run[i]);
      match acts[i - 1]
      case Write(later) => WriteStep(run[i - 1], later, run[i]);
      case Read(checked, limit, rows) => ReadKeepsExactlyOnce(run[i - 1], checked, limit, rows, run[i]);
    }
    if i < |acts| && acts[i].Read? && 1 <= acts[i].limit <= RECEIPTS_MAX_LIMIT && acts[i].rows == [] {
      assert Step(run[i], acts[i], run[i + 1]);
      EmptyPageMeansCaughtUp(run[i], acts[i].checked, acts[i].limit, acts[i].rows, run[i + 1]);
    }
  }

  /** The consumer is never stuck: as long as the sequences are representable a page makes progress. */
  lemma {:induction false} UnreadEventsAreServed(s: Consumer, checked: Log, limit: int, rows: seq<Row>, t: Consumer)
    requires ExactlyOnce(s) && Step(s, Read(checked, limit, rows), t)
    requires 1 <= limit <= RECEIPTS_MAX_LIMIT && |s.log.events| <= MAX_SEQUENCE
    ensures |t.received| == Min(|s.received| + limit, |s.log.events|)
  {
    NumberedLogIsComplete(checked);
    PageIsNextEvents(s.log, Feed(s.log), Decode(s.since).value, limit, rows);
    if rows != [] {
      var last := rows[|rows| - 1].sequence;
      SequenceTextIsLossless(DecimalText(last), false, last);
    }
    ServedPage(s, checked, limit, rows);
  }

  /** Exactly when a consumer's page request is answered: a limit in range, and a representable end. */
  lemma {:induction false} RequestIsAnsweredIff(s: Consumer, checked: Log, limit: int, rows: seq<Row>)
    requires ExactlyOnce(s) && Numbered(checked) && IsPage(s.log, Decode(s.since).value, limit, rows)
    ensures Respond(checked, s.since, limit, rows).Ok? <==>
            && 1 <= limit <= 500
            && (rows == [] || |s.received| + |rows| <= 9_223_372_036_854_775_807)
    ensures Respond(checked, s.since, limit, rows).Err? ==>
      Respond(checked, s.since, limit, rows) == Err(INTEGRITY_FAILED)
  {
    hide IsPage, IsFeed, SequenceText, MappingComplete;
    NumberedLogIsComplete(checked);
    if limit >= 1 {
      PageIsNextEvents(s.log, Feed(s.log), Decode(s.since).value, limit, rows);
      if rows != [] {
        var last := rows[|rows| - 1].sequence;
        SequenceTextIsLossless(DecimalText(last), false, last);
        if SequenceText(DecimalText(last), false).Ok? {
          var m := SequenceText(DecimalText(last), false).value;
          SequenceTextIsLossless(DecimalText(last), false, m);
          TextOfNumber(last);
          TextOfNumber(m);
        }
      }
    }
  }

  ghost predicate Unnumbered(log: Log) { exists e :: e in log.events && e.id !in log.order }

  ghost predicate Orphaned(log: Log) { exists id :: id in log.order && forall e :: e in log.events ==> e.id != id }

  /** An event without a sequence, or a sequence without an event, refuses every well-formed request. */
  lemma {:induction false} BrokenMappingIsRefused(checked: Log, since: Cursor, limit: int, rows: seq<Row>)
    requires 1 <= limit <= 500 && Decode(since).Ok? && (Unnumbered(checked) || Orphaned(checked))
    ensures Respond(checked, since, limit, rows) == Err(STORE_UNAVAILABLE)
  {
    hide Decode;
    if Orphaned(checked) {
      var id :| id in checked.order && forall e :: e in checked.events ==> e.id != id;
      assert !MappingComplete(checked);
    }
  }
}
