/**
 * The portfolio delta reducer: folds LIVE observations, possibly late, conflicting or degraded,
 * into a baseline and a chain of deltas, and stores the delta before the baseline.
 *
 * Times are integers. An observation carries its codes as raw text, so the reducer's own
 * validation and its error paths are part of the model.
 */
module PortfolioDelta {
  import opened Basics
  import opened TextOrder
  import opened PortfolioStates

  // ---------------------------------------------------------------------------------------
  // Codes, hashes and the strict validators
  // ---------------------------------------------------------------------------------------

  const CN_PREFIX: Text := [0x43, 0x4E, 0x3A]
  const HK_PREFIX: Text := [0x48, 0x4B, 0x3A]

  predicate IsDigit(u: Unit) { 0x30 <= u <= 0x39 }

  /** CN or HK, a colon and five or six digits. */
  predicate IsCode(t: Text) {
    && 8 <= |t| <= 9
    && (t[..3] == CN_PREFIX || t[..3] == HK_PREFIX)
    && forall i :: 3 <= i < |t| ==> IsDigit(t[i])
  }

  const HASH_PREFIX: Text := [0x73, 0x68, 0x61, 0x32, 0x35, 0x36, 0x3A]

  /** sha256, a colon and sixty-four lower-case hex digits. */
  predicate IsHash(t: Text) {
    && |t| == 71 && t[..7] == HASH_PREFIX
    && forall i :: 7 <= i < 71 ==> IsDigit(t[i]) || 0x61 <= t[i] <= 0x66
  }

  datatype Observation = Observation(state: PortfolioState, hash: Text, codes: seq<Text>, at: int)

  datatype Baseline = Baseline(
    hash: Text, codes: seq<Text>, at: int,
    eligible: bool, lastState: PortfolioState, lastHash: Text, lastAt: int)

  datatype Delta = Delta(previousHash: Text, currentHash: Text, added: seq<Text>, removed: seq<Text>, at: int)

  datatype Fault = BadHash | BadCode | DuplicateCode | BadBaseline | BadDelta

  predicate AllCodes(codes: seq<Text>) {
    forall i :: 0 <= i < |codes| ==> IsCode(codes[i])
  }

  /** Each identity checked, duplicates refused, the rest sorted. */
  function CanonicalCodes(values: seq<Text>): Result<seq<Text>, Fault> {
    if !AllCodes(values) then Err(BadCode)
    else if !Distinct(values) then Err(DuplicateCode)
    else Ok(Sort(values))
  }

  function ValidateObservation(o: Observation): Result<Observation, Fault> {
    if !IsHash(o.hash) then Err(BadHash)
    else match CanonicalCodes(o.codes)
      case Err(fault) => Err(fault)
      case Ok(codes) => Ok(o.(codes := codes))
  }

  /** A stored list is accepted as it is or not at all: it must equal its own sorted form. */
  predicate IsCanonicalList(codes: seq<Text>) {
    AllCodes(codes) && Distinct(codes) && Sort(codes) == codes
  }

  predicate ValidBaseline(b: Baseline) {
    && IsHash(b.hash) && IsCanonicalList(b.codes) && IsHash(b.lastHash)
    && (b.eligible <==> b.lastState == LIVE_COMPLETE)
    && b.at <= b.lastAt
  }

  predicate ValidDelta(d: Delta) {
    && IsHash(d.previousHash) && IsHash(d.currentHash) && d.previousHash != d.currentHash
    && IsCanonicalList(d.added) && IsCanonicalList(d.removed)
    && forall t :: t in d.added ==> t !in d.removed
  }

  lemma {:induction false} CanonicalListsAscend(codes: seq<Text>)
    ensures IsCanonicalList(codes) <==> AllCodes(codes) && Ascending(codes)
  {
    hide IsCode;
    if Distinct(codes) { SortAscends(codes); }
    if Ascending(codes) {
      AscendingIsDistinct(codes);
      SortIsIdentityOnAscending(codes);
    }
  }

  /** What passes the observation check is stored in canonical form. */
  lemma {:induction false} NormalizedCodes(o: Observation)
    requires ValidateObservation(o).Ok?
    ensures var codes := ValidateObservation(o).value.codes;
      IsCanonicalList(codes) && forall t :: t in codes <==> t in o.codes
  {
    hide IsCode;
    var codes := Sort(o.codes);
    SortAscends(o.codes);
    assert AllCodes(codes) by {
      forall i | 0 <= i < |codes| ensures IsCode(codes[i]) {
        assert codes[i] in codes;
      }
    }
    CanonicalListsAscend(codes);
  }

  predicate AreDigits(t: Text) { forall i :: 0 <= i < |t| ==> 0x30 <= t[i] <= 0x39 }

  predicate AreHex(t: Text) {
    forall i :: 0 <= i < |t| ==> 0x30 <= t[i] <= 0x39 || 0x61 <= t[i] <= 0x66
  }

  /** A code is a market, a colon and digits; a hash is its algorithm, a colon and hex digits. */
  lemma {:induction false} TextShapes(t: Text)
    ensures IsCode(t) <==>
            exists d: Text :: 5 <= |d| <= 6 && AreDigits(d)
              && (t == [0x43, 0x4E, 0x3A] + d || t == [0x48, 0x4B, 0x3A] + d)
    ensures IsHash(t) <==>
            exists d: Text :: |d| == 64 && AreHex(d) && t == [0x73, 0x68, 0x61, 0x32, 0x35, 0x36, 0x3A] + d
  {
    if IsCode(t) {
      var d := t[3..];
      assert forall i :: 0 <= i < |d| ==> d[i] == t[i + 3];
      assert AreDigits(d) && t == t[..3] + d;
    }
    if d: Text :| 5 <= |d| <= 6 && AreDigits(d) && (t == [0x43, 0x4E, 0x3A] + d || t == [0x48, 0x4B, 0x3A] + d) {
      assert forall i :: 3 <= i < |t| ==> t[i] == d[i - 3];
    }
    if IsHash(t) {
      var d := t[7..];
      assert forall i :: 0 <= i < |d| ==> d[i] == t[i + 7];
      assert AreHex(d) && t == t[..7] + d;
    }
    if d: Text :| |d| == 64 && AreHex(d) && t == [0x73, 0x68, 0x61, 0x32, 0x35, 0x36, 0x3A] + d {
      assert forall i :: 7 <= i < |t| ==> t[i] == d[i - 7];
    }
  }

  /** A stored delta or baseline is accepted exactly in canonical form. */
  lemma {:induction false} StoredIsValidIff(d: Delta, b: Baseline)
    ensures ValidDelta(d) <==>
            && IsHash(d.previousHash) && IsHash(d.currentHash) && d.currentHash != d.previousHash
            && AllCodes(d.added) && AllCodes(d.removed) && Ascending(d.added) && Ascending(d.removed)
            && !exists t :: t in d.removed && t in d.added
    ensures ValidBaseline(b) <==>
            && IsHash(b.hash) && IsHash(b.lastHash) && AllCodes(b.codes) && Ascending(b.codes)
            && b.eligible == (b.lastState == LIVE_COMPLETE) && b.lastAt >= b.at
  {
    hide IsHash, AllCodes, IsCanonicalList;
    CanonicalListsAscend(d.added);
    CanonicalListsAscend(d.removed);
    CanonicalListsAscend(b.codes);
  }

  // ---------------------------------------------------------------------------------------
  // The reducer
  // ---------------------------------------------------------------------------------------

  /** The entries of `a` that are not in `b`, in their order. */
  function Without(a: seq<Text>, b: seq<Text>): (r: seq<Text>)
    ensures forall t :: t in r <==> t in a && t !in b
  {
    if a == [] then []
    else
      assert forall t :: t in a <==> t == a[0] || t in a[1..];
      if a[0] in b then Without(a[1..], b) else [a[0]] + Without(a[1..], b)
  }

  datatype Reduction = Reduction(baseline: Option<Baseline>, delta: Option<Delta>)

  predicate IsLate(b: Baseline, o: Observation) { o.at < b.lastAt }

  predicate Conflicts(b: Baseline, o: Observation) {
    o.at == b.lastAt && (o.state != b.lastState || o.hash != b.lastHash)
  }

  function Fresh(o: Observation): Baseline {
    Baseline(o.hash, o.codes, o.at, true, LIVE_COMPLETE, o.hash, o.at)
  }

  function Compare(b: Baseline, o: Observation): Delta {
    Delta(b.hash, o.hash, Without(o.codes, b.codes), Without(b.codes, o.codes), o.at)
  }

  function Reduce(previous: Option<Baseline>, current: Observation): Result<Reduction, Fault> {
    match ValidateObservation(current)
    case Err(fault) => Err(fault)
    case Ok(o) =>
      if previous.Some? && !ValidBaseline(previous.value) then Err(BadBaseline)
      else if previous.Some? && IsLate(previous.value, o) then Ok(Reduction(previous, None))
      else if o.state != LIVE_COMPLETE then
        (match previous
         case None => Ok(Reduction(None, None))
         case Some(b) =>
           Ok(Reduction(Some(b.(eligible := false, lastState := o.state, lastHash := o.hash, lastAt := o.at)), None)))
      else if previous.None? || !previous.value.eligible || Conflicts(previous.value, o) then
        Ok(Reduction(Some(Fresh(o)), None))
      else if previous.value.hash == o.hash then Ok(Reduction(Some(Fresh(o)), None))
      else
        var delta := Compare(previous.value, o);
        if !ValidDelta(delta) then Err(BadDelta) else Ok(Reduction(Some(Fresh(o)), Some(delta)))
  }

  lemma {:induction false} WithoutAscends(a: seq<Text>, b: seq<Text>)
    requires Ascending(a) && AllCodes(a)
    ensures Ascending(Without(a, b)) && AllCodes(Without(a, b))
  {
    hide Less, IsCode;
    if a != [] {
      WithoutAscends(a[1..], b);
      var rest := Without(a[1..], b);
      forall i | 0 <= i < |rest| ensures Less(a[0], rest[i]) {
        assert rest[i] in rest;
      }
    }
  }

  /** A delta is exactly the two set differences, and passes the strict validator. */
  lemma {:induction false} ComparisonIsValid(b: Baseline, o: Observation)
    requires ValidBaseline(b) && IsHash(o.hash) && IsCanonicalList(o.codes) && b.hash != o.hash
    ensures ValidDelta(Compare(b, o))
  {
    hide IsCanonicalList, IsHash;
    CanonicalListsAscend(b.codes);
    CanonicalListsAscend(o.codes);
    WithoutAscends(o.codes, b.codes);
    WithoutAscends(b.codes, o.codes);
    CanonicalListsAscend(Without(o.codes, b.codes));
    CanonicalListsAscend(Without(b.codes, o.codes));
  }

  predicate ValidInputs(previous: Option<Baseline>, o: Observation) {
    ValidateObservation(o).Ok? && (previous.Some? ==> ValidBaseline(previous.value))
  }

  /** Closure: the reducer fails exactly on invalid input, and what it builds passes its own validators. */
  lemma {:induction false} ReducerIsClosed(previous: Option<Baseline>, o: Observation)
    ensures Reduce(previous, o).Ok? <==> ValidInputs(previous, o)
    ensures Reduce(previous, o).Ok? ==>
      var r := Reduce(previous, o).value;
      && (r.baseline.Some? ==> ValidBaseline(r.baseline.value))
      && (r.delta.Some? ==> ValidDelta(r.delta.value))
  {
    hide ValidDelta, IsCanonicalList, IsHash, CanonicalCodes;
    if ValidInputs(previous, o) {
      var n := ValidateObservation(o).value;
      NormalizedCodes(o);
      HashIsChecked(o);
      if previous.Some? && previous.value.hash != n.hash {
        ComparisonIsValid(previous.value, n);
      }
    }
  }

  /** With which fault the reducer refuses: the hash, then a code, then a repetition, then the baseline. */
  lemma {:induction false} ReducerRefusesWith(previous: Option<Baseline>, o: Observation)
    ensures Reduce(previous, o).Err? ==>
      Reduce(previous, o).error ==
        if !IsHash(o.hash) then BadHash
        else if exists i :: 0 <= i < |o.codes| && !IsCode(o.codes[i]) then BadCode
        else if exists i, j :: 0 <= i < j < |o.codes| && o.codes[i] == o.codes[j] then DuplicateCode
        else BadBaseline
  {
    hide ValidDelta, ValidBaseline, IsHash, IsCode, Compare;
    ReducerIsClosed(previous, o);
  }

  lemma {:induction false} HashIsChecked(o: Observation)
    requires ValidateObservation(o).Ok?
    ensures IsHash(o.hash) && ValidateObservation(o).value.hash == o.hash
  {
  }

  /** Reducing the same observation again changes nothing and emits nothing. */
  lemma {:induction false} ReplayIsNoOp(previous: Option<Baseline>, o: Observation)
    requires Reduce(previous, o).Ok?
    ensures Reduce(Reduce(previous, o).value.baseline, o) == Ok(Reduction(Reduce(previous, o).value.baseline, None))
  {
    hide ValidDelta, ValidBaseline, IsHash, ValidateObservation, Compare;
    ReducerIsClosed(previous, o);
  }

  // ---------------------------------------------------------------------------------------
  // Runs
  // ---------------------------------------------------------------------------------------

  /**
   * The reducer state with what a reader of the deltas has seen: the codes and hash of the last
   * rebase, the deltas since, and the last accepted observation in canonical form.
   */
  datatype Chain = Chain(
    baseline: Option<Baseline>, startHash: Text, startCodes: seq<Text>,
    deltas: seq<Delta>, last: Option<Observation>)

  const EMPTY_CHAIN := Chain(None, [], [], [], None)

  /** Accepted: valid, and not older than the last one accepted. */
  predicate Accepts(previous: Option<Baseline>, o: Observation) {
    ValidInputs(previous, o) && (previous.Some? ==> !IsLate(previous.value, o))
  }

  /** A complete observation with nothing to compare it with starts again from its own codes. */
  predicate Rebases(previous: Option<Baseline>, o: Observation) {
    && o.state == LIVE_COMPLETE
    && (previous.None? || !previous.value.eligible || Conflicts(previous.value, o))
  }

  function Advance(c: Chain, o: Observation): Chain {
    if !Accepts(c.baseline, o) || Reduce(c.baseline, o).Err? then c
    else
      var n := ValidateObservation(o).value;
      var r := Reduce(c.baseline, o).value;
      if Rebases(c.baseline, o) then Chain(r.baseline, n.hash, n.codes, [], Some(n))
      else
        var deltas := if r.delta.Some? then c.deltas + [r.delta.value] else c.deltas;
        c.(baseline := r.baseline, deltas := deltas, last := Some(n))
  }

  function Fold(observations: seq<Observation>): Chain {
    if observations == [] then EMPTY_CHAIN
    else Advance(Fold(observations[..|observations| - 1]), observations[|observations| - 1])
  }

  /**
   * What every run keeps and the baseline validator does not check: an eligible baseline is
   * the last accepted observation itself.
   */
  predicate Anchored(c: Chain) {
    c.baseline.Some? ==>
      var b := c.baseline.value;
      && ValidBaseline(b) && c.last.Some?
      && b.lastState == c.last.value.state && b.lastHash == c.last.value.hash && b.lastAt == c.last.value.at
      && (b.eligible ==> b.hash == c.last.value.hash && b.at == c.last.value.at && b.codes == c.last.value.codes)
  }

  lemma {:induction false} AdvanceKeepsAnchored(c: Chain, o: Observation)
    requires Anchored(c)
    ensures Anchored(Advance(c, o))
  {
    hide ValidDelta, ValidateObservation, Compare, IsCanonicalList, IsHash;
    ReducerIsClosed(c.baseline, o);
    ValidationKeepsTheRest(o);
  }

  lemma {:induction false} ValidationKeepsTheRest(o: Observation)
    ensures ValidateObservation(o).Ok? ==>
      ValidateObservation(o).value == o.(codes := ValidateObservation(o).value.codes)
  {
  }

  lemma {:induction false} RunIsAnchored(observations: seq<Observation>)
    ensures Anchored(Fold(observations))
  {
    if observations != [] {
      RunIsAnchored(observations[..|observations| - 1]);
      AdvanceKeepsAnchored(Fold(observations[..|observations| - 1]), observations[|observations| - 1]);
    }
  }

  // ---------------------------------------------------------------------------------------
  // No invented removal
  // ---------------------------------------------------------------------------------------

  /**
   * A delta compares the observation with the one accepted immediately before it: that one was
   * complete, carried the previous hash and is strictly earlier, and the lists are exactly the
   * differences of the two code sets.
   */
  lemma {:induction false} DeltaComparesNeighbours(observations: seq<Observation>, o: Observation)
    requires var r := Reduce(Fold(observations).baseline, o); r.Ok? && r.value.delta.Some?
    ensures var d, last := Reduce(Fold(observations).baseline, o).value.delta.value, Fold(observations).last;
      && last.Some? && last.value.state == LIVE_COMPLETE && o.state == LIVE_COMPLETE
      && d.previousHash == last.value.hash && d.currentHash == o.hash
      && last.value.at < o.at == d.at
      && (forall t :: t in d.removed <==> t in last.value.codes && t !in o.codes)
      && (forall t :: t in d.added <==> t in o.codes && t !in last.value.codes)
  {
    hide IsCanonicalList, IsHash, ValidateObservation, Fold, ValidDelta;
    RunIsAnchored(observations);
    ReducerIsClosed(Fold(observations).baseline, o);
    ValidationKeepsTheRest(o);
    NormalizedCodes(o);
  }

  /**
   * The run told without baselines: the last accepted observation and the last complete one.
   * Only once a complete one has been accepted does an older observation count as late.
   */
  datatype Seen = Seen(last: Option<Observation>, complete: Option<Observation>)

  function See(s: Seen, o: Observation): Seen {
    match ValidateObservation(o)
    case Err(_) => s
    case Ok(n) =>
      if s.complete.Some? && s.last.Some? && n.at < s.last.value.at then s
      else Seen(Some(n), if n.state == LIVE_COMPLETE then Some(n) else s.complete)
  }

  function SeenBy(observations: seq<Observation>): Seen {
    if observations == [] then Seen(None, None)
    else See(SeenBy(observations[..|observations| - 1]), observations[|observations| - 1])
  }

  /** The baseline is the last complete observation, marked with the last one of any state. */
  predicate Describes(b: Option<Baseline>, s: Seen) {
    if s.complete.None? then b.None?
    else
      var full := s.complete.value;
      s.last.Some? && b == Some(Baseline(full.hash, full.codes, full.at,
        s.last.value.state == LIVE_COMPLETE, s.last.value.state, s.last.value.hash, s.last.value.at))
  }

  predicate LastIsComplete(s: Seen) {
    s.last.Some? && s.last.value.state == LIVE_COMPLETE ==> s.complete == s.last
  }

  lemma {:induction false} StepDescribes(c: Chain, s: Seen, o: Observation)
    requires Anchored(c) && Describes(c.baseline, s) && c.last == s.last && LastIsComplete(s)
    ensures var next, t := Advance(c, o), See(s, o);
      Describes(next.baseline, t) && next.last == t.last && LastIsComplete(t)
  {
    hide ValidDelta, ValidBaseline, ValidateObservation, Compare, IsHash;
    ReducerIsClosed(c.baseline, o);
    ValidationKeepsTheRest(o);
  }

  /** The stored baseline of any run is what was seen last, and last complete. */
  lemma {:induction false} BaselineIsWhatWasSeen(observations: seq<Observation>)
    ensures var c, s := Fold(observations), SeenBy(observations);
      Describes(c.baseline, s) && c.last == s.last && LastIsComplete(s)
  {
    hide Advance, See, Describes, LastIsComplete;
    if observations != [] {
      var before := observations[..|observations| - 1];
      BaselineIsWhatWasSeen(before);
      RunIsAnchored(before);
      StepDescribes(Fold(before), SeenBy(before), observations[|observations| - 1]);
    } else {
      NothingSeen();
    }
  }

  lemma {:induction false} NothingSeen()
    ensures Describes(EMPTY_CHAIN.baseline, Seen(None, None)) && LastIsComplete(Seen(None, None))
  {
  }

  /**
   * Exactly when a delta is emitted: the observation and the one accepted before it are both
   * complete, it is strictly later, and its hash is another one.
   */
  lemma {:induction false} DeltaIsEmittedIff(observations: seq<Observation>, o: Observation)
    requires ValidateObservation(o).Ok?
    ensures var r, last := Reduce(Fold(observations).baseline, o), SeenBy(observations).last;
      && r.Ok?
      && (r.value.delta.Some? <==>
            && last.Some? && last.value.state == LIVE_COMPLETE && o.state == LIVE_COMPLETE
            && last.value.at < o.at && last.value.hash != o.hash)
  {
    hide ValidDelta, ValidBaseline, ValidateObservation, Compare, IsHash, Fold, SeenBy;
    BaselineIsWhatWasSeen(observations);
    RunIsAnchored(observations);
    ReducerIsClosed(Fold(observations).baseline, o);
    ValidationKeepsTheRest(o);
  }

  predicate EmitsAtLastTime(b: Baseline, o: Observation) {
    && o.at == b.lastAt
    && Reduce(Some(b), o).Ok? && Reduce(Some(b), o).value.delta.Some?
  }

  lemma {:induction false} NoCodesAreCanonical()
    ensures CanonicalCodes([]) == Ok([])
  {
  }

  /**
   * Of a baseline only its validator vouches for, an observation of the very same time can emit
   * a delta, exactly when the baseline is eligible and its last hash is not its own; no run
   * produces such a baseline.
   */
  lemma {:induction false} ValidatorAdmitsSameTimeDelta(b: Baseline)
    requires ValidBaseline(b)
    ensures (exists o :: EmitsAtLastTime(b, o)) <==> b.eligible && b.lastHash != b.hash
  {
    if b.eligible && b.lastHash != b.hash {
      var o := Observation(LIVE_COMPLETE, b.lastHash, [], b.lastAt);
      NoCodesAreCanonical();
      assert ValidateObservation(o) == Ok(o);
      ReducerIsClosed(Some(b), o);
      assert EmitsAtLastTime(b, o);
    } else {
      forall o ensures !EmitsAtLastTime(b, o) {
        ValidationKeepsTheRest(o);
      }
    }
  }

  // ---------------------------------------------------------------------------------------
  // The chain replays to the stored codes
  // ---------------------------------------------------------------------------------------

  function Members(codes: seq<Text>): set<Text> { set t | t in codes }

  function Apply(codes: set<Text>, d: Delta): set<Text> { codes - Members(d.removed) + Members(d.added) }

  function ApplyAll(codes: set<Text>, deltas: seq<Delta>): set<Text> {
    if deltas == [] then codes
    else Apply(ApplyAll(codes, deltas[..|deltas| - 1]), deltas[|deltas| - 1])
  }

  /** Each delta starts from the hash the one before it reached, at a strictly later time. */
  predicate Linked(start: Text, deltas: seq<Delta>, end: Text, time: int) {
    if deltas == [] then start == end
    else
      var d := deltas[|deltas| - 1];
      d.currentHash == end && d.at <= time && Linked(start, deltas[..|deltas| - 1], d.previousHash, d.at - 1)
  }

  predicate Links(c: Chain) {
    c.baseline.Some? ==> Linked(c.startHash, c.deltas, c.baseline.value.hash, c.baseline.value.lastAt)
  }

  predicate Replays(c: Chain) {
    c.baseline.Some? ==> ApplyAll(Members(c.startCodes), c.deltas) == Members(c.baseline.value.codes)
  }

  /** A refresh under the same hash whose codes are nevertheless different. */
  predicate SilentlyChanges(previous: Option<Baseline>, o: Observation) {
    && Accepts(previous, o) && o.state == LIVE_COMPLETE
    && previous.Some? && previous.value.eligible && !Conflicts(previous.value, o)
    && previous.value.hash == o.hash && Members(previous.value.codes) != Members(o.codes)
  }

  lemma {:induction false} NormalizedMembers(o: Observation)
    requires ValidateObservation(o).Ok?
    ensures Members(ValidateObservation(o).value.codes) == Members(o.codes)
  {
    NormalizedCodes(o);
  }

  lemma {:induction false} ComparisonApplies(b: Baseline, o: Observation)
    ensures Apply(Members(b.codes), Compare(b, o)) == Members(o.codes)
  {
  }

  lemma {:induction false} AppendDelta(codes: set<Text>, deltas: seq<Delta>, d: Delta)
    ensures ApplyAll(codes, deltas + [d]) == Apply(ApplyAll(codes, deltas), d)
  {
    assert (deltas + [d])[..|deltas|] == deltas;
  }

  /** What an accepted observation does, case by case. */
  lemma {:induction false} AdvanceEffect(c: Chain, o: Observation)
    requires Accepts(c.baseline, o)
    ensures var n, next := ValidateObservation(o).value, Advance(c, o);
      && next.last == Some(n)
      && (Rebases(c.baseline, o) ==> next == Chain(Some(Fresh(n)), n.hash, n.codes, [], Some(n)))
      && (o.state != LIVE_COMPLETE && c.baseline.None? ==> next == c.(last := Some(n)))
      && (o.state != LIVE_COMPLETE && c.baseline.Some? ==>
            && next.deltas == c.deltas && next.startHash == c.startHash && next.startCodes == c.startCodes
            && next.baseline.Some? && next.baseline.value.hash == c.baseline.value.hash
            && next.baseline.value.codes == c.baseline.value.codes && next.baseline.value.lastAt == o.at)
      && (o.state == LIVE_COMPLETE && !Rebases(c.baseline, o) ==>
            && next.startHash == c.startHash && next.startCodes == c.startCodes && next.baseline == Some(Fresh(n))
            && (c.baseline.value.hash == o.hash ==> next.deltas == c.deltas)
            && (c.baseline.value.hash != o.hash ==> next.deltas == c.deltas + [Compare(c.baseline.value, n)]))
  {
    hide ValidDelta, ValidBaseline, IsHash, ValidateObservation, Compare;
    ReducerIsClosed(c.baseline, o);
    ValidationKeepsTheRest(o);
  }

  /** One step keeps the chain replayable exactly when it is not a silent change under one hash. */
  lemma {:induction false} StepReplaysIff(c: Chain, o: Observation)
    requires Replays(c)
    ensures Replays(Advance(c, o)) <==> !SilentlyChanges(c.baseline, o)
  {
    hide ValidateObservation, ValidBaseline, Compare, Advance, Members, Apply, ApplyAll, Conflicts, IsLate;
    if Accepts(c.baseline, o) {
      var n := ValidateObservation(o).value;
      AdvanceEffect(c, o);
      ValidationKeepsTheRest(o);
      NormalizedMembers(o);
      ApplyNothing(Members(n.codes));
      if c.baseline.Some? {
        ComparisonApplies(c.baseline.value, n);
        AppendDelta(Members(c.startCodes), c.deltas, Compare(c.baseline.value, n));
      }
    } else {
      NotAccepted(c, o);
    }
  }

  lemma {:induction false} ApplyNothing(codes: set<Text>)
    ensures ApplyAll(codes, []) == codes
  {
  }

  lemma {:induction false} NotAccepted(c: Chain, o: Observation)
    requires !Accepts(c.baseline, o)
    ensures Advance(c, o) == c
  {
  }

  lemma {:induction false} StepLinks(c: Chain, o: Observation)
    requires Anchored(c) && Links(c)
    ensures Links(Advance(c, o))
  {
    hide ValidateObservation, ValidBaseline, Advance, Compare;
    if Accepts(c.baseline, o) {
      AdvanceEffect(c, o);
      ValidationKeepsTheRest(o);
      var n := ValidateObservation(o).value;
      if c.baseline.Some? {
        LinkedLater(c.startHash, c.deltas, c.baseline.value.hash, c.baseline.value.lastAt, o.at);
        if o.state == LIVE_COMPLETE && !Rebases(c.baseline, o) && c.baseline.value.hash != o.hash {
          var d := Compare(c.baseline.value, n);
          assert (c.deltas + [d])[..|c.deltas|] == c.deltas;
          CompareFields(c.baseline.value, n);
          LinkedLater(c.startHash, c.deltas, c.baseline.value.hash, c.baseline.value.lastAt, o.at - 1);
        }
      }
    } else {
      NotAccepted(c, o);
    }
  }

  lemma {:induction false} CompareFields(b: Baseline, o: Observation)
    ensures var d := Compare(b, o); d.previousHash == b.hash && d.currentHash == o.hash && d.at == o.at
  {
  }

  lemma {:induction false} LinkedLater(start: Text, deltas: seq<Delta>, end: Text, time: int, later: int)
    requires Linked(start, deltas, end, time) && time <= later
    ensures Linked(start, deltas, end, later)
  {
  }

  lemma {:induction false} RunLinks(observations: seq<Observation>)
    ensures Links(Fold(observations))
  {
    hide Links, Advance;
    if observations != [] {
      var before := observations[..|observations| - 1];
      RunLinks(before);
      RunIsAnchored(before);
      StepLinks(Fold(before), observations[|observations| - 1]);
    } else {
      NoBaselineLinks();
    }
  }

  lemma {:induction false} NoBaselineLinks()
    ensures Links(EMPTY_CHAIN)
  {
  }

  /** Complete observations with the same hash carry the same codes. */
  predicate HashDetermines(observations: seq<Observation>) {
    forall i, j :: 0 <= i < |observations| && 0 <= j < |observations| ==>
      SameHashSameCodes(observations[i], observations[j])
  }

  predicate SameHashSameCodes(a: Observation, b: Observation) {
    a.state == LIVE_COMPLETE && b.state == LIVE_COMPLETE && a.hash == b.hash ==> Members(a.codes) == Members(b.codes)
  }

  predicate ShowsBaseline(o: Observation, b: Baseline) {
    o.state == LIVE_COMPLETE && o.hash == b.hash && Members(o.codes) == Members(b.codes)
  }

  /** The stored hash and codes are those of some complete observation of the run. */
  predicate Observed(observations: seq<Observation>, c: Chain) {
    c.baseline.Some? ==> exists i :: 0 <= i < |observations| && ShowsBaseline(observations[i], c.baseline.value)
  }

  lemma {:induction false} StepObserved(before: seq<Observation>, o: Observation)
    requires Observed(before, Fold(before))
    ensures Observed(before + [o], Advance(Fold(before), o))
  {
    hide ValidateObservation, ValidBaseline, Advance, Compare, Members, Conflicts, IsLate, Fold;
    var c := Fold(before);
    if c.baseline.Some? {
      var i :| 0 <= i < |before| && ShowsBaseline(before[i], c.baseline.value);
      assert (before + [o])[i] == before[i];
    }
    assert (before + [o])[|before|] == o;
    if Accepts(c.baseline, o) {
      AdvanceEffect(c, o);
      ValidationKeepsTheRest(o);
      NormalizedMembers(o);
    } else {
      NotAccepted(c, o);
    }
  }

  lemma {:induction false} RunObserved(observations: seq<Observation>)
    ensures Observed(observations, Fold(observations))
  {
    hide Advance, Observed;
    if observations != [] {
      var before := observations[..|observations| - 1];
      RunObserved(before);
      StepObserved(before, observations[|observations| - 1]);
      assert before + [observations[|observations| - 1]] == observations;
    } else {
      assert Observed([], EMPTY_CHAIN) by { NothingObserved(); }
    }
  }

  lemma {:induction false} NothingObserved()
    ensures Observed([], EMPTY_CHAIN)
  {
  }

  lemma {:induction false} SilentChangeShows(before: seq<Observation>, o: Observation)
    requires SilentlyChanges(Fold(before).baseline, o)
    ensures exists i :: 0 <= i < |before| && !SameHashSameCodes(before[i], o)
  {
    hide Members, Fold, Accepts, Conflicts;
    RunObserved(before);
    var i :| 0 <= i < |before| && ShowsBaseline(before[i], Fold(before).baseline.value);
    assert !SameHashSameCodes(before[i], o);
  }

  lemma {:induction false} HashRulesOutSilentChange(before: seq<Observation>, o: Observation)
    requires HashDetermines(before + [o])
    ensures !SilentlyChanges(Fold(before).baseline, o)
  {
    hide SameHashSameCodes, Fold, SilentlyChanges;
    var all := before + [o];
    forall i | 0 <= i < |before| ensures SameHashSameCodes(before[i], o) {
      assert SameHashSameCodes(all[i], all[|before|]);
    }
    if SilentlyChanges(Fold(before).baseline, o) {
      SilentChangeShows(before, o);
    }
  }

  /**
   * Delta chain: when the hash determines the codes, applying the deltas since the last rebase
   * to its codes gives exactly the stored codes, whatever came late, twice or degraded.
   */
  lemma {:induction false} ChainReplays(observations: seq<Observation>)
    requires HashDetermines(observations)
    ensures Replays(Fold(observations)) && Links(Fold(observations))
  {
    hide HashDetermines, Replays, Links, Advance, SilentlyChanges;
    RunLinks(observations);
    if observations != [] {
      var before := observations[..|observations| - 1];
      var o := observations[|observations| - 1];
      assert before + [o] == observations;
      PrefixDetermines(observations, |before|);
      ChainReplays(before);
      HashRulesOutSilentChange(before, o);
      StepReplaysIff(Fold(before), o);
    } else {
      NothingReplays();
    }
  }

  lemma {:induction false} PrefixDetermines(observations: seq<Observation>, n: nat)
    requires HashDetermines(observations) && n <= |observations|
    ensures HashDetermines(observations[..n])
  {
  }

  lemma {:induction false} NothingReplays()
    ensures Replays(EMPTY_CHAIN)
  {
  }

  /** The stored list itself is determined: only one canonical list has the replayed codes. */
  lemma {:induction false} StoredListIsTheReplay(observations: seq<Observation>, codes: seq<Text>)
    requires HashDetermines(observations) && Fold(observations).baseline.Some? && IsCanonicalList(codes)
    requires var c := Fold(observations); Members(codes) == ApplyAll(Members(c.startCodes), c.deltas)
    ensures codes == Fold(observations).baseline.value.codes
  {
    hide IsHash, Fold, Advance, HashDetermines;
    ChainReplays(observations);
    RunIsAnchored(observations);
    var stored := Fold(observations).baseline.value.codes;
    CanonicalListsAscend(codes);
    CanonicalListsAscend(stored);
    forall t ensures t in codes <==> t in stored {
      assert t in codes <==> t in Members(codes);
      assert t in stored <==> t in Members(stored);
    }
    AscendingIsUnique(codes, stored);
  }

  function SampleHash(): (h: Text)
    ensures IsHash(h)
  {
    HASH_PREFIX + seq(64, i => 0x30)
  }

  function SampleCode(last: Unit): (t: Text)
    requires IsDigit(last)
    ensures IsCode(t) && t[7] == last
  {
    CN_PREFIX + [0x30, 0x30, 0x30, 0x30, last]
  }

  /** Without that assumption the chain breaks: the reducer takes the hash on trust. */
  lemma {:induction false} UntrustworthyHashBreaksTheChain()
    ensures var h := SampleHash();
      var o := Observation(LIVE_COMPLETE, h, [SampleCode(0x31)], 1);
      var p := Observation(LIVE_COMPLETE, h, [SampleCode(0x32)], 2);
      !Replays(Fold([o, p]))
  {
    var h := SampleHash();
    var o := Observation(LIVE_COMPLETE, h, [SampleCode(0x31)], 1);
    var p := Observation(LIVE_COMPLETE, h, [SampleCode(0x32)], 2);
    SingleCode(o);
    SingleCode(p);
    assert [o, p][..1] == [o] && [o][..0] == [];
    assert Fold([]) == EMPTY_CHAIN;
    assert Fold([o]) == Advance(EMPTY_CHAIN, o);
    assert Fold([o, p]) == Advance(Fold([o]), p);
    AdvanceEffect(EMPTY_CHAIN, o);
    RunIsAnchored([o]);
    var c := Fold([o]);
    assert c.baseline == Some(Fresh(o));
    assert Replays(c);
    assert SampleCode(0x31) in Members(o.codes) && SampleCode(0x31) !in Members(p.codes);
    assert SilentlyChanges(c.baseline, p);
    StepReplaysIff(c, p);
  }

  lemma {:induction false} SingleCode(o: Observation)
    requires IsHash(o.hash) && |o.codes| == 1 && IsCode(o.codes[0])
    ensures ValidateObservation(o) == Ok(o)
  {
    assert Sort(o.codes) == o.codes by { SortIsIdentityOnAscending(o.codes); }
  }

  // ---------------------------------------------------------------------------------------
  // The store: the delta is written before the baseline
  // ---------------------------------------------------------------------------------------

  datatype Stored = Stored(baseline: Option<Baseline>, delta: Option<Delta>)

  /** Where a record stops; `Completes` is the run without a crash. */
  datatype Crash = BeforeWrites | BetweenWrites | Completes

  datatype Answer = Recorded(delta: Option<Delta>) | Refused(fault: Fault) | Crashed

  function Record(s: Stored, o: Observation, crash: Crash): (Stored, Answer) {
    if s.baseline.Some? && !ValidBaseline(s.baseline.value) then (s, Refused(BadBaseline))
    else if s.delta.Some? && !ValidDelta(s.delta.value) then (s, Refused(BadDelta))
    else match Reduce(s.baseline, o)
      case Err(fault) => (s, Refused(fault))
      case Ok(r) =>
        if crash == BeforeWrites then (s, Crashed)
        else
          var withDelta := if r.delta.Some? then s.(delta := r.delta) else s;
          if crash == BetweenWrites then (withDelta, Crashed)
          else (if r.baseline.Some? then withDelta.(baseline := r.baseline) else withDelta, Recorded(r.delta))
  }

  /** A record is refused, whatever would crash later, exactly for a bad stored entry or a bad observation. */
  lemma {:induction false} RecordRefusesIff(s: Stored, o: Observation, crash: Crash)
    ensures var (t, answer) := Record(s, o, crash);
      var badBaseline := s.baseline.Some? && !ValidBaseline(s.baseline.value);
      var badDelta := s.delta.Some? && !ValidDelta(s.delta.value);
      && (answer.Refused? <==> badBaseline || badDelta || ValidateObservation(o).Err?)
      && (answer.Refused? ==>
            && t == s
            && answer.fault == (if badBaseline then BadBaseline else if badDelta then BadDelta
                                else ValidateObservation(o).error))
      && (answer == Crashed <==> crash != Completes && !answer.Refused?)
  {
    hide ValidDelta, ValidBaseline, ValidateObservation, Compare;
    ReducerIsClosed(s.baseline, o);
  }

  /** The private store of the two key-value entries. */
  class DeltaStore {
    var baseline: Option<Baseline>
    var delta: Option<Delta>

    constructor ()
      ensures Contents() == Stored(None, None)
    {
      baseline, delta := None, None;
    }

    function Contents(): Stored
      reads this
    {
      Stored(baseline, delta)
    }

    method RecordObservation(o: Observation, crash: Crash) returns (answer: Answer)
      modifies this
      ensures (Contents(), answer) == Record(old(Contents()), o, crash)
    {
      var previous := baseline;
      if previous.Some? && !ValidBaseline(previous.value) { return Refused(BadBaseline); }
      if delta.Some? && !ValidDelta(delta.value) { return Refused(BadDelta); }
      var reduction := Reduce(previous, o);
      if reduction.Err? { return Refused(reduction.error); }
      if crash == BeforeWrites { return Crashed; }
      if reduction.value.delta.Some? { delta := reduction.value.delta; }
      if crash == BetweenWrites { return Crashed; }
      if reduction.value.baseline.Some? { baseline := reduction.value.baseline; }
      answer := Recorded(reduction.value.delta);
    }
  }

  function RecordAll(s: Stored, o: Observation, crashes: seq<Crash>): Stored {
    if crashes == [] then s
    else Record(RecordAll(s, o, crashes[..|crashes| - 1]), o, crashes[|crashes| - 1]).0
  }

  predicate Interrupted(crashes: seq<Crash>) {
    forall i :: 0 <= i < |crashes| ==> crashes[i] != Completes
  }

  /** After crashes the store differs at most in the delta this observation makes. */
  lemma {:induction false} CrashesOnlyWriteTheDelta(s: Stored, o: Observation, crashes: seq<Crash>)
    requires Interrupted(crashes)
    ensures var t := RecordAll(s, o, crashes);
      t == s || (Record(s, o, Completes).1.Recorded? && Record(s, o, Completes).1.delta.Some?
                 && t == s.(delta := Record(s, o, Completes).1.delta))
  {
    hide Reduce, ValidDelta, ValidBaseline;
    if crashes != [] {
      CrashesOnlyWriteTheDelta(s, o, crashes[..|crashes| - 1]);
    }
  }

  /**
   * Crash safety: any number of crashes at any points, followed by one retry that completes,
   * leave the stored delta and baseline and the answer of a run without a crash.
   */
  lemma {:induction false} CrashThenRetry(s: Stored, o: Observation, crashes: seq<Crash>)
    requires Interrupted(crashes)
    ensures Record(RecordAll(s, o, crashes), o, Completes) == Record(s, o, Completes)
  {
    hide Reduce, ValidDelta, ValidBaseline, RecordAll;
    CrashesOnlyWriteTheDelta(s, o, crashes);
    ReducerIsClosed(s.baseline, o);
  }

  lemma {:induction false} BaselineIsNeverLost(previous: Option<Baseline>, o: Observation)
    requires Reduce(previous, o).Ok? && previous.Some?
    ensures Reduce(previous, o).value.baseline.Some?
  {
  }

  /** A completed record repeated changes nothing and reports no event. */
  lemma {:induction false} CompletedRetryIsNoOp(s: Stored, o: Observation)
    requires Record(s, o, Completes).1.Recorded?
    ensures Record(Record(s, o, Completes).0, o, Completes) == (Record(s, o, Completes).0, Recorded(None))
  {
    hide Reduce, ValidDelta, ValidBaseline;
    ReplayIsNoOp(s.baseline, o);
    ReducerIsClosed(s.baseline, o);
    if s.baseline.Some? { BaselineIsNeverLost(s.baseline, o); }
  }

  // ---------------------------------------------------------------------------------------
  // Crashes followed by other observations
  // ---------------------------------------------------------------------------------------

  /**
   * A crash between the two writes followed by another observation: the baseline and the answer
   * are those of a store that never saw the crashed one. Its delta stays published until the
   * next event, and both deltas then leave the same previous hash.
   */
  lemma {:induction false} CrashThenAnother(s: Stored, o: Observation, p: Observation)
    requires Record(s, o, BetweenWrites).1 == Crashed && Record(s, p, Completes).1.Recorded?
    ensures var crashed, clean := Record(s, o, BetweenWrites).0, Record(s, p, Completes);
      var (t, answer) := Record(crashed, p, Completes);
      && t.baseline == clean.0.baseline && answer == clean.1
      && (if answer.delta.Some? then t == clean.0 else t.delta == crashed.delta)
      && (crashed != s && answer.delta.Some? ==>
            && crashed.delta.Some? && s.baseline.Some?
            && crashed.delta.value.previousHash == s.baseline.value.hash
            && answer.delta.value.previousHash == s.baseline.value.hash)
  {
    hide ValidDelta, ValidBaseline, Reduce;
    ReducerIsClosed(s.baseline, o);
    DeltaLeavesBaseline(s.baseline, o);
    DeltaLeavesBaseline(s.baseline, p);
  }

  lemma {:induction false} DeltaLeavesBaseline(previous: Option<Baseline>, o: Observation)
    ensures Reduce(previous, o).Ok? && Reduce(previous, o).value.delta.Some? ==>
      previous.Some? && Reduce(previous, o).value.delta.value.previousHash == previous.value.hash
  {
    hide ValidDelta, ValidBaseline, ValidateObservation;
  }

  datatype Attempt = Attempt(observation: Observation, crash: Crash)

  function RecordRun(s: Stored, attempts: seq<Attempt>): Stored {
    if attempts == [] then s
    else
      var a := attempts[|attempts| - 1];
      Record(RecordRun(s, attempts[..|attempts| - 1]), a.observation, a.crash).0
  }

  /** The observations whose record ran through. */
  function Completed(attempts: seq<Attempt>): seq<Observation> {
    if attempts == [] then []
    else
      var a, before := attempts[|attempts| - 1], Completed(attempts[..|attempts| - 1]);
      if a.crash == Completes then before + [a.observation] else before
  }

  predicate ValidStored(s: Stored) {
    (s.baseline.Some? ==> ValidBaseline(s.baseline.value)) && (s.delta.Some? ==> ValidDelta(s.delta.value))
  }

  lemma {:induction false} RecordKeepsValid(s: Stored, o: Observation, crash: Crash)
    requires ValidStored(s)
    ensures ValidStored(Record(s, o, crash).0)
  {
    hide ValidDelta, ValidBaseline, Reduce;
    ReducerIsClosed(s.baseline, o);
  }

  lemma {:induction false} AdvanceIsReduce(c: Chain, o: Observation)
    ensures Reduce(c.baseline, o).Ok? ==> Advance(c, o).baseline == Reduce(c.baseline, o).value.baseline
    ensures Reduce(c.baseline, o).Err? ==> Advance(c, o) == c
  {
    hide ValidDelta, ValidBaseline, ValidateObservation, Compare;
    ReducerIsClosed(c.baseline, o);
    ValidationKeepsTheRest(o);
  }

  /** A completed record moves the baseline as one step of the fold; a crashed one does not move it. */
  lemma {:induction false} RecordAdvances(s: Stored, c: Chain, o: Observation, crash: Crash)
    requires ValidStored(s) && s.baseline == c.baseline
    ensures Record(s, o, crash).0.baseline == if crash == Completes then Advance(c, o).baseline else s.baseline
  {
    hide ValidDelta, ValidBaseline, Reduce, Advance;
    AdvanceIsReduce(c, o);
    if Reduce(s.baseline, o).Ok? && s.baseline.Some? { BaselineIsNeverLost(s.baseline, o); }
  }

  lemma {:induction false} FoldNext(observations: seq<Observation>, o: Observation)
    ensures Fold(observations + [o]) == Advance(Fold(observations), o)
  {
    assert (observations + [o])[..|observations|] == observations;
  }

  /**
   * Over any observations and any crashes, each followed by whatever comes next, the stored
   * baseline is that of the completed observations alone, so their chain replays to it.
   */
  lemma {:induction false} BaselineIgnoresCrashes(attempts: seq<Attempt>)
    ensures var s := RecordRun(Stored(None, None), attempts);
      ValidStored(s) && s.baseline == Fold(Completed(attempts)).baseline
    ensures HashDetermines(Completed(attempts)) ==> Replays(Fold(Completed(attempts)))
  {
    hide Record, Advance, ValidStored, HashDetermines, Replays, Fold;
    if attempts != [] {
      var before, a := attempts[..|attempts| - 1], attempts[|attempts| - 1];
      BaselineIgnoresCrashes(before);
      var s := RecordRun(Stored(None, None), before);
      RecordKeepsValid(s, a.observation, a.crash);
      RecordAdvances(s, Fold(Completed(before)), a.observation, a.crash);
      FoldNext(Completed(before), a.observation);
    } else {
      NothingIsStored();
    }
    if HashDetermines(Completed(attempts)) { ChainReplays(Completed(attempts)); }
  }

  lemma {:induction false} NothingIsStored()
    ensures ValidStored(Stored(None, None)) && Fold([]).baseline == None
  {
  }

  /**
   * What a completed record publishes, over any earlier records and crashes: a delta exactly when
   * the last recorded observation was complete too, is strictly earlier and has another hash.
   */
  lemma {:induction false} RecordPublishesIff(attempts: seq<Attempt>, o: Observation)
    requires ValidateObservation(o).Ok?
    ensures var s, last := RecordRun(Stored(None, None), attempts), SeenBy(Completed(attempts)).last;
      var (t, answer) := Record(s, o, Completes);
      && answer.Recorded?
      && (answer.delta.Some? <==>
            && last.Some? && last.value.state == LIVE_COMPLETE && o.state == LIVE_COMPLETE
            && last.value.at < o.at && last.value.hash != o.hash)
      && t.delta == (if answer.delta.Some? then answer.delta else s.delta)
      && Describes(t.baseline, SeenBy(Completed(attempts) + [o]))
  {
    hide ValidDelta, ValidBaseline, ValidateObservation, Reduce, Fold, SeenBy, Advance, Describes;
    var done := Completed(attempts);
    BaselineIgnoresCrashes(attempts);
    DeltaIsEmittedIff(done, o);
    BaselineIsWhatWasSeen(done + [o]);
    FoldNext(done, o);
    RecordAdvances(RecordRun(Stored(None, None), attempts), Fold(done), o, Completes);
  }
}
