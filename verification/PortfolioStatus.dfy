/** The three portfolio states and their order from least to most conservative. */
module PortfolioStates {
  datatype PortfolioState = LIVE_COMPLETE | LKG_VALID | PORTFOLIO_UNKNOWN

  function Conservatism(s: PortfolioState): nat {
    match s
    case LIVE_COMPLETE => 0
    case LKG_VALID => 1
    case PORTFOLIO_UNKNOWN => 2
  }
}

/**
 * The presented portfolio state: derived from the last real complete confirmation, reconciled
 * with the declared state and with the hashes of the stored universe, and guarded by the
 * freshness window that the universe side computes on its own. Times are milliseconds.
 */
module PortfolioStatus {
  import opened Basics
  import opened TextOrder
  import opened PortfolioStates
  import opened LiveUniverse

  const COMPLETE_MAX_AGE_MS := 86_400_000
  const LKG_MAX_AGE_MS := 864_000_000
  const TOLERANCE_MS := 300_000

  datatype Status = Status(
    state: PortfolioState, confirmedAt: Stamp, contentHash: Text, manifestHash: Text, generatedAt: int)

  /** What the status validator leaves: a parseable confirmation, or none with the unknown state. */
  predicate ValidStatus(s: Status) {
    !s.confirmedAt.Unparseable? && (s.state != PORTFOLIO_UNKNOWN ==> s.confirmedAt.At?)
  }

  /** Twenty-four hours, then ten days, both inclusive; a confirmation from the future is not trusted. */
  function Derive(confirmedAt: Stamp, lkgPresent: bool, now: int): PortfolioState {
    if !lkgPresent || !confirmedAt.At? then PORTFOLIO_UNKNOWN
    else
      var age := now - confirmedAt.ms;
      if age < -TOLERANCE_MS then PORTFOLIO_UNKNOWN
      else if age <= COMPLETE_MAX_AGE_MS then LIVE_COMPLETE
      else if age <= LKG_MAX_AGE_MS then LKG_VALID
      else PORTFOLIO_UNKNOWN
  }

  /** The most conservative of some states; unknown without any. */
  method MostConservative(states: seq<PortfolioState>) returns (result: PortfolioState)
    ensures states == [] ==> result == PORTFOLIO_UNKNOWN
    ensures states != [] ==> result in states
    ensures forall i :: 0 <= i < |states| ==> Conservatism(states[i]) <= Conservatism(result)
    ensures |states| == 2 ==> result == MoreConservative(states[0], states[1])
  {
    if |states| == 0 { return PORTFOLIO_UNKNOWN; }
    result := states[0];
    for i := 0 to |states|
      invariant result in states
      invariant forall k :: 0 <= k < i ==> Conservatism(states[k]) <= Conservatism(result)
    {
      if Conservatism(states[i]) > Conservatism(result) { result := states[i]; }
    }
  }

  function MoreConservative(a: PortfolioState, b: PortfolioState): (r: PortfolioState)
    ensures r in {a, b} && Conservatism(a) <= Conservatism(r) && Conservatism(b) <= Conservatism(r)
  {
    if Conservatism(b) > Conservatism(a) then b else a
  }

  /** What the presentation takes from the stored universe and its anchor. */
  datatype View = View(contentHash: Text, manifestHash: Text, anchor: Freshness)

  datatype Presentation = Presentation(
    state: PortfolioState, declared: Option<PortfolioState>, reconciled: bool, stale: bool,
    applyOverlay: bool, inWindow: bool, anchor: Option<Anchor>, fallback: bool, mismatch: bool)

  function Present(view: Option<View>, status: Option<Status>, now: int): Presentation {
    var inWindow := view.Some? && view.value.anchor.inWindow;
    var anchor := if view.Some? then Some(view.value.anchor.anchor) else None;
    var fallback := view.Some? && view.value.anchor.fallback;
    match status
    case None => Presentation(PORTFOLIO_UNKNOWN, None, false, true, false, inWindow, anchor, fallback, false)
    case Some(s) =>
      var recomputed := Derive(s.confirmedAt, view.Some?, now);
      var agreed := MoreConservative(s.state, recomputed);
      var mismatch :=
        view.None? || view.value.contentHash != s.contentHash || view.value.manifestHash != s.manifestHash;
      var state := if mismatch then MoreConservative(agreed, LKG_VALID) else agreed;
      Presentation(state, Some(s.state), state != s.state, state != LIVE_COMPLETE,
                   inWindow && state != PORTFOLIO_UNKNOWN, inWindow, anchor, fallback, mismatch)
  }

  // ---------------------------------------------------------------------------------------
  // The composed presentation
  // ---------------------------------------------------------------------------------------

  /** Reads the universe and the status, resolves the anchor and presents; None stands for a missing document. */
  function ResolvePresentation(universe: Option<Universe>, status: Option<Status>, now: int): Presentation {
    var confirmed := if status.Some? then status.value.confirmedAt else Absent;
    var view := match universe
      case None => None
      case Some(u) => Some(View(u.contentHash, u.manifestHash, ResolveFreshness(u, confirmed, now)));
    Present(view, status, now)
  }

  predicate Stored(status: Option<Status>) { status.Some? ==> ValidStatus(status.value) }

  predicate HashesMatch(u: Universe, s: Status) { u.contentHash == s.contentHash && u.manifestHash == s.manifestHash }

  /** Age of the confirmation, where there is one. */
  function Age(s: Status, now: int): int
    requires s.confirmedAt.At?
  {
    now - s.confirmedAt.ms
  }

  /** The presented state, said without the code: which states are shown at which ages. */
  lemma {:induction false} StateIsExact(universe: Option<Universe>, status: Option<Status>, now: int)
    requires Stored(status)
    ensures var p := ResolvePresentation(universe, status, now);
      && (p.state != PORTFOLIO_UNKNOWN <==>
            && universe.Some? && status.Some? && status.value.state != PORTFOLIO_UNKNOWN
            && -TOLERANCE_MS <= Age(status.value, now) <= LKG_MAX_AGE_MS)
      && (p.state == LIVE_COMPLETE <==>
            && universe.Some? && status.Some? && status.value.state == LIVE_COMPLETE
            && HashesMatch(universe.value, status.value)
            && -TOLERANCE_MS <= Age(status.value, now) <= COMPLETE_MAX_AGE_MS)
  {
  }

  /** On what the ten-day window stands: the confirmation if there is one, else the generation time. */
  function Standing(u: Universe, status: Option<Status>): Option<int> {
    if status.Some? && status.value.confirmedAt.At? then Some(status.value.confirmedAt.ms) else u.generatedAt
  }

  /** Everything else a presentation shows. */
  lemma {:induction false} PresentationIsExact(universe: Option<Universe>, status: Option<Status>, now: int)
    requires Stored(status)
    ensures var p := ResolvePresentation(universe, status, now);
      var confirmed := status.Some? && status.value.confirmedAt.At?;
      && p.declared == (if status.Some? then Some(status.value.state) else None)
      && (p.reconciled <==> status.Some? && p.state != status.value.state)
      && (p.stale <==> p.state != LIVE_COMPLETE)
      && (p.mismatch <==> status.Some? && (universe.None? || !HashesMatch(universe.value, status.value)))
      && p.anchor == (if universe.None? then None else Some(if confirmed then LRCCA else GENERATED_AT))
      && (p.fallback <==> universe.Some? && !confirmed)
      && (p.inWindow <==>
            && universe.Some? && Standing(universe.value, status).Some?
            && -300_000 <= now - Standing(universe.value, status).value <= 864_000_000)
  {
  }

  /**
   * Agreement of the two sides: the overlay is applied iff the presented state is known. The
   * freshness window of the universe side never contradicts the derivation of the status side.
   */
  lemma {:induction false} OverlayIffKnown(universe: Option<Universe>, status: Option<Status>, now: int)
    requires Stored(status)
    ensures var p := ResolvePresentation(universe, status, now);
      p.applyOverlay <==> p.state != PORTFOLIO_UNKNOWN
  {
  }

  /** The state is never less conservative than declared or recomputed, and a mismatch is never complete. */
  lemma {:induction false} NeverLessConservative(universe: Option<Universe>, status: Status, now: int)
    ensures var p := ResolvePresentation(universe, Some(status), now);
      && Conservatism(status.state) <= Conservatism(p.state)
      && Conservatism(Derive(status.confirmedAt, universe.Some?, now)) <= Conservatism(p.state)
      && (p.mismatch ==> Conservatism(LKG_VALID) <= Conservatism(p.state))
      && (p.stale <==> p.state != LIVE_COMPLETE)
  {
  }

  /** From 300 seconds before the confirmation on, time only makes the state more conservative. */
  lemma {:induction false} MoreConservativeWithTime(universe: Option<Universe>, status: Option<Status>,
          now: int, later: int)
    requires Stored(status) && now <= later
    requires status.Some? && status.value.confirmedAt.At? ==> -TOLERANCE_MS <= Age(status.value, now)
    ensures Conservatism(ResolvePresentation(universe, status, now).state)
         <= Conservatism(ResolvePresentation(universe, status, later).state)
    ensures ResolvePresentation(universe, status, later).applyOverlay ==>
      ResolvePresentation(universe, status, now).applyOverlay
  {
    OverlayIffKnown(universe, status, now);
    OverlayIffKnown(universe, status, later);
  }

  /** Before that the state is unknown, so the restriction to later instants is needed exactly there. */
  lemma {:induction false} MonotoneExactlyFromTolerance(universe: Universe, status: Status, now: int)
    requires ValidStatus(status) && status.confirmedAt.At? && status.state != PORTFOLIO_UNKNOWN
    ensures (forall later :: now <= later ==>
               Conservatism(ResolvePresentation(Some(universe), Some(status), now).state)
               <= Conservatism(ResolvePresentation(Some(universe), Some(status), later).state))
            <==> -TOLERANCE_MS <= Age(status, now)
  {
    if -TOLERANCE_MS <= Age(status, now) {
      forall later | now <= later
        ensures Conservatism(ResolvePresentation(Some(universe), Some(status), now).state)
             <= Conservatism(ResolvePresentation(Some(universe), Some(status), later).state)
      {
        MoreConservativeWithTime(Some(universe), Some(status), now, later);
      }
    } else {
      var later := status.confirmedAt.ms - TOLERANCE_MS;
      StateIsExact(Some(universe), Some(status), now);
      StateIsExact(Some(universe), Some(status), later);
      assert now <= later && Conservatism(ResolvePresentation(Some(universe), Some(status), later).state) < 2;
    }
  }
}
