/** The busy indicator: `show_busy_indicator` and `hide_busy_indicator`
    keep a nesting depth and put up one overlay while the depth is positive.
    The Kivy widgets themselves are not modelled, only whether the overlay
    is present. */
module Busy {

  /** The globals `BUSY_DEPTH` and "is `BUSY_OVERLAY` set". */
  datatype BusyState = BusyState(depth: int, overlay: bool)

  datatype BusyCall = ShowCall | HideCall

  /** The state before any call. */
  const Initial := BusyState(0, false)

  /** `BUSY_DEPTH += 1`, and an overlay is created unless one is present. */
  function AfterShow(s: BusyState): BusyState {
    BusyState(s.depth + 1, true)
  }

  /** `BUSY_DEPTH = max(0, BUSY_DEPTH - 1)`; the overlay is removed when the
      depth is then 0. */
  function AfterHide(s: BusyState): BusyState {
    var d := if s.depth - 1 > 0 then s.depth - 1 else 0;
    BusyState(d, s.overlay && d != 0)
  }

  function Step(s: BusyState, c: BusyCall): BusyState {
    match c
    case ShowCall => AfterShow(s)
    case HideCall => AfterHide(s)
  }

  /** The state after the calls `cs`, first to last. */
  function Run(s: BusyState, cs: seq<BusyCall>): BusyState
    decreases |cs|
  {
    if cs == [] then s else Run(Step(s, cs[0]), cs[1..])
  }

  /** The depth is not negative and the overlay is up exactly while it is positive. */
  predicate Consistent(s: BusyState) {
    s.depth >= 0 && (s.overlay <==> s.depth > 0)
  }

  /** Every call keeps the state consistent. */
  lemma StepConsistent(s: BusyState, c: BusyCall)
    requires Consistent(s)
    ensures Consistent(Step(s, c))
  {
  }

  /** From a consistent state, and so from the initial one, any sequence of
      calls leaves the depth non-negative and the overlay up iff it is positive. */
  lemma {:induction false} RunConsistent(s: BusyState, cs: seq<BusyCall>)
    requires Consistent(s)
    ensures Consistent(Run(s, cs))
    decreases |cs|
  {
    if cs != [] {
      StepConsistent(s, cs[0]);
      RunConsistent(Step(s, cs[0]), cs[1..]);
    }
  }

  /** Hiding never takes the depth below 0, whatever the state. */
  lemma {:induction false} RunDepthNonNegative(s: BusyState, cs: seq<BusyCall>)
    requires s.depth >= 0
    ensures Run(s, cs).depth >= 0
    decreases |cs|
  {
    if cs != [] {
      RunDepthNonNegative(Step(s, cs[0]), cs[1..]);
    }
  }

  /** `with busy():` — a show followed by a hide — puts a consistent state
      back as it was. */
  lemma ShowThenHide(s: BusyState)
    requires Consistent(s)
    ensures AfterHide(AfterShow(s)) == s
  {
  }

  /** A show creates the overlay only on the first level, and a hide removes
      it only when the depth comes back to 0. */
  lemma OverlayTransitions(s: BusyState)
    requires Consistent(s)
    ensures !s.overlay && AfterShow(s).overlay <==> s.depth == 0
    ensures s.overlay && !AfterHide(s).overlay <==> s.depth == 1
  {
  }

  /** The indicator's two globals as fields. */
  class BusyIndicator {
    var depth: int
    var overlay: bool

    function State(): BusyState
      reads this
    {
      BusyState(depth, overlay)
    }

    constructor()
      ensures State() == Initial
    {
      depth := 0;
      overlay := false;
    }

    /** `show_busy_indicator`; `created` says whether a new overlay was put up. */
    method Show() returns (created: bool)
      modifies this
      ensures State() == AfterShow(old(State()))
      ensures created <==> !old(overlay)
      ensures old(Consistent(State())) ==> (created <==> old(depth) == 0)
    {
      depth := depth + 1;
      if overlay {
        return false;
      }
      overlay := true;
      created := true;
    }

    /** `hide_busy_indicator`; `removed` says whether the overlay was taken down. */
    method Hide() returns (removed: bool)
      modifies this
      ensures State() == AfterHide(old(State()))
      ensures removed <==> old(overlay) && depth == 0
      ensures old(Consistent(State())) ==> (removed <==> old(depth) == 1)
    {
      depth := if depth - 1 > 0 then depth - 1 else 0;
      removed := false;
      if overlay && depth == 0 {
        overlay := false;
        removed := true;
      }
    }
  }
}
