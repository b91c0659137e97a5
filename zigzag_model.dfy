/**
 * The ZigZag pivot detector of `indicators_dataframe/ZigZag.py` as a state
 * machine over values.  A `State` holds everything a `ZigZagClass` object
 * holds; `Step` is one call of `update`.  The class in zigzag.dfy is proved
 * to follow these functions, and the lemmas in zigzag_props.dfy are proved
 * about them.
 */
module ZigZagModel {
  import opened Common

  /** The kind of a swing extreme or of a confirmed pivot ('High' / 'Low'). */
  datatype Extreme = High | Low

  function Opposite(e: Extreme): Extreme
  {
    if e == High then Low else High
  }

  /** A Python float as far as the detector can see it. */
  datatype Float = NaN | NegInf | PosInf | Fin(v: real)

  /** Floating-point `a < b`: false whenever either side is NaN. */
  predicate Less(a: Float, b: Float)
  {
    match a
    case NaN => false
    case NegInf => b.Fin? || b.PosInf?
    case PosInf => false
    case Fin(x) => b.PosInf? || (b.Fin? && x < b.v)
  }

  /** Floating-point unary minus. */
  function Neg(a: Float): Float
  {
    match a
    case NaN => NaN
    case NegInf => PosInf
    case PosInf => NegInf
    case Fin(x) => Fin(-x)
  }

  /** Floating-point `x >= t` against a finite threshold. */
  predicate AtLeast(x: Float, t: real)
  {
    x.PosInf? || (x.Fin? && x.v >= t)
  }

  predicate Positive(x: Float)
  {
    x.Fin? && x.v > 0.0
  }

  lemma RatioAtLeast(a: real, b: real, t: real)
    requires b > 0.0
    ensures a / b >= t <==> a >= t * b
  {
    var q := a / b;
    assert q * b == a;
    if q >= t {
      assert (q - t) * b >= 0.0;
    } else {
      assert (t - q) * b > 0.0;
    }
  }

  /**
   * `_pct_change(reference, new)` with `new` as `moved`: the relative move `(moved - reference) / reference`,
   * defined for the finite, non-zero references the detector divides by.
   */
  function PctChange(reference: Float, moved: Float): (r: Float)
    requires reference.Fin? && reference.v != 0.0
    ensures r.NaN? <==> moved.NaN?
    ensures moved.Fin? ==> r.Fin? && r.v * reference.v == moved.v - reference.v
    ensures reference.v > 0.0 ==> (r.PosInf? <==> moved.PosInf?) && (r.NegInf? <==> moved.NegInf?)
  {
    match moved
    case NaN => NaN
    case Fin(n) => Fin((n - reference.v) / reference.v)
    case PosInf => if reference.v > 0.0 then PosInf else NegInf
    case NegInf => if reference.v > 0.0 then NegInf else PosInf
  }

  /** A rise to `moved` reaches the threshold iff it is at least `t` times the positive reference. */
  lemma RisesBy(reference: Float, moved: Float, t: real)
    requires Positive(reference)
    ensures AtLeast(PctChange(reference, moved), t)
        <==> moved.PosInf? || (moved.Fin? && moved.v - reference.v >= t * reference.v)
  {
    if moved.Fin? {
      RatioAtLeast(moved.v - reference.v, reference.v, t);
    }
  }

  /** The negated change (a fall to `moved`) reaches the threshold iff the fall is at least `t` times the reference. */
  lemma FallsBy(reference: Float, moved: Float, t: real)
    requires Positive(reference)
    ensures AtLeast(Neg(PctChange(reference, moved)), t)
        <==> moved.NegInf? || (moved.Fin? && reference.v - moved.v >= t * reference.v)
  {
    if moved.Fin? {
      RatioAtLeast(reference.v - moved.v, reference.v, t);
      assert PctChange(reference, moved).v == (moved.v - reference.v) / reference.v;
      assert -((moved.v - reference.v) / reference.v) == (reference.v - moved.v) / reference.v;
    }
  }

  /** The rise test of a bootstrap or post-High evaluation, stated on the swing values. */
  lemma RiseTest(low: Float, high: Float, t: real)
    requires Positive(low) && !high.PosInf?
    ensures AtLeast(PctChange(low, high), t) <==> high.Fin? && (high.v - low.v) / low.v >= t
  {
    RisesBy(low, high, t);
    if high.Fin? {
      RatioAtLeast(high.v - low.v, low.v, t);
    }
  }

  /** The fall test of a bootstrap or post-Low evaluation, stated on the swing values. */
  lemma FallTest(high: Float, low: Float, t: real)
    requires Positive(high) && !low.NegInf?
    ensures AtLeast(Neg(PctChange(high, low)), t) <==> low.Fin? && (high.v - low.v) / high.v >= t
  {
    FallsBy(high, low, t);
    if low.Fin? {
      RatioAtLeast(high.v - low.v, high.v, t);
    }
  }

  /** The candidate: the extreme currently tracked but not yet confirmed. */
  datatype Candidate = Candidate(price: Float, idx: int)

  /** One row of `historic_dic`: ZigZag is NaN and type is None until the row is confirmed as a pivot. */
  datatype Row = Row(idx: int, high: Float, low: Float, zigzag: Float, kind: Option<Extreme>)

  /** One row of `debug_dic`; the last-confirmed price and index are None (NaN) on bars that confirmed nothing. */
  datatype DebugRow = DebugRow(
    idx: int, high: Float, low: Float,
    swingHigh: Float, swingHighIdx: Option<int>,
    swingLow: Float, swingLowIdx: Option<int>,
    candidate: Option<Candidate>, confirmed: bool,
    lastType: Option<Extreme>, lastPrice: Option<Float>, lastIdx: Option<int>)

  /** Everything a `ZigZagClass` object holds. */
  datatype State = State(
    pct: real, debug: bool,
    lastType: Option<Extreme>, lastPrice: Option<Float>, lastIdx: Option<int>,
    confirmed: bool,
    swingHigh: Float, swingHighIdx: Option<int>,
    swingLow: Float, swingLowIdx: Option<int>,
    candidate: Option<Candidate>,
    history: seq<Row>,
    indexToPos: map<int, nat>,
    trace: seq<DebugRow>)

  /** One bar fed to `update`. */
  datatype Bar = Bar(idx: int, high: Float, low: Float)

  /** The bars `update` processes: neither price NaN and `high >= low`. */
  predicate ValidBar(high: Float, low: Float)
  {
    !high.NaN? && !low.NaN? && !Less(high, low)
  }

  /** Prices the model accepts: a processed bar has finite prices and a positive low. */
  predicate Admissible(high: Float, low: Float)
  {
    ValidBar(high, low) ==> high.Fin? && low.Fin? && low.v > 0.0
  }

  predicate AllAdmissible(bars: seq<Bar>)
  {
    forall i :: 0 <= i < |bars| ==> Admissible(bars[i].high, bars[i].low)
  }

  // ---------------------------------------------------------------------------
  // The invariant of every reachable state.
  // ---------------------------------------------------------------------------

  /** `_index_to_pos` maps every index seen to the LAST history row carrying it. */
  ghost predicate Indexed(s: State)
  {
    && (forall k :: k in s.indexToPos ==> s.indexToPos[k] < |s.history| && s.history[s.indexToPos[k]].idx == k)
    && (forall i :: 0 <= i < |s.history| ==> s.history[i].idx in s.indexToPos && i <= s.indexToPos[s.history[i].idx])
  }

  /** A row's ZigZag value is set (and finite) exactly when its type is set. */
  ghost predicate Marked(s: State)
  {
    forall i :: 0 <= i < |s.history| ==>
      (s.history[i].kind.None? <==> s.history[i].zigzag.NaN?) &&
      (s.history[i].kind.Some? ==> s.history[i].zigzag.Fin?)
  }

  /** Which sentinels may be present, by state. */
  ghost predicate Shape(s: State)
  {
    match s.lastType
    case None =>
      || (s.swingHighIdx.None? && s.swingLowIdx.None? && s.swingHigh == NegInf && s.swingLow == PosInf)
      || (s.swingHighIdx.Some? && s.swingLowIdx.Some? && Positive(s.swingHigh) && Positive(s.swingLow)
          && s.swingLow.v <= s.swingHigh.v)
    case Some(High) =>
      s.swingHighIdx.Some? && s.swingLowIdx.Some? && Positive(s.swingLow)
      && (s.swingHigh == NegInf || Positive(s.swingHigh))
    case Some(Low) =>
      s.swingHighIdx.Some? && s.swingLowIdx.Some? && Positive(s.swingHigh)
      && (s.swingLow == PosInf || Positive(s.swingLow))
  }

  /**
   * The distance already covered from the last confirmed pivot: after a High
   * pivot H the tracked low is at least `pct * H` below it, after a Low pivot
   * L the tracked high is at least `pct * L` above it.
   */
  ghost predicate Margin(s: State)
  {
    match s.lastType
    case None => s.lastPrice.None? && s.lastIdx.None? && !s.confirmed
    case Some(High) =>
      s.lastPrice.Some? && Positive(s.lastPrice.value) && s.lastIdx.Some? && Positive(s.swingLow)
      && s.lastPrice.value.v - s.swingLow.v >= s.pct * s.lastPrice.value.v
    case Some(Low) =>
      s.lastPrice.Some? && Positive(s.lastPrice.value) && s.lastIdx.Some? && Positive(s.swingHigh)
      && s.swingHigh.v - s.lastPrice.value.v >= s.pct * s.lastPrice.value.v
  }

  /** The swing indices and the candidate's index are indices of bars already recorded. */
  ghost predicate Tracked(s: State)
  {
    && (s.swingHighIdx.Some? ==> s.swingHighIdx.value in s.indexToPos)
    && (s.swingLowIdx.Some? ==> s.swingLowIdx.value in s.indexToPos)
    && (s.candidate.Some? ==> s.candidate.value.idx in s.indexToPos)
  }

  ghost predicate Valid(s: State)
  {
    s.pct > 0.0 && Indexed(s) && Marked(s) && Shape(s) && Margin(s) && Tracked(s)
  }

  /** What the confirmation logic needs: a valid state whose both swings have been seen, and the current bar recorded. */
  ghost predicate Ready(s: State, idx: int)
  {
    Valid(s) && s.swingHighIdx.Some? && s.swingLowIdx.Some? && idx in s.indexToPos
  }

  /** The invariant does not depend on the candidate, the debug trace or the `confirmed` flag once a pivot exists. */
  lemma ValidIgnoresCandidate(s: State, r: State)
    requires Valid(s)
    requires r == s.(candidate := r.candidate, confirmed := r.confirmed, trace := r.trace)
    requires r.lastType.None? ==> !r.confirmed
    requires r.candidate.Some? ==> r.candidate.value.idx in r.indexToPos
    ensures Valid(r)
  {
  }

  /** A swing update keeps the invariant once the parts that read the swings still hold. */
  lemma ValidAfterSwings(s: State, r: State)
    requires Valid(s)
    requires r == s.(swingHigh := r.swingHigh, swingHighIdx := r.swingHighIdx,
                     swingLow := r.swingLow, swingLowIdx := r.swingLowIdx)
    requires Shape(r) && Margin(r) && Tracked(r)
    ensures Valid(r)
  {
  }

  /** After a High, a lower low widens the gap to the High and restarts the high search. */
  lemma LowerLowAfterHigh(s: State, low: Float, idx: int)
    requires Valid(s) && s.lastType == Some(High) && Positive(low) && Less(low, s.swingLow) && idx in s.indexToPos
    ensures Valid(ResetSwing(s.(swingLow := low, swingLowIdx := Some(idx)), High, idx))
  {
    var r := ResetSwing(s.(swingLow := low, swingLowIdx := Some(idx)), High, idx);
    assert low.v < s.swingLow.v;
    assert Shape(r) && Margin(r);
    ValidAfterSwings(s, r);
  }

  /** After a High, a higher high is a new positive high swing. */
  lemma HigherHighAfterHigh(s: State, high: Float, idx: int)
    requires Valid(s) && s.lastType == Some(High) && Positive(high) && idx in s.indexToPos
    ensures Valid(s.(swingHigh := high, swingHighIdx := Some(idx)))
  {
    var r := s.(swingHigh := high, swingHighIdx := Some(idx));
    assert Shape(r) && Margin(r);
    ValidAfterSwings(s, r);
  }

  /** After a Low, a higher high widens the gap to the Low and restarts the low search. */
  lemma HigherHighAfterLow(s: State, high: Float, idx: int)
    requires Valid(s) && s.lastType == Some(Low) && Positive(high) && Less(s.swingHigh, high) && idx in s.indexToPos
    ensures Valid(ResetSwing(s.(swingHigh := high, swingHighIdx := Some(idx)), Low, idx))
  {
    var r := ResetSwing(s.(swingHigh := high, swingHighIdx := Some(idx)), Low, idx);
    assert high.v > s.swingHigh.v;
    assert Shape(r) && Margin(r);
    ValidAfterSwings(s, r);
  }

  /** After a Low, a lower low is a new positive low swing. */
  lemma LowerLowAfterLow(s: State, low: Float, idx: int)
    requires Valid(s) && s.lastType == Some(Low) && Positive(low) && idx in s.indexToPos
    ensures Valid(s.(swingLow := low, swingLowIdx := Some(idx)))
  {
    var r := s.(swingLow := low, swingLowIdx := Some(idx));
    assert Shape(r) && Margin(r);
    ValidAfterSwings(s, r);
  }

  /** The row a swing index names lies inside the history. */
  lemma SwingRows(s: State)
    requires Valid(s) && s.swingHighIdx.Some? && s.swingLowIdx.Some?
    ensures s.indexToPos[s.swingHighIdx.value] < |s.history|
    ensures s.indexToPos[s.swingLowIdx.value] < |s.history|
  {
    assert Tracked(s) && Indexed(s);
    var h, l := s.swingHighIdx.value, s.swingLowIdx.value;
    assert h in s.indexToPos && l in s.indexToPos;
  }

  // ---------------------------------------------------------------------------
  // Construction and the parts of `update`.
  // ---------------------------------------------------------------------------

  /** The state `__init__` builds. */
  function Start(pct: real, debug: bool): State
  {
    State(pct, debug, None, None, None, false, NegInf, None, PosInf, None, None, [], map[], [])
  }

  /** `ZigZagClass(pct, debug)`: rejected iff `pct <= 0`, otherwise the bootstrap state with nothing recorded. */
  function Init(pct: real, debug: bool): (r: Result<State>)
    ensures r.Err? <==> pct <= 0.0
    ensures r.Ok? ==> Valid(r.value) && r.value.pct == pct && r.value.debug == debug
    ensures r.Ok? ==> r.value.lastType.None? && r.value.swingHigh == NegInf && r.value.swingLow == PosInf
    ensures r.Ok? ==> r.value.candidate.None? && r.value.history == [] && r.value.trace == []
  {
    if pct <= 0.0 then Err("pct must be > 0") else Ok(Start(pct, debug))
  }

  /** `_update_df`: record the bar as a new last row and point its index at that row. */
  function AppendRow(s: State, high: Float, low: Float, idx: int): (r: State)
    ensures Valid(s) ==> Valid(r)
    ensures r.history == s.history + [Row(idx, high, low, NaN, None)]
    ensures idx in r.indexToPos && r.indexToPos[idx] == |s.history|
    ensures r == s.(history := r.history, indexToPos := r.indexToPos)
  {
    s.(history := s.history + [Row(idx, high, low, NaN, None)], indexToPos := s.indexToPos[idx := |s.history|])
  }

  /** `_reset_swings`: put the swing of the given kind back to its sentinel, at the current bar's index. */
  function ResetSwing(s: State, kind: Extreme, idx: int): (r: State)
    ensures r == s.(swingHigh := r.swingHigh, swingHighIdx := r.swingHighIdx,
                    swingLow := r.swingLow, swingLowIdx := r.swingLowIdx)
    ensures kind == High ==>
      r.swingHigh == NegInf && r.swingHighIdx == Some(idx) && r.swingLow == s.swingLow && r.swingLowIdx == s.swingLowIdx
    ensures kind == Low ==>
      r.swingLow == PosInf && r.swingLowIdx == Some(idx) && r.swingHigh == s.swingHigh && r.swingHighIdx == s.swingHighIdx
  {
    if kind == High then s.(swingHigh := NegInf, swingHighIdx := Some(idx))
    else s.(swingLow := PosInf, swingLowIdx := Some(idx))
  }

  /** Maximum of two floats when neither is NaN. */
  predicate IsMax(m: Float, a: Float, b: Float)
  {
    !Less(m, a) && !Less(m, b) && (m == a || m == b)
  }

  predicate IsMin(m: Float, a: Float, b: Float)
  {
    !Less(a, m) && !Less(b, m) && (m == a || m == b)
  }

  /** The swing update of the bootstrap phase: independent running maximum of the highs and minimum of the lows. */
  function BootstrapSwings(s: State, high: Float, low: Float, idx: int): (r: State)
    requires Valid(s) && s.lastType.None? && ValidBar(high, low) && Admissible(high, low) && idx in s.indexToPos
    ensures Ready(r, idx)
    ensures r == s.(swingHigh := r.swingHigh, swingHighIdx := r.swingHighIdx,
                    swingLow := r.swingLow, swingLowIdx := r.swingLowIdx)
    ensures IsMax(r.swingHigh, s.swingHigh, high) && IsMin(r.swingLow, s.swingLow, low)
    ensures r.swingHighIdx == if Less(s.swingHigh, high) then Some(idx) else s.swingHighIdx
    ensures r.swingLowIdx == if Less(low, s.swingLow) then Some(idx) else s.swingLowIdx
  {
    var t := if Less(s.swingHigh, high) then s.(swingHigh := high, swingHighIdx := Some(idx)) else s;
    if Less(low, t.swingLow) then t.(swingLow := low, swingLowIdx := Some(idx)) else t
  }

  /**
   * The swing update after a High pivot: a lower low takes priority and
   * restarts the search for a high at this bar; only otherwise may the high rise.
   */
  function SwingsAfterHigh(s: State, high: Float, low: Float, idx: int): (r: State)
    requires Valid(s) && s.lastType == Some(High) && ValidBar(high, low) && Admissible(high, low) && idx in s.indexToPos
    ensures Ready(r, idx)
    ensures r == s.(swingHigh := r.swingHigh, swingHighIdx := r.swingHighIdx,
                    swingLow := r.swingLow, swingLowIdx := r.swingLowIdx)
    ensures Less(low, s.swingLow) ==>
      r.swingLow == low && r.swingLowIdx == Some(idx) && r.swingHigh == NegInf && r.swingHighIdx == Some(idx)
    ensures !Less(low, s.swingLow) ==>
      r.swingLow == s.swingLow && r.swingLowIdx == s.swingLowIdx && IsMax(r.swingHigh, s.swingHigh, high)
      && (r.swingHighIdx == if Less(s.swingHigh, high) then Some(idx) else s.swingHighIdx)
  {
    if Less(low, s.swingLow) then
      LowerLowAfterHigh(s, low, idx);
      ResetSwing(s.(swingLow := low, swingLowIdx := Some(idx)), High, idx)
    else if Less(s.swingHigh, high) then
      HigherHighAfterHigh(s, high, idx);
      s.(swingHigh := high, swingHighIdx := Some(idx))
    else s
  }

  /**
   * The swing update after a Low pivot: a higher high takes priority and
   * restarts the search for a low at this bar; only otherwise may the low fall.
   */
  function SwingsAfterLow(s: State, high: Float, low: Float, idx: int): (r: State)
    requires Valid(s) && s.lastType == Some(Low) && ValidBar(high, low) && Admissible(high, low) && idx in s.indexToPos
    ensures Ready(r, idx)
    ensures r == s.(swingHigh := r.swingHigh, swingHighIdx := r.swingHighIdx,
                    swingLow := r.swingLow, swingLowIdx := r.swingLowIdx)
    ensures Less(s.swingHigh, high) ==>
      r.swingHigh == high && r.swingHighIdx == Some(idx) && r.swingLow == PosInf && r.swingLowIdx == Some(idx)
    ensures !Less(s.swingHigh, high) ==>
      r.swingHigh == s.swingHigh && r.swingHighIdx == s.swingHighIdx && IsMin(r.swingLow, s.swingLow, low)
      && (r.swingLowIdx == if Less(low, s.swingLow) then Some(idx) else s.swingLowIdx)
  {
    if Less(s.swingHigh, high) then
      HigherHighAfterLow(s, high, idx);
      ResetSwing(s.(swingHigh := high, swingHighIdx := Some(idx)), Low, idx)
    else if Less(low, s.swingLow) then
      LowerLowAfterLow(s, low, idx);
      s.(swingLow := low, swingLowIdx := Some(idx))
    else s
  }

  /** `_update_swings`: the swing update chosen by the last confirmed pivot type. */
  function UpdateSwings(s: State, high: Float, low: Float, idx: int): (r: State)
    requires Valid(s) && ValidBar(high, low) && Admissible(high, low) && idx in s.indexToPos
    ensures Ready(r, idx)
    ensures r == s.(swingHigh := r.swingHigh, swingHighIdx := r.swingHighIdx,
                    swingLow := r.swingLow, swingLowIdx := r.swingLowIdx)
  {
    match s.lastType
    case None => BootstrapSwings(s, high, low, idx)
    case Some(High) => SwingsAfterHigh(s, high, low, idx)
    case Some(Low) => SwingsAfterLow(s, high, low, idx)
  }

  /** The history after the pivot `(price, kind)` is written into the row `_index_to_pos` names for index `k`. */
  function PivotWritten(s: State, k: int, price: Float, kind: Extreme): seq<Row>
    requires k in s.indexToPos && s.indexToPos[k] < |s.history|
  {
    var pos := s.indexToPos[k];
    s.history[pos := s.history[pos].(zigzag := price, kind := Some(kind))]
  }

  /**
   * `_confirm_pivot`: write the pivot into the row `_index_to_pos` names for
   * its index, make it the last confirmed pivot and clear the candidate.
   */
  function ConfirmPivot(s: State, price: Float, idx: int, kind: Extreme): (r: State)
    requires idx in s.indexToPos && s.indexToPos[idx] < |s.history|
    ensures r == s.(history := PivotWritten(s, idx, price, kind), lastType := Some(kind), lastPrice := Some(price),
                    lastIdx := Some(idx), confirmed := true, candidate := None)
  {
    s.(history := PivotWritten(s, idx, price, kind),
       lastType := Some(kind), lastPrice := Some(price), lastIdx := Some(idx),
       confirmed := true, candidate := None)
  }

  /** The change tested by the bootstrap "down" branch, as the source computes it: `_pct_change(swing_high, swing_low)`. */
  function BootstrapDownChangeAsWritten(swingHigh: Float, swingLow: Float): Float
    requires Positive(swingHigh)
  {
    PctChange(swingHigh, swingLow)
  }

  /**
   * Confirm the tracked low as a Low pivot (`_confirm_pivot`) and restart the
   * low search at `idx` (`_reset_swings`); allowed once the high has risen at
   * least `pct` times the low above it.
   */
  function ConfirmLow(s: State, idx: int): (r: State)
    requires Ready(s, idx) && Positive(s.swingLow) && Positive(s.swingHigh)
    requires s.swingHigh.v - s.swingLow.v >= s.pct * s.swingLow.v
    ensures Valid(r) && r.confirmed && r.candidate.None?
    ensures r.lastType == Some(Low) && r.lastPrice == Some(s.swingLow) && r.lastIdx == s.swingLowIdx
    ensures r.swingHigh == s.swingHigh && r.swingHighIdx == s.swingHighIdx
    ensures r.swingLow == PosInf && r.swingLowIdx == Some(idx)
    ensures (SwingRows(s); r.history == PivotWritten(s, s.swingLowIdx.value, s.swingLow, Low))
    ensures r.pct == s.pct && r.debug == s.debug && r.trace == s.trace && r.indexToPos == s.indexToPos
  {
    SwingRows(s);
    ResetSwing(ConfirmPivot(s, s.swingLow, s.swingLowIdx.value, Low), Low, idx)
  }

  /**
   * Confirm the tracked high as a High pivot and restart the high search at
   * `idx`; allowed once the low has fallen at least `pct` times the high below it.
   */
  function ConfirmHigh(s: State, idx: int): (r: State)
    requires Ready(s, idx) && Positive(s.swingLow) && Positive(s.swingHigh)
    requires s.swingHigh.v - s.swingLow.v >= s.pct * s.swingHigh.v
    ensures Valid(r) && r.confirmed && r.candidate.None?
    ensures r.lastType == Some(High) && r.lastPrice == Some(s.swingHigh) && r.lastIdx == s.swingHighIdx
    ensures r.swingLow == s.swingLow && r.swingLowIdx == s.swingLowIdx
    ensures r.swingHigh == NegInf && r.swingHighIdx == Some(idx)
    ensures (SwingRows(s); r.history == PivotWritten(s, s.swingHighIdx.value, s.swingHigh, High))
    ensures r.pct == s.pct && r.debug == s.debug && r.trace == s.trace && r.indexToPos == s.indexToPos
  {
    SwingRows(s);
    ResetSwing(ConfirmPivot(s, s.swingHigh, s.swingHighIdx.value, High), High, idx)
  }

  /**
   * The bootstrap branch of step 3: the extreme found first is the pivot to
   * confirm, once the later one has moved `pct` away from it; when both were
   * found on the same bar nothing is confirmed and the candidate is kept.
   */
  function EvaluateBootstrap(s: State, idx: int): (r: State)
    requires Ready(s, idx) && s.lastType.None?
    ensures Valid(r)
    ensures r.pct == s.pct && r.debug == s.debug && r.trace == s.trace && r.indexToPos == s.indexToPos
    ensures s.swingLowIdx == s.swingHighIdx ==> r == s.(confirmed := false)
    ensures !r.confirmed ==> r == s.(confirmed := false, candidate := r.candidate)
    ensures r.confirmed ==> r.lastIdx.Some? && r.lastPrice.Some?
    ensures r.confirmed ==> r.lastPrice == Some(if r.lastType == Some(Low) then s.swingLow else s.swingHigh)
    ensures r.confirmed ==> (SwingRows(s); r.lastIdx == (if r.lastType == Some(Low) then s.swingLowIdx else s.swingHighIdx)
                             && r.lastType.Some?
                             && r.history == PivotWritten(s, r.lastIdx.value, r.lastPrice.value, r.lastType.value))
    ensures r.confirmed ==> r.candidate == Some(Candidate(if r.lastType == Some(Low) then PosInf else NegInf, idx))
  {
    var lo, hi := s.swingLowIdx.value, s.swingHighIdx.value;
    if lo < hi then BootstrapUp(s, idx)
    else if hi < lo then BootstrapDown(s, idx)
    else
      var r := s.(confirmed := false);
      ValidIgnoresCandidate(s, r);
      r
  }

  /**
   * Steps 3b-3c for a Low: test the rise from the tracked low to the tracked
   * high, confirm the low when it reaches `pct`, then make the low swing
   * (the fresh sentinel after a confirmation) the candidate.
   */
  function SettleLow(s: State, idx: int): (r: State)
    requires Ready(s, idx) && !s.confirmed && Positive(s.swingLow)
    requires s.lastType != Some(Low)
    ensures Valid(r)
    ensures r.pct == s.pct && r.debug == s.debug && r.trace == s.trace && r.indexToPos == s.indexToPos
    ensures r.confirmed <==> s.swingHigh.Fin? && (s.swingHigh.v - s.swingLow.v) / s.swingLow.v >= s.pct
    ensures r.confirmed ==>
      && r.lastType == Some(Low) && r.lastPrice == Some(s.swingLow) && r.lastIdx == s.swingLowIdx
      && r.swingHigh == s.swingHigh && r.swingLow == PosInf && r.swingLowIdx == Some(idx)
      && (SwingRows(s); r.history == PivotWritten(s, s.swingLowIdx.value, s.swingLow, Low))
    ensures !r.confirmed ==> r == s.(candidate := r.candidate)
    ensures r.candidate == Some(Candidate(r.swingLow, r.swingLowIdx.value))
  {
    RiseTest(s.swingLow, s.swingHigh, s.pct);
    if AtLeast(PctChange(s.swingLow, s.swingHigh), s.pct) then
      var c := ConfirmLow(s, idx);
      var r := c.(candidate := Some(Candidate(c.swingLow, c.swingLowIdx.value)));
      ValidIgnoresCandidate(c, r);
      r
    else
      var r := s.(candidate := Some(Candidate(s.swingLow, s.swingLowIdx.value)));
      ValidIgnoresCandidate(s, r);
      r
  }

  /**
   * Steps 3b-3c for a High: test the fall from the tracked high to the
   * tracked low (the negated change), confirm the high when it reaches
   * `pct`, then make the high swing the candidate.
   */
  function SettleHigh(s: State, idx: int): (r: State)
    requires Ready(s, idx) && !s.confirmed && Positive(s.swingHigh)
    requires s.lastType != Some(High)
    ensures Valid(r)
    ensures r.pct == s.pct && r.debug == s.debug && r.trace == s.trace && r.indexToPos == s.indexToPos
    ensures r.confirmed <==> s.swingLow.Fin? && (s.swingHigh.v - s.swingLow.v) / s.swingHigh.v >= s.pct
    ensures r.confirmed ==>
      && r.lastType == Some(High) && r.lastPrice == Some(s.swingHigh) && r.lastIdx == s.swingHighIdx
      && r.swingLow == s.swingLow && r.swingHigh == NegInf && r.swingHighIdx == Some(idx)
      && (SwingRows(s); r.history == PivotWritten(s, s.swingHighIdx.value, s.swingHigh, High))
    ensures !r.confirmed ==> r == s.(candidate := r.candidate)
    ensures r.candidate == Some(Candidate(r.swingHigh, r.swingHighIdx.value))
  {
    FallTest(s.swingHigh, s.swingLow, s.pct);
    if AtLeast(Neg(PctChange(s.swingHigh, s.swingLow)), s.pct) then
      var c := ConfirmHigh(s, idx);
      var r := c.(candidate := Some(Candidate(c.swingHigh, c.swingHighIdx.value)));
      ValidIgnoresCandidate(c, r);
      r
    else
      var r := s.(candidate := Some(Candidate(s.swingHigh, s.swingHighIdx.value)));
      ValidIgnoresCandidate(s, r);
      r
  }

  /** The bootstrap "up" case: the low came first and is confirmed once the high is `pct` above it. */
  function BootstrapUp(s: State, idx: int): (r: State)
    requires Ready(s, idx) && s.lastType.None? && s.swingLowIdx.value < s.swingHighIdx.value
    ensures Valid(r)
    ensures r.pct == s.pct && r.debug == s.debug && r.trace == s.trace && r.indexToPos == s.indexToPos
    ensures r.confirmed <==> (s.swingHigh.v - s.swingLow.v) / s.swingLow.v >= s.pct
    ensures r.confirmed ==>
      && r.lastType == Some(Low) && r.lastPrice == Some(s.swingLow) && r.lastIdx == s.swingLowIdx
      && r.swingHigh == s.swingHigh && r.swingLow == PosInf && r.swingLowIdx == Some(idx)
      && (SwingRows(s); r.history == PivotWritten(s, s.swingLowIdx.value, s.swingLow, Low))
    ensures !r.confirmed ==> r == s.(confirmed := false, candidate := r.candidate)
    ensures r.candidate == Some(Candidate(r.swingLow, r.swingLowIdx.value))
  {
    var s0 := s.(confirmed := false);
    ValidIgnoresCandidate(s, s0);
    SettleLow(s0, idx)
  }

  /** The bootstrap "down" case, corrected: the high came first and is confirmed once the low is `pct` below it. */
  function BootstrapDown(s: State, idx: int): (r: State)
    requires Ready(s, idx) && s.lastType.None? && s.swingHighIdx.value < s.swingLowIdx.value
    ensures Valid(r)
    ensures r.pct == s.pct && r.debug == s.debug && r.trace == s.trace && r.indexToPos == s.indexToPos
    ensures r.confirmed <==> (s.swingHigh.v - s.swingLow.v) / s.swingHigh.v >= s.pct
    ensures r.confirmed ==>
      && r.lastType == Some(High) && r.lastPrice == Some(s.swingHigh) && r.lastIdx == s.swingHighIdx
      && r.swingLow == s.swingLow && r.swingHigh == NegInf && r.swingHighIdx == Some(idx)
      && (SwingRows(s); r.history == PivotWritten(s, s.swingHighIdx.value, s.swingHigh, High))
    ensures !r.confirmed ==> r == s.(confirmed := false, candidate := r.candidate)
    ensures r.candidate == Some(Candidate(r.swingHigh, r.swingHighIdx.value))
  {
    var s0 := s.(confirmed := false);
    ValidIgnoresCandidate(s, s0);
    SettleHigh(s0, idx)
  }

  /** Step 3 after a High pivot: confirm the tracked low once the high has risen `pct` above it. */
  function EvaluateAfterHigh(s: State, idx: int): (r: State)
    requires Ready(s, idx) && s.lastType == Some(High)
    ensures Valid(r)
    ensures r.pct == s.pct && r.debug == s.debug && r.trace == s.trace && r.indexToPos == s.indexToPos
    ensures r.confirmed <==> s.swingHigh.Fin? && (s.swingHigh.v - s.swingLow.v) / s.swingLow.v >= s.pct
    ensures r.confirmed ==>
      && r.lastType == Some(Low) && r.lastPrice == Some(s.swingLow) && r.lastIdx == s.swingLowIdx
      && r.swingHigh == s.swingHigh && r.swingLow == PosInf && r.swingLowIdx == Some(idx)
      && (SwingRows(s); r.history == PivotWritten(s, s.swingLowIdx.value, s.swingLow, Low))
    ensures !r.confirmed ==> r == s.(confirmed := false, candidate := r.candidate)
    ensures r.candidate == Some(Candidate(r.swingLow, r.swingLowIdx.value))
  {
    var s0 := s.(confirmed := false);
    ValidIgnoresCandidate(s, s0);
    SettleLow(s0, idx)
  }

  /** Step 3 after a Low pivot: confirm the tracked high once the low has fallen `pct` below it. */
  function EvaluateAfterLow(s: State, idx: int): (r: State)
    requires Ready(s, idx) && s.lastType == Some(Low)
    ensures Valid(r)
    ensures r.pct == s.pct && r.debug == s.debug && r.trace == s.trace && r.indexToPos == s.indexToPos
    ensures r.confirmed <==> s.swingLow.Fin? && (s.swingHigh.v - s.swingLow.v) / s.swingHigh.v >= s.pct
    ensures r.confirmed ==>
      && r.lastType == Some(High) && r.lastPrice == Some(s.swingHigh) && r.lastIdx == s.swingHighIdx
      && r.swingLow == s.swingLow && r.swingHigh == NegInf && r.swingHighIdx == Some(idx)
      && (SwingRows(s); r.history == PivotWritten(s, s.swingHighIdx.value, s.swingHigh, High))
    ensures !r.confirmed ==> r == s.(confirmed := false, candidate := r.candidate)
    ensures r.candidate == Some(Candidate(r.swingHigh, r.swingHighIdx.value))
  {
    var s0 := s.(confirmed := false);
    ValidIgnoresCandidate(s, s0);
    SettleHigh(s0, idx)
  }

  /** Step 3 of `update`: the confirmation test chosen by the last confirmed pivot type. */
  function Evaluate(s: State, idx: int): (r: State)
    requires Ready(s, idx)
    ensures Valid(r)
    ensures r.pct == s.pct && r.debug == s.debug && r.trace == s.trace && r.indexToPos == s.indexToPos
    ensures !r.confirmed ==> r == s.(confirmed := false, candidate := r.candidate)
    ensures r.confirmed ==> r.lastType.Some? && (s.lastType.Some? ==> r.lastType.value == Opposite(s.lastType.value))
    ensures r.confirmed ==> r.lastIdx.Some? && r.lastPrice.Some?
    ensures r.confirmed ==> r.lastPrice == Some(if r.lastType == Some(Low) then s.swingLow else s.swingHigh)
    ensures r.confirmed ==> (SwingRows(s); r.lastIdx == (if r.lastType == Some(Low) then s.swingLowIdx else s.swingHighIdx)
                             && r.history == PivotWritten(s, r.lastIdx.value, r.lastPrice.value, r.lastType.value))
    // the candidate: after a confirmation the just-reset sentinel at this bar, otherwise the swing to be confirmed next
    ensures r.confirmed ==> r.candidate == Some(Candidate(if r.lastType == Some(Low) then PosInf else NegInf, idx))
    ensures s.lastType == Some(High) ==> r.candidate == Some(Candidate(r.swingLow, r.swingLowIdx.value))
    ensures s.lastType == Some(Low) ==> r.candidate == Some(Candidate(r.swingHigh, r.swingHighIdx.value))
  {
    match s.lastType
    case None => EvaluateBootstrap(s, idx)
    case Some(High) => EvaluateAfterHigh(s, idx)
    case Some(Low) => EvaluateAfterLow(s, idx)
  }

  /** `_debug_state`: the snapshot appended to the debug trace. */
  function TraceRow(s: State, high: Float, low: Float, idx: int): (d: DebugRow)
    ensures d.idx == idx && d.high == high && d.low == low
    ensures d.swingHigh == s.swingHigh && d.swingHighIdx == s.swingHighIdx
    ensures d.swingLow == s.swingLow && d.swingLowIdx == s.swingLowIdx
    ensures d.candidate == s.candidate && d.confirmed == s.confirmed && d.lastType == s.lastType
    ensures s.confirmed ==> d.lastPrice == s.lastPrice && d.lastIdx == s.lastIdx
    ensures !s.confirmed ==> d.lastPrice.None? && d.lastIdx.None?
  {
    DebugRow(idx, high, low, s.swingHigh, s.swingHighIdx, s.swingLow, s.swingLowIdx,
             s.candidate, s.confirmed, s.lastType,
             if s.confirmed then s.lastPrice else None,
             if s.confirmed then s.lastIdx else None)
  }

  /**
   * A pivot `next` of the given kind lies at least `pct` away from the pivot
   * `prev` before it, measured relative to `prev`: a Low at least `pct * prev`
   * below it, a High at least `pct * prev` above it.
   */
  predicate Gap(prev: Float, next: Float, kind: Extreme, pct: real)
  {
    prev.Fin? && next.Fin? && prev.v > 0.0 &&
    if kind == Low then prev.v - next.v >= pct * prev.v else next.v - prev.v >= pct * prev.v
  }

  /** The row `update` appends for a bar, before any pivot is written into it. */
  function BlankRow(high: Float, low: Float, idx: int): Row
  {
    Row(idx, high, low, NaN, None)
  }

  /** `update` for a bar with valid prices, up to the debug snapshot: record it, update the swings, test for a pivot. */
  function Advance(s: State, high: Float, low: Float, idx: int): (r: State)
    requires Valid(s) && ValidBar(high, low) && Admissible(high, low)
    ensures Valid(r)
    ensures r.pct == s.pct && r.debug == s.debug && r.trace == s.trace
    ensures r.indexToPos == s.indexToPos[idx := |s.history|]
    ensures !r.confirmed ==>
      && r.history == s.history + [BlankRow(high, low, idx)]
      && r.lastType == s.lastType && r.lastPrice == s.lastPrice && r.lastIdx == s.lastIdx
    ensures r.confirmed ==>
      && r.lastType.Some? && r.lastPrice.Some? && r.lastIdx.Some? && r.lastIdx.value in r.indexToPos
      && var pos := r.indexToPos[r.lastIdx.value];
         pos < |s.history| + 1
         && r.history == (s.history + [BlankRow(high, low, idx)])
                           [pos := (s.history + [BlankRow(high, low, idx)])[pos].(zigzag := r.lastPrice.value, kind := r.lastType)]
    ensures r.confirmed ==> r.candidate == Some(Candidate(if r.lastType == Some(Low) then PosInf else NegInf, idx))
    ensures r.confirmed && s.lastType.Some? ==>
      && r.lastType.value == Opposite(s.lastType.value)
      && Gap(s.lastPrice.value, r.lastPrice.value, r.lastType.value, s.pct)
    // while no pivot exists the swings are the running extremes, the earliest bar winning a tie
    ensures !r.confirmed && s.lastType.None? ==>
      && r.lastType.None?
      && IsMax(r.swingHigh, s.swingHigh, high) && IsMin(r.swingLow, s.swingLow, low)
      && r.swingHighIdx == (if Less(s.swingHigh, high) then Some(idx) else s.swingHighIdx)
      && r.swingLowIdx == (if Less(low, s.swingLow) then Some(idx) else s.swingLowIdx)
  {
    var a := AppendRow(s, high, low, idx);
    var u := UpdateSwings(a, high, low, idx);
    SwingRows(u);
    assert Margin(u);
    Evaluate(u, idx)
  }

  /**
   * `update(high, low, idx)`: record the bar; for a bar with a NaN price or
   * with high below low stop there; otherwise update the swings, test for a
   * pivot and, in debug mode, append a snapshot to the trace.
   */
  function Step(s: State, high: Float, low: Float, idx: int): (r: State)
    requires Valid(s) && Admissible(high, low)
    ensures Valid(r)
    ensures !ValidBar(high, low) ==>
      r == s.(history := s.history + [BlankRow(high, low, idx)], indexToPos := s.indexToPos[idx := |s.history|])
    ensures ValidBar(high, low) ==>
      r == Advance(s, high, low, idx).(trace := if s.debug then s.trace + [TraceRow(r, high, low, idx)] else s.trace)
  {
    var a := AppendRow(s, high, low, idx);
    if !ValidBar(high, low) then a
    else
      var e := Advance(s, high, low, idx);
      if e.debug then
        var r := e.(trace := e.trace + [TraceRow(e, high, low, idx)]);
        ValidIgnoresCandidate(e, r);
        r
      else e
  }

  /** The state after `update` has been called on each bar in turn. */
  function Run(s: State, bars: seq<Bar>): (r: State)
    requires Valid(s) && AllAdmissible(bars)
    ensures Valid(r) && r.pct == s.pct && r.debug == s.debug
    ensures |r.history| == |s.history| + |bars|
    decreases |bars|
  {
    if bars == [] then s
    else
      var b := bars[|bars| - 1];
      Step(Run(s, bars[..|bars| - 1]), b.high, b.low, b.idx)
  }

  /**
   * One entry of the Series `pivots()` returns: its index label and its value.
   * The label is missing for the entry pandas adds when there is no candidate.
   */
  datatype Point = Point(at: Option<int>, price: Float)

  /**
   * `pivots()`: the ZigZag column indexed by the bar indices, with the
   * candidate's price written at every row labelled with the candidate's
   * index; a label that is not yet present is appended, and with no
   * candidate that entry has a missing label and the value NaN.
   */
  function Pivots(s: State): (p: seq<Point>)
    ensures |s.history| <= |p| <= |s.history| + 1
    ensures Valid(s) ==> |p| == |s.history| + (if s.candidate.None? then 1 else 0)
    ensures forall i :: 0 <= i < |s.history| ==> p[i].at == Some(s.history[i].idx)
    ensures forall i :: 0 <= i < |s.history| ==>
      p[i].price == (if s.candidate.Some? && s.candidate.value.idx == s.history[i].idx
                     then s.candidate.value.price else s.history[i].zigzag)
    ensures s.candidate.None? ==> |p| == |s.history| + 1 && p[|s.history|] == Point(None, NaN)
  {
    var base := seq(|s.history|, i requires 0 <= i < |s.history| => Point(Some(s.history[i].idx), s.history[i].zigzag));
    match s.candidate
    case None => base + [Point(None, NaN)]
    case Some(c) =>
      if exists i :: 0 <= i < |s.history| && s.history[i].idx == c.idx then
        seq(|base|, i requires 0 <= i < |base| => if s.history[i].idx == c.idx then Point(Some(c.idx), c.price) else base[i])
      else
        base + [Point(Some(c.idx), c.price)]
  }
}
