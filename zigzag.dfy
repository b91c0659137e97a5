/**
 * `ZigZagClass` as an object whose methods update its fields in place, and
 * the `ZigZag` indicator function that feeds it one bar at a time.  Every
 * method is proved to move the object's state exactly as the corresponding
 * function of `ZigZagModel` moves a `State`.
 */
module ZigZag {
  import opened Common
  import opened ZigZagModel

  class ZigZagDetector {
    const pct: real
    const debug: bool
    var lastType: Option<Extreme>
    var lastPrice: Option<Float>
    var lastIdx: Option<int>
    var confirmed: bool
    var swingHigh: Float
    var swingHighIdx: Option<int>
    var swingLow: Float
    var swingLowIdx: Option<int>
    var candidate: Option<Candidate>
    // historic_dic: one row per bar passed to `update`
    var history: seq<Row>
    var indexToPos: map<int, nat>
    // debug_dic: one snapshot per processed bar, kept only in debug mode
    var trace: seq<DebugRow>

    /** The object's fields as a model state. */
    function Snapshot(): State
      reads this
    {
      State(pct, debug, lastType, lastPrice, lastIdx, confirmed, swingHigh, swingHighIdx,
            swingLow, swingLowIdx, candidate, history, indexToPos, trace)
    }

    ghost predicate Valid()
      reads this
    {
      ZigZagModel.Valid(Snapshot())
    }

    /** `ZigZagClass(pct, debug)` once the check `pct > 0` has passed. */
    constructor (pct: real, debug: bool)
      requires pct > 0.0
      ensures Valid() && Snapshot() == Start(pct, debug)
    {
      this.pct, this.debug := pct, debug;
      lastType, lastPrice, lastIdx, confirmed := None, None, None, false;
      swingHigh, swingHighIdx, swingLow, swingLowIdx := NegInf, None, PosInf, None;
      candidate := None;
      history, indexToPos, trace := [], map[], [];
    }

    /** `_update_df`: record the bar as a new last row and point its index at that row. */
    method UpdateDf(high: Float, low: Float, idx: int)
      modifies this
      ensures Snapshot() == AppendRow(old(Snapshot()), high, low, idx)
    {
      history := history + [Row(idx, high, low, NaN, None)];
      indexToPos := indexToPos[idx := |history| - 1];
    }

    /** `_reset_swings`: put the swing of the given kind back to its sentinel at the current bar. */
    method ResetSwings(kind: Extreme, idx: int)
      modifies this
      ensures Snapshot() == ResetSwing(old(Snapshot()), kind, idx)
    {
      if kind == High {
        swingHigh, swingHighIdx := NegInf, Some(idx);
      } else {
        swingLow, swingLowIdx := PosInf, Some(idx);
      }
    }

    /** `_update_swings`, for the last confirmed type the object holds. */
    method UpdateSwings(high: Float, low: Float, idx: int)
      requires Valid() && ValidBar(high, low) && Admissible(high, low) && idx in indexToPos
      modifies this
      ensures Snapshot() == ZigZagModel.UpdateSwings(old(Snapshot()), high, low, idx)
    {
      if lastType.None? {
        if Less(swingHigh, high) {
          swingHigh, swingHighIdx := high, Some(idx);
        }
        if Less(low, swingLow) {
          swingLow, swingLowIdx := low, Some(idx);
        }
      } else if lastType == Some(High) {
        if Less(low, swingLow) {
          swingLow, swingLowIdx := low, Some(idx);
          ResetSwings(High, idx);
        } else if Less(swingHigh, high) {
          swingHigh, swingHighIdx := high, Some(idx);
        }
      } else {
        if Less(swingHigh, high) {
          swingHigh, swingHighIdx := high, Some(idx);
          ResetSwings(Low, idx);
        } else if Less(low, swingLow) {
          swingLow, swingLowIdx := low, Some(idx);
        }
      }
    }

    /** `_confirm_pivot`: write the pivot into its row, make it the last confirmed pivot, clear the candidate. */
    method ConfirmPivot(price: Float, idx: int, kind: Extreme)
      requires idx in indexToPos && indexToPos[idx] < |history|
      modifies this
      ensures Snapshot() == ZigZagModel.ConfirmPivot(old(Snapshot()), price, idx, kind)
    {
      var pos := indexToPos[idx];
      history := history[pos := history[pos].(zigzag := price, kind := Some(kind))];
      lastType, lastPrice, lastIdx := Some(kind), Some(price), Some(idx);
      confirmed := true;
      candidate := None;
    }

    /** `_debug_state`: append a snapshot of the detector to the debug trace. */
    method DebugState(high: Float, low: Float, idx: int)
      modifies this
      ensures Snapshot() == old(Snapshot()).(trace := old(trace) + [TraceRow(old(Snapshot()), high, low, idx)])
    {
      trace := trace + [TraceRow(Snapshot(), high, low, idx)];
    }

    /**
     * Step 3 of `update`: clear the confirmation flag, then test the swings
     * for a pivot as the last confirmed type directs and set the candidate.
     */
    method Evaluate(idx: int)
      requires ZigZagModel.Ready(Snapshot(), idx)
      modifies this
      ensures Snapshot() == ZigZagModel.Evaluate(old(Snapshot()), idx)
    {
      ghost var u := Snapshot();
      confirmed := false;
      ghost var s0 := Snapshot();
      assert s0 == u.(confirmed := false);
      ValidIgnoresCandidate(u, s0);
      if lastType.None? {
        if swingLowIdx.value < swingHighIdx.value {
          SettleLow(idx);
        } else if swingHighIdx.value < swingLowIdx.value {
          SettleHigh(idx);
        }
      } else if lastType == Some(High) {
        SettleLow(idx);
      } else {
        SettleHigh(idx);
      }
    }

    /**
     * The rise test shared by the bootstrap "up" case and the case after a
     * High: confirm the low swing if the high is at least `pct` above it,
     * then make the low swing the candidate.
     */
    method SettleLow(idx: int)
      requires ZigZagModel.Ready(Snapshot(), idx) && !confirmed && Positive(swingLow) && lastType != Some(Low)
      modifies this
      ensures Snapshot() == ZigZagModel.SettleLow(old(Snapshot()), idx)
    {
      ghost var s0 := Snapshot();
      SwingRows(s0);
      var change := PctChange(swingLow, swingHigh);
      if AtLeast(change, pct) {
        RisesBy(swingLow, swingHigh, pct);
        ConfirmPivot(swingLow, swingLowIdx.value, Low);
        ResetSwings(Low, idx);
        assert Snapshot() == ConfirmLow(s0, idx);
      }
      candidate := Some(Candidate(swingLow, swingLowIdx.value));
    }

    /**
     * The fall test shared by the bootstrap "down" case (with the sign the
     * test evidently intends) and the case after a Low.
     */
    method SettleHigh(idx: int)
      requires ZigZagModel.Ready(Snapshot(), idx) && !confirmed && Positive(swingHigh) && lastType != Some(High)
      modifies this
      ensures Snapshot() == ZigZagModel.SettleHigh(old(Snapshot()), idx)
    {
      ghost var s0 := Snapshot();
      SwingRows(s0);
      var change := Neg(PctChange(swingHigh, swingLow));
      if AtLeast(change, pct) {
        FallsBy(swingHigh, swingLow, pct);
        ConfirmPivot(swingHigh, swingHighIdx.value, High);
        ResetSwings(High, idx);
        assert Snapshot() == ConfirmHigh(s0, idx);
      }
      candidate := Some(Candidate(swingHigh, swingHighIdx.value));
    }

    /** `update(high, low, idx)`. */
    method Update(high: Float, low: Float, idx: int)
      requires Valid() && Admissible(high, low)
      modifies this
      ensures Valid()
      ensures Snapshot() == Step(old(Snapshot()), high, low, idx)
    {
      ghost var s := Snapshot();
      UpdateDf(high, low, idx);
      if !ValidBar(high, low) {
        assert ZigZagModel.Valid(Snapshot());
        return;
      }
      ghost var a := Snapshot();
      assert ZigZagModel.Valid(a) && idx in a.indexToPos;
      UpdateSwings(high, low, idx);
      ghost var u := Snapshot();
      assert ZigZagModel.Ready(u, idx);
      Evaluate(idx);
      ghost var e := Snapshot();
      assert e == Advance(s, high, low, idx);
      if debug {
        DebugState(high, low, idx);
      }
      assert Snapshot() == Step(s, high, low, idx);
      assert ZigZagModel.Valid(Snapshot());
    }
  }

  /** `ZigZagClass(pct, debug)`: `ValueError` unless `pct > 0`, otherwise a fresh detector in its initial state. */
  method NewDetector(pct: real, debug: bool) returns (r: Result<ZigZagDetector>)
    ensures r.Err? <==> pct <= 0.0
    ensures r.Err? ==> r.msg == "pct must be > 0"
    ensures r.Ok? ==> fresh(r.value) && r.value.Valid() && r.value.Snapshot() == Start(pct, debug)
  {
    if pct <= 0.0 {
      return Err("pct must be > 0");
    }
    var z := new ZigZagDetector(pct, debug);
    return Ok(z);
  }

  /**
   * The `ZigZag` indicator: run a fresh non-debug detector over the bars in
   * order and return its pivots.
   */
  method ZigZag(bars: seq<Bar>, pct: real) returns (r: Result<seq<Point>>)
    requires AllAdmissible(bars)
    ensures r.Err? <==> pct <= 0.0
    ensures r.Ok? ==> r.value == Pivots(Run(Start(pct, false), bars))
  {
    var created := NewDetector(pct, false);
    if created.Err? {
      return Err(created.msg);
    }
    var z := created.value;
    var i := 0;
    while i < |bars|
      invariant 0 <= i <= |bars|
      invariant z.Valid() && z.Snapshot() == Run(Start(pct, false), bars[..i])
    {
      assert bars[..i + 1][..i] == bars[..i];
      z.Update(bars[i].high, bars[i].low, bars[i].idx);
      i := i + 1;
    }
    assert bars[..i] == bars;
    return Ok(Pivots(z.Snapshot()));
  }
}
