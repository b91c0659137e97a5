/**
 * Properties of whole runs of the ZigZag detector: the bars are recorded as
 * given, processing is online, confirmed pivots alternate and each lies at
 * least `pct` from the one before, and before the first pivot the swings
 * are the running extremes.  Also the two halves of the bootstrap "down"
 * finding.
 */
module ZigZagProps {
  import opened Common
  import opened ZigZagModel

  /** The bar each history row records. */
  function BarsOf(h: seq<Row>): (bars: seq<Bar>)
    ensures |bars| == |h|
    ensures forall i :: 0 <= i < |h| ==> bars[i] == Bar(h[i].idx, h[i].high, h[i].low)
  {
    seq(|h|, i requires 0 <= i < |h| => Bar(h[i].idx, h[i].high, h[i].low))
  }

  /** Appending a row appends its bar. */
  lemma BarsOfAppend(h: seq<Row>, row: Row)
    ensures BarsOf(h + [row]) == BarsOf(h) + [Bar(row.idx, row.high, row.low)]
  {
    assert BarsOf(h + [row])[|h|] == Bar(row.idx, row.high, row.low);
  }

  /** Writing a pivot into a row leaves the recorded bars as they were. */
  lemma BarsOfMarked(h: seq<Row>, pos: int, z: Float, k: Option<Extreme>)
    requires 0 <= pos < |h|
    ensures BarsOf(h[pos := h[pos].(zigzag := z, kind := k)]) == BarsOf(h)
  {
    var h' := h[pos := h[pos].(zigzag := z, kind := k)];
    assert forall i :: 0 <= i < |h| ==> BarsOf(h')[i] == BarsOf(h)[i];
  }

  /** `update` records its bar as the new last row and never alters the index or prices of an earlier row. */
  lemma StepRecordsBar(s: State, high: Float, low: Float, idx: int)
    requires Valid(s) && Admissible(high, low)
    ensures BarsOf(Step(s, high, low, idx).history) == BarsOf(s.history) + [Bar(idx, high, low)]
  {
    var r := Step(s, high, low, idx);
    var h := s.history + [BlankRow(high, low, idx)];
    BarsOfAppend(s.history, BlankRow(high, low, idx));
    if ValidBar(high, low) {
      var e := Advance(s, high, low, idx);
      assert r.history == e.history;
      if e.confirmed {
        var pos := e.indexToPos[e.lastIdx.value];
        assert e.history == h[pos := h[pos].(zigzag := e.lastPrice.value, kind := e.lastType)];
        BarsOfMarked(h, pos, e.lastPrice.value, e.lastType);
      }
    }
  }

  /** A run over a non-empty list of bars ends with one `update` on its last bar. */
  lemma RunLast(s: State, bars: seq<Bar>)
    requires Valid(s) && AllAdmissible(bars) && bars != []
    ensures AllAdmissible(bars[..|bars| - 1])
    ensures var b := bars[|bars| - 1];
      Run(s, bars) == Step(Run(s, bars[..|bars| - 1]), b.high, b.low, b.idx)
  {
  }

  lemma AppendLast<T>(x: seq<T>, ys: seq<T>)
    requires ys != []
    ensures (x + ys[..|ys| - 1]) + [ys[|ys| - 1]] == x + ys
  {
    assert ys[..|ys| - 1] + [ys[|ys| - 1]] == ys;
  }

  /** After a run the history records exactly the bars given, in order, after those recorded before. */
  lemma {:induction false} RunRecordsBars(s: State, bars: seq<Bar>)
    requires Valid(s) && AllAdmissible(bars)
    ensures BarsOf(Run(s, bars).history) == BarsOf(s.history) + bars
    decreases |bars|
  {
    if bars != [] {
      var n := |bars| - 1;
      var b := bars[n];
      RunLast(s, bars);
      RunRecordsBars(s, bars[..n]);
      StepRecordsBar(Run(s, bars[..n]), b.high, b.low, b.idx);
      AppendLast(BarsOf(s.history), bars);
    }
  }

  /** The bars `update` gets past the NaN / `high < low` check, in order. */
  function ProcessedBars(bars: seq<Bar>): (p: seq<Bar>)
    ensures |p| <= |bars|
    decreases |bars|
  {
    if bars == [] then []
    else
      var b := bars[|bars| - 1];
      ProcessedBars(bars[..|bars| - 1]) + (if ValidBar(b.high, b.low) then [b] else [])
  }

  /** The bars a debug trace holds snapshots of, in order. */
  function Snapshots(t: seq<DebugRow>): (bars: seq<Bar>)
    ensures |bars| == |t|
    ensures forall i :: 0 <= i < |t| ==> bars[i] == Bar(t[i].idx, t[i].high, t[i].low)
  {
    seq(|t|, i requires 0 <= i < |t| => Bar(t[i].idx, t[i].high, t[i].low))
  }

  /** The last bar of a run is processed iff it is valid. */
  lemma ProcessedBarsLast(bars: seq<Bar>)
    requires bars != []
    ensures var b := bars[|bars| - 1];
      ProcessedBars(bars) == ProcessedBars(bars[..|bars| - 1]) + (if ValidBar(b.high, b.low) then [b] else [])
  {
  }

  /** The rows one `update` appends to the trace. */
  lemma StepTraceRows(s: State, b: Bar)
    requires Valid(s) && Admissible(b.high, b.low)
    ensures var r := Step(s, b.high, b.low, b.idx);
      r.trace == s.trace + (if s.debug && ValidBar(b.high, b.low) then [TraceRow(r, b.high, b.low, b.idx)] else [])
  {
    var r := Step(s, b.high, b.low, b.idx);
    if ValidBar(b.high, b.low) {
      var e := Advance(s, b.high, b.low, b.idx);
      assert r == e.(trace := if s.debug then s.trace + [TraceRow(r, b.high, b.low, b.idx)] else s.trace);
    }
  }

  /** One `update` adds a snapshot of its own bar to the trace iff debugging and the bar is valid. */
  lemma StepTrace(s: State, b: Bar)
    requires Valid(s) && Admissible(b.high, b.low)
    ensures var t := Step(s, b.high, b.low, b.idx).trace;
      |t| >= |s.trace| && t[..|s.trace|] == s.trace
    ensures !s.debug ==> Step(s, b.high, b.low, b.idx).trace == s.trace
    ensures s.debug ==>
      Snapshots(Step(s, b.high, b.low, b.idx).trace) == Snapshots(s.trace) + (if ValidBar(b.high, b.low) then [b] else [])
  {
    var t := Step(s, b.high, b.low, b.idx).trace;
    StepTraceRows(s, b);
    if s.debug && ValidBar(b.high, b.low) {
      assert Snapshots(t)[..|s.trace|] == Snapshots(s.trace);
    }
  }

  /** The trace after a run's last `update`, in terms of the trace before it. */
  lemma RunStepTrace(s: State, bars: seq<Bar>)
    requires Valid(s) && AllAdmissible(bars) && bars != []
    ensures AllAdmissible(bars[..|bars| - 1])
    ensures var t, m := Run(s, bars).trace, Run(s, bars[..|bars| - 1]).trace;
      |t| >= |m| && t[..|m|] == m
    ensures !s.debug ==> Run(s, bars).trace == Run(s, bars[..|bars| - 1]).trace
    ensures var last := bars[|bars| - 1];
      s.debug ==>
        Snapshots(Run(s, bars).trace) == Snapshots(Run(s, bars[..|bars| - 1]).trace) + (if ValidBar(last.high, last.low) then [last] else [])
  {
    RunLast(s, bars);
    StepTrace(Run(s, bars[..|bars| - 1]), bars[|bars| - 1]);
  }

  lemma PrefixOfPrefix<T>(a: seq<T>, b: seq<T>, c: seq<T>)
    requires |a| <= |b| <= |c| && b[..|a|] == a && c[..|b|] == b
    ensures c[..|a|] == a
  {
  }

  /**
   * `_debug_state` over a run: without debugging the trace is untouched;
   * with it, the run keeps the earlier snapshots and appends one snapshot
   * per valid bar, in the order of the bars.
   */
  lemma {:induction false} RunTrace(s: State, bars: seq<Bar>)
    requires Valid(s) && AllAdmissible(bars)
    ensures !s.debug ==> Run(s, bars).trace == s.trace
    ensures s.debug ==> |Run(s, bars).trace| >= |s.trace| && Run(s, bars).trace[..|s.trace|] == s.trace
    ensures s.debug ==> Snapshots(Run(s, bars).trace) == Snapshots(s.trace) + ProcessedBars(bars)
    decreases |bars|
  {
    if bars != [] {
      var n := |bars| - 1;
      RunStepTrace(s, bars);
      RunTrace(s, bars[..n]);
      ProcessedBarsLast(bars);
      if s.debug {
        PrefixOfPrefix(s.trace, Run(s, bars[..n]).trace, Run(s, bars).trace);
      }
    }
  }

  lemma AdmissibleConcat(a: seq<Bar>, b: seq<Bar>)
    requires AllAdmissible(a) && AllAdmissible(b)
    ensures AllAdmissible(a + b)
  {
    forall i | 0 <= i < |a + b| ensures Admissible((a + b)[i].high, (a + b)[i].low) {
      if i >= |a| {
        assert (a + b)[i] == b[i - |a|];
      }
    }
  }

  /** Processing is online: running over `a + b` is running over `a`, then over `b` from there. */
  lemma {:induction false} RunAppend(s: State, a: seq<Bar>, b: seq<Bar>)
    requires Valid(s) && AllAdmissible(a) && AllAdmissible(b)
    ensures AllAdmissible(a + b)
    ensures Run(s, a + b) == Run(Run(s, a), b)
    decreases |b|
  {
    AdmissibleConcat(a, b);
    if b == [] {
      assert a + b == a;
    } else {
      var n := |b| - 1;
      var last := b[n];
      assert (a + b)[..|a + b| - 1] == a + b[..n];
      assert (a + b)[|a + b| - 1] == last;
      RunLast(s, a + b);
      RunAppend(s, a, b[..n]);
      RunLast(Run(s, a), b);
      assert Run(s, a + b) == Step(Run(s, a + b[..n]), last.high, last.low, last.idx);
    }
  }

  /** A confirmed pivot: its type, its price and the index of its bar. */
  datatype Pivot = Pivot(kind: Extreme, price: Float, idx: int)

  /** `next` may follow `prev` on the ZigZag line: the opposite type, at least `pct` away from it. */
  predicate Follows(prev: Pivot, next: Pivot, pct: real)
  {
    next.kind == Opposite(prev.kind) && Gap(prev.price, next.price, next.kind, pct)
  }

  /** The last confirmed pivot a state records, if any. */
  function LastPivot(s: State): Option<Pivot>
  {
    if s.lastType.Some? && s.lastPrice.Some? && s.lastIdx.Some?
    then Some(Pivot(s.lastType.value, s.lastPrice.value, s.lastIdx.value)) else None
  }

  /** The pivot `update` confirms for a bar, if it confirms one. */
  function NewPivot(s: State, b: Bar): (q: Option<Pivot>)
    requires Valid(s) && Admissible(b.high, b.low)
    ensures q.None? ==> LastPivot(Step(s, b.high, b.low, b.idx)) == LastPivot(s)
    ensures q.Some? ==> LastPivot(Step(s, b.high, b.low, b.idx)) == q
    ensures q.Some? && LastPivot(s).Some? ==> Follows(LastPivot(s).value, q.value, s.pct)
    ensures Valid(s) && LastPivot(s).None? ==> s.lastType.None?
  {
    var r := Step(s, b.high, b.low, b.idx);
    if ValidBar(b.high, b.low) && r.confirmed then
      var e := Advance(s, b.high, b.low, b.idx);
      assert r.lastType == e.lastType && r.lastPrice == e.lastPrice && r.lastIdx == e.lastIdx;
      Some(Pivot(r.lastType.value, r.lastPrice.value, r.lastIdx.value))
    else
      None
  }

  /** The pivots confirmed during a run, in the order `update` confirmed them. */
  function Confirmations(s: State, bars: seq<Bar>): (t: seq<Pivot>)
    requires Valid(s) && AllAdmissible(bars)
    ensures |t| <= |bars|
    decreases |bars|
  {
    if bars == [] then []
    else
      var n := |bars| - 1;
      var q := NewPivot(Run(s, bars[..n]), bars[n]);
      Confirmations(s, bars[..n]) + if q.Some? then [q.value] else []
  }

  /** Every pivot in the sequence follows the one before it. */
  predicate Alternating(t: seq<Pivot>, pct: real)
  {
    forall i :: 0 < i < |t| ==> Follows(t[i - 1], t[i], pct)
  }

  /** After a run the state records the last pivot of the run's ZigZag line, or the one it started with. */
  lemma {:induction false} LastPivotOfRun(s: State, bars: seq<Bar>)
    requires Valid(s) && AllAdmissible(bars)
    ensures LastPivot(Run(s, bars)) ==
      (if Confirmations(s, bars) == [] then LastPivot(s) else Some(Confirmations(s, bars)[|Confirmations(s, bars)| - 1]))
    decreases |bars|
  {
    if bars != [] {
      var n := |bars| - 1;
      RunLast(s, bars);
      var p := Run(s, bars[..n]);
      var t := Confirmations(s, bars[..n]);
      LastPivotOfRun(s, bars[..n]);
      var q := NewPivot(p, bars[n]);
      var b := bars[n];
      assert Run(s, bars) == Step(p, b.high, b.low, b.idx);
      LastOfExtended(t, q, LastPivot(s), LastPivot(p), LastPivot(Run(s, bars)), Confirmations(s, bars));
    }
  }

  /**
   * The ZigZag line of a run alternates between Highs and Lows, each pivot at
   * least `pct` (relative to the pivot before it) away from the previous one,
   * starting from the pivot confirmed before the run if there was one.
   */
  lemma {:induction false} ConfirmationsAlternate(s: State, bars: seq<Bar>)
    requires Valid(s) && AllAdmissible(bars)
    ensures Alternating(Confirmations(s, bars), s.pct)
    ensures LastPivot(s).Some? && Confirmations(s, bars) != [] ==>
      Follows(LastPivot(s).value, Confirmations(s, bars)[0], s.pct)
    decreases |bars|
  {
    if bars != [] {
      var n := |bars| - 1;
      RunLast(s, bars);
      var p := Run(s, bars[..n]);
      var t := Confirmations(s, bars[..n]);
      ConfirmationsAlternate(s, bars[..n]);
      LastPivotOfRun(s, bars[..n]);
      var q := NewPivot(p, bars[n]);
      if q.Some? {
        assert Confirmations(s, bars) == t + [q.value];
        ExtendAlternating(t, q.value, LastPivot(s), s.pct);
      } else {
        assert Confirmations(s, bars) == t;
      }
    }
  }

  /** The last pivot of a line that may have grown by one pivot. */
  lemma LastOfExtended(t: seq<Pivot>, q: Option<Pivot>, before: Option<Pivot>, lastBefore: Option<Pivot>,
                       lastAfter: Option<Pivot>, conf: seq<Pivot>)
    requires conf == t + if q.Some? then [q.value] else []
    requires lastBefore == if t == [] then before else Some(t[|t| - 1])
    requires lastAfter == if q.Some? then q else lastBefore
    ensures lastAfter == if conf == [] then before else Some(conf[|conf| - 1])
  {
    if q.Some? {
      assert conf[|conf| - 1] == q.value;
    }
  }

  /** Appending a pivot that follows the last one (or the pivot before them all) keeps the line alternating. */
  lemma ExtendAlternating(t: seq<Pivot>, q: Pivot, before: Option<Pivot>, pct: real)
    requires Alternating(t, pct)
    requires before.Some? && t != [] ==> Follows(before.value, t[0], pct)
    requires t != [] ==> Follows(t[|t| - 1], q, pct)
    requires t == [] && before.Some? ==> Follows(before.value, q, pct)
    ensures Alternating(t + [q], pct)
    ensures before.Some? ==> Follows(before.value, (t + [q])[0], pct)
  {
    var t' := t + [q];
    forall i | 0 < i < |t'|
      ensures Follows(t'[i - 1], t'[i], pct)
    {
      if i < |t| {
        assert t'[i - 1] == t[i - 1] && t'[i] == t[i];
      } else {
        assert t'[i - 1] == t[|t| - 1];
      }
    }
  }

  /** A run from the initial state has confirmed no pivot exactly when it is still bootstrapping. */
  lemma FirstPivotEndsBootstrap(pct: real, debug: bool, bars: seq<Bar>)
    requires pct > 0.0 && AllAdmissible(bars)
    ensures Run(Start(pct, debug), bars).lastType.None? <==> Confirmations(Start(pct, debug), bars) == []
  {
    LastPivotOfRun(Start(pct, debug), bars);
    var r := Run(Start(pct, debug), bars);
    assert r.lastType.Some? ==> LastPivot(r).Some?;
  }

  // ---------------------------------------------------------------------------
  // Bootstrap: the swings are the running extremes, the earliest bar winning ties.

  /** `m` is the highest high among the processed bars, first reached at bar `k`. */
  ghost predicate FirstHighest(bars: seq<Bar>, m: Float, k: int)
  {
    && 0 <= k < |bars| && ValidBar(bars[k].high, bars[k].low) && bars[k].high == m
    && (forall i :: 0 <= i < |bars| && ValidBar(bars[i].high, bars[i].low) ==> !Less(m, bars[i].high))
    && (forall i :: 0 <= i < k && ValidBar(bars[i].high, bars[i].low) ==> Less(bars[i].high, m))
  }

  /** `m` is the lowest low among the processed bars, first reached at bar `k`. */
  ghost predicate FirstLowest(bars: seq<Bar>, m: Float, k: int)
  {
    && 0 <= k < |bars| && ValidBar(bars[k].high, bars[k].low) && bars[k].low == m
    && (forall i :: 0 <= i < |bars| && ValidBar(bars[i].high, bars[i].low) ==> !Less(bars[i].low, m))
    && (forall i :: 0 <= i < k && ValidBar(bars[i].high, bars[i].low) ==> Less(m, bars[i].low))
  }

  ghost predicate AnyValid(bars: seq<Bar>)
  {
    exists i :: 0 <= i < |bars| && ValidBar(bars[i].high, bars[i].low)
  }

  /** What the bootstrap swings hold after a run from the initial state that has confirmed nothing. */
  ghost predicate RunningExtremes(bars: seq<Bar>, r: State)
  {
    if !AnyValid(bars) then
      r.swingHigh == NegInf && r.swingHighIdx.None? && r.swingLow == PosInf && r.swingLowIdx.None?
    else
      && r.swingHighIdx.Some? && r.swingLowIdx.Some?
      && (exists k :: FirstHighest(bars, r.swingHigh, k) && bars[k].idx == r.swingHighIdx.value)
      && (exists k :: FirstLowest(bars, r.swingLow, k) && bars[k].idx == r.swingLowIdx.value)
  }

  /** Strict and non-strict float comparisons chain as on the reals (no NaN involved). */
  lemma LessChain(a: Float, b: Float, c: Float)
    requires !a.NaN? && !b.NaN? && !c.NaN?
    ensures !Less(b, a) && Less(b, c) ==> Less(a, c)
    ensures Less(a, b) && !Less(c, b) ==> Less(a, c)
    ensures !Less(b, a) && !Less(c, b) ==> !Less(c, a)
  {
  }

  /** One `update` that leaves the detector bootstrapping: a skipped bar keeps the swings, a valid one extends them. */
  lemma BootstrapStep(p: State, b: Bar)
    requires Valid(p) && Admissible(b.high, b.low)
    requires Step(p, b.high, b.low, b.idx).lastType.None?
    ensures p.lastType.None?
    ensures var r := Step(p, b.high, b.low, b.idx);
      if ValidBar(b.high, b.low) then
        && IsMax(r.swingHigh, p.swingHigh, b.high) && IsMin(r.swingLow, p.swingLow, b.low)
        && r.swingHighIdx == (if Less(p.swingHigh, b.high) then Some(b.idx) else p.swingHighIdx)
        && r.swingLowIdx == (if Less(b.low, p.swingLow) then Some(b.idx) else p.swingLowIdx)
      else
        r.swingHigh == p.swingHigh && r.swingHighIdx == p.swingHighIdx
        && r.swingLow == p.swingLow && r.swingLowIdx == p.swingLowIdx
  {
    if ValidBar(b.high, b.low) {
      var e := Advance(p, b.high, b.low, b.idx);
      assert e.lastType.None?;
    }
  }

  /** Adding a skipped bar changes neither whether a valid bar was seen nor where the extremes were first reached. */
  lemma SkippedBar(pre: seq<Bar>, b: Bar, r: State)
    requires !ValidBar(b.high, b.low)
    requires RunningExtremes(pre, r)
    ensures RunningExtremes(pre + [b], r)
  {
    var bars := pre + [b];
    assert AnyValid(bars) <==> AnyValid(pre) by {
      if AnyValid(bars) {
        var i :| 0 <= i < |bars| && ValidBar(bars[i].high, bars[i].low);
        assert i < |pre| && pre[i] == bars[i];
      }
      if AnyValid(pre) {
        var i :| 0 <= i < |pre| && ValidBar(pre[i].high, pre[i].low);
        assert bars[i] == pre[i];
      }
    }
    if AnyValid(pre) {
      var kh :| FirstHighest(pre, r.swingHigh, kh) && pre[kh].idx == r.swingHighIdx.value;
      var kl :| FirstLowest(pre, r.swingLow, kl) && pre[kl].idx == r.swingLowIdx.value;
      assert bars[kh] == pre[kh] && bars[kl] == pre[kl];
      assert FirstHighest(bars, r.swingHigh, kh);
      assert FirstLowest(bars, r.swingLow, kl);
    }
  }

  /**
   * Until the first pivot is confirmed, the tracked high is the highest high
   * of the valid bars so far and its index the first bar reaching it, and the
   * tracked low likewise the lowest low.
   */
  lemma {:induction false} BootstrapTracksExtremes(pct: real, debug: bool, bars: seq<Bar>)
    requires pct > 0.0 && AllAdmissible(bars)
    requires Run(Start(pct, debug), bars).lastType.None?
    ensures RunningExtremes(bars, Run(Start(pct, debug), bars))
    decreases |bars|
  {
    if bars == [] {
      return;
    }
    var n := |bars| - 1;
    var b := bars[n];
    var pre := bars[..n];
    assert pre + [b] == bars;
    RunLast(Start(pct, debug), bars);
    var p := Run(Start(pct, debug), pre);
    var r := Step(p, b.high, b.low, b.idx);
    BootstrapStep(p, b);
    BootstrapTracksExtremes(pct, debug, pre);
    if !ValidBar(b.high, b.low) {
      SkippedBar(pre, b, r);
    } else {
      CountedBar(pre, b, p, r);
    }
  }

  /** Adding a valid bar that moves the swings as the bootstrap update does keeps them the running extremes. */
  lemma CountedBar(pre: seq<Bar>, b: Bar, p: State, r: State)
    requires AllAdmissible(pre + [b]) && ValidBar(b.high, b.low)
    requires RunningExtremes(pre, p)
    requires IsMax(r.swingHigh, p.swingHigh, b.high) && IsMin(r.swingLow, p.swingLow, b.low)
    requires r.swingHighIdx == (if Less(p.swingHigh, b.high) then Some(b.idx) else p.swingHighIdx)
    requires r.swingLowIdx == (if Less(b.low, p.swingLow) then Some(b.idx) else p.swingLowIdx)
    ensures RunningExtremes(pre + [b], r)
  {
    var bars := pre + [b];
    HighStep(pre, b, p.swingHigh, p.swingHighIdx, r.swingHigh, r.swingHighIdx);
    LowStep(pre, b, p.swingLow, p.swingLowIdx, r.swingLow, r.swingLowIdx);
    assert AnyValid(bars) by {
      assert ValidBar(bars[|pre|].high, bars[|pre|].low);
    }
  }

  /** One valid bar extends the running highest high. */
  lemma HighStep(pre: seq<Bar>, b: Bar, m: Float, mi: Option<int>, m': Float, mi': Option<int>)
    requires AllAdmissible(pre + [b]) && ValidBar(b.high, b.low)
    requires !AnyValid(pre) ==> m == NegInf && mi.None?
    requires AnyValid(pre) ==> mi.Some? && exists k :: FirstHighest(pre, m, k) && pre[k].idx == mi.value
    requires IsMax(m', m, b.high)
    requires mi' == if Less(m, b.high) then Some(b.idx) else mi
    ensures mi'.Some? && exists k :: FirstHighest(pre + [b], m', k) && (pre + [b])[k].idx == mi'.value
  {
    var bars := pre + [b];
    var n := |pre|;
    assert bars[n] == b;
    assert Admissible(b.high, b.low);
    if !AnyValid(pre) {
      assert FirstHighest(bars, m', n);
    } else {
      var k :| FirstHighest(pre, m, k) && pre[k].idx == mi.value;
      assert bars[k] == pre[k];
      if Less(m, b.high) {
        forall i | 0 <= i < |bars| && ValidBar(bars[i].high, bars[i].low)
          ensures !Less(m', bars[i].high)
        {
          if i < n {
            assert bars[i] == pre[i];
            LessChain(bars[i].high, m, b.high);
          }
        }
        forall i | 0 <= i < n && ValidBar(bars[i].high, bars[i].low)
          ensures Less(bars[i].high, m')
        {
          assert bars[i] == pre[i];
          LessChain(bars[i].high, m, b.high);
        }
        assert FirstHighest(bars, m', n);
      } else {
        assert m' == m;
        forall i | 0 <= i < |bars| && ValidBar(bars[i].high, bars[i].low)
          ensures !Less(m', bars[i].high)
        {
          if i < n { assert bars[i] == pre[i]; }
        }
        forall i | 0 <= i < k && ValidBar(bars[i].high, bars[i].low)
          ensures Less(bars[i].high, m')
        {
          assert bars[i] == pre[i];
        }
        assert FirstHighest(bars, m', k);
      }
    }
  }

  /** One valid bar extends the running lowest low. */
  lemma LowStep(pre: seq<Bar>, b: Bar, m: Float, mi: Option<int>, m': Float, mi': Option<int>)
    requires AllAdmissible(pre + [b]) && ValidBar(b.high, b.low)
    requires !AnyValid(pre) ==> m == PosInf && mi.None?
    requires AnyValid(pre) ==> mi.Some? && exists k :: FirstLowest(pre, m, k) && pre[k].idx == mi.value
    requires IsMin(m', m, b.low)
    requires mi' == if Less(b.low, m) then Some(b.idx) else mi
    ensures mi'.Some? && exists k :: FirstLowest(pre + [b], m', k) && (pre + [b])[k].idx == mi'.value
  {
    var bars := pre + [b];
    var n := |pre|;
    assert bars[n] == b;
    assert Admissible(b.high, b.low);
    if !AnyValid(pre) {
      assert FirstLowest(bars, m', n);
    } else {
      var k :| FirstLowest(pre, m, k) && pre[k].idx == mi.value;
      assert bars[k] == pre[k];
      if Less(b.low, m) {
        forall i | 0 <= i < |bars| && ValidBar(bars[i].high, bars[i].low)
          ensures !Less(bars[i].low, m')
        {
          if i < n {
            assert bars[i] == pre[i];
            LessChain(b.low, m, bars[i].low);
          }
        }
        forall i | 0 <= i < n && ValidBar(bars[i].high, bars[i].low)
          ensures Less(m', bars[i].low)
        {
          assert bars[i] == pre[i];
          LessChain(b.low, m, bars[i].low);
        }
        assert FirstLowest(bars, m', n);
      } else {
        assert m' == m;
        forall i | 0 <= i < |bars| && ValidBar(bars[i].high, bars[i].low)
          ensures !Less(bars[i].low, m')
        {
          if i < n { assert bars[i] == pre[i]; }
        }
        forall i | 0 <= i < k && ValidBar(bars[i].high, bars[i].low)
          ensures Less(m', bars[i].low)
        {
          assert bars[i] == pre[i];
        }
        assert FirstLowest(bars, m', k);
      }
    }
  }

  // ---------------------------------------------------------------------------
  // The bootstrap "down" branch.

  /**
   * As written, the bootstrap "down" test can never pass: while bootstrapping
   * the tracked low never exceeds the tracked high, so the change from the
   * high to the low is never positive, let alone at least `pct`.
   */
  lemma AsWrittenDownNeverConfirms(s: State, idx: int)
    requires Ready(s, idx) && s.lastType.None?
    ensures !AtLeast(BootstrapDownChangeAsWritten(s.swingHigh, s.swingLow), s.pct)
  {
    var h, l := s.swingHigh.v, s.swingLow.v;
    assert l <= h;
    RatioAtLeast(l - h, h, s.pct);
  }

  /** A run over two bars is two `update`s. */
  lemma RunTwo(s: State, bars: seq<Bar>)
    requires Valid(s) && AllAdmissible(bars) && |bars| == 2
    ensures Admissible(bars[0].high, bars[0].low) && Admissible(bars[1].high, bars[1].low)
    ensures Run(s, bars) == Step(Step(s, bars[0].high, bars[0].low, bars[0].idx), bars[1].high, bars[1].low, bars[1].idx)
  {
    RunLast(s, bars);
    RunLast(s, bars[..1]);
    assert bars[..1][..0] == [];
  }

  /** The bars of the counterexample: a high at 110, then a bar whose low is 10% below it. */
  function DropBars(): seq<Bar>
  {
    [Bar(0, Fin(110.0), Fin(109.0)), Bar(1, Fin(100.0), Fin(99.0))]
  }

  /**
   * With pct = 0.05, after the two bars of `DropBars` the "down" branch is
   * taken with a high of 110 at bar 0 and a low of 99 at bar 1: the test as
   * written sees a change of -0.1 and confirms nothing, whereas the corrected
   * test confirms the High pivot 110 at bar 0.
   */
  lemma DownBranchCounterexample()
    ensures AllAdmissible(DropBars())
    ensures !AtLeast(BootstrapDownChangeAsWritten(Fin(110.0), Fin(99.0)), 0.05)
    ensures Run(Start(0.05, false), DropBars()).lastType == Some(High)
    ensures Run(Start(0.05, false), DropBars()).lastPrice == Some(Fin(110.0))
    ensures Run(Start(0.05, false), DropBars()).lastIdx == Some(0)
  {
    DropChangeAsWritten();
    DropRunConfirmsHigh();
  }

  /** The corrected detector confirms the High 110 at bar 0 on the second bar of `DropBars`. */
  lemma DropRunConfirmsHigh()
    ensures AllAdmissible(DropBars())
    ensures var r := Run(Start(0.05, false), DropBars());
      r.lastType == Some(High) && r.lastPrice == Some(Fin(110.0)) && r.lastIdx == Some(0)
  {
    var s0 := Start(0.05, false);
    assert Valid(s0);
    RunTwo(s0, DropBars());
    var s1 := Step(s0, Fin(110.0), Fin(109.0), 0);
    DropFirstBar();
    DropSecondBar(s1);
  }

  /** The change the "down" test computes for a high of 110 and a low of 99: a fall of 10%, reported as -0.1. */
  lemma DropChangeAsWritten()
    ensures BootstrapDownChangeAsWritten(Fin(110.0), Fin(99.0)) == Fin(-0.1)
  {
    assert PctChange(Fin(110.0), Fin(99.0)) == Fin((99.0 - 110.0) / 110.0);
  }

  /** The first bar of `DropBars` sets both swings to itself and confirms nothing. */
  lemma DropFirstBar()
    ensures var s1 := Step(Start(0.05, false), Fin(110.0), Fin(109.0), 0);
      && s1.lastType.None? && s1.pct == 0.05
      && s1.swingHigh == Fin(110.0) && s1.swingHighIdx == Some(0)
      && s1.swingLow == Fin(109.0) && s1.swingLowIdx == Some(0)
  {
    var s0 := Start(0.05, false);
    var a := AppendRow(s0, Fin(110.0), Fin(109.0), 0);
    var u := BootstrapSwings(a, Fin(110.0), Fin(109.0), 0);
    assert u == UpdateSwings(a, Fin(110.0), Fin(109.0), 0);
    assert u.swingHigh == Fin(110.0) && u.swingHighIdx == Some(0);
    assert u.swingLow == Fin(109.0) && u.swingLowIdx == Some(0);
    var e := Evaluate(u, 0);
    assert e == EvaluateBootstrap(u, 0);
    assert e == Advance(s0, Fin(110.0), Fin(109.0), 0);
  }

  /** The second bar of `DropBars`, taken from the state the first one leaves, confirms the High 110 at bar 0. */
  lemma DropSecondBar(s1: State)
    requires Valid(s1) && s1.lastType.None? && s1.pct == 0.05
    requires s1.swingHigh == Fin(110.0) && s1.swingHighIdx == Some(0)
    requires s1.swingLow == Fin(109.0) && s1.swingLowIdx == Some(0)
    ensures var s2 := Step(s1, Fin(100.0), Fin(99.0), 1);
      s2.lastType == Some(High) && s2.lastPrice == Some(Fin(110.0)) && s2.lastIdx == Some(0)
  {
    var a := AppendRow(s1, Fin(100.0), Fin(99.0), 1);
    var u := BootstrapSwings(a, Fin(100.0), Fin(99.0), 1);
    assert u == UpdateSwings(a, Fin(100.0), Fin(99.0), 1);
    assert u.swingHigh == Fin(110.0) && u.swingHighIdx == Some(0);
    assert u.swingLow == Fin(99.0) && u.swingLowIdx == Some(1);
    var e := BootstrapDown(u, 1);
    assert (110.0 - 99.0) / 110.0 >= 0.05;
    assert e == Evaluate(u, 1);
    assert e == Advance(s1, Fin(100.0), Fin(99.0), 1);
  }
}
