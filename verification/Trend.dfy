/** The canary trend detector: when does a new score fail, given the scores before it. */
module Trend {
  import opened Options

  datatype TrendStatus = Stable | RegressionDetected | MonotonicRegression | InsufficientData

  datatype TrendConfig = TrendConfig(window: int, deltaThreshold: real, monotonicRuns: int, minHistory: int)

  datatype TrendVerdict = TrendVerdict(status: TrendStatus, runCount: nat, rollingMean: Option<real>,
                                       delta: Option<real>, consecutiveDrops: nat, baselineBreach: bool)
  {
    /** `is_hard_fail`. */
    predicate IsHardFail() {
      status == RegressionDetected || status == MonotonicRegression || baselineBreach
    }
  }

  /** The two exceptions the mean can raise: no history, or a slice with nothing in it. */
  datatype Result<T> = Ok(value: T) | EmptyHistory | EmptySample

  /** Python's `s[start:]`: a negative start counts from the end, and both ends are clipped. */
  function From<T>(s: seq<T>, start: int): seq<T> {
    var k := if start < 0 then start + |s| else start;
    s[if k < 0 then 0 else if k > |s| then |s| else k..]
  }

  function Sum(s: seq<real>): real {
    if s == [] then 0.0 else Sum(s[..|s| - 1]) + s[|s| - 1]
  }

  /** `_rolling_mean`. */
  function RollingMean(history: seq<real>, window: int): Result<real> {
    if history == [] then EmptyHistory
    else
      var sample := From(history, -window);
      if sample == [] then EmptySample else Ok(Sum(sample) / |sample| as real)
  }

  /** How many pairs at the end of `scores` fall strictly, up to the first that does not. */
  function TrailingDrops(scores: seq<real>): (n: nat) {
    var k := |scores|;
    if k >= 2 && scores[k - 2] > scores[k - 1] then 1 + TrailingDrops(scores[..k - 1]) else 0
  }

  /** The streak has at least `d` drops iff each of the last `d` pairs is there and falls. */
  lemma {:induction false} DropsAtLeast(scores: seq<real>, d: nat)
    ensures TrailingDrops(scores) >= d
       <==> d == 0 || (d < |scores| && forall i :: |scores| - d <= i < |scores| ==> scores[i - 1] > scores[i])
  {
    var k := |scores|;
    if d > 0 && k >= 2 && scores[k - 2] > scores[k - 1] {
      var p := scores[..k - 1];
      DropsAtLeast(p, d - 1);
      if TrailingDrops(scores) >= d {
        forall i | k - d <= i < k ensures scores[i - 1] > scores[i] {
          assert i < k - 1 ==> p[i - 1] > p[i];
        }
      }
      if d < k && forall i :: k - d <= i < k ==> scores[i - 1] > scores[i] {
        forall i | |p| - (d - 1) <= i < |p| ensures p[i - 1] > p[i] {
          assert scores[i - 1] > scores[i];
        }
      }
    } else if d > 0 && d < k {
      assert !(scores[k - 1 - 1] > scores[k - 1]);
    }
  }

  /** `_consecutive_drops`. */
  method ConsecutiveDrops(scores: seq<real>) returns (drops: nat)
    ensures drops == TrailingDrops(scores)
  {
    if |scores| < 2 {
      return 0;
    }
    drops := 0;
    var i := |scores| - 1;
    assert scores[..i + 1] == scores;
    while i > 0
      invariant 0 <= i < |scores|
      invariant drops + TrailingDrops(scores[..i + 1]) == TrailingDrops(scores)
    {
      assert scores[..i + 1][..i] == scores[..i];
      if scores[i - 1] > scores[i] {
        drops := drops + 1;
      } else {
        break;
      }
      i := i - 1;
    }
  }

  /** The rule of `evaluate_trend` for a falling series, on the slice it looks at. */
  predicate MonotonicRule(history: seq<real>, current: real, runs: int) {
    var window := From(history, -(runs - 1)) + [current];
    |window| >= 2 && TrailingDrops(window) >= runs - 1
  }

  /** `evaluate_trend`. */
  function EvaluateTrend(history: seq<real>, current: real, config: TrendConfig, baseline: Option<real>)
    : Result<TrendVerdict>
  {
    var runCount := |history| + 1;
    var breach := baseline.Some? && current < baseline.value;
    if |history| < config.minHistory then
      Ok(TrendVerdict(InsufficientData, runCount, None, None, 0, breach))
    else
      match RollingMean(history, config.window)
      case EmptyHistory => EmptyHistory
      case EmptySample => EmptySample
      case Ok(rolling) =>
        var delta := current - rolling;
        if MonotonicRule(history, current, config.monotonicRuns) then
          Ok(TrendVerdict(MonotonicRegression, runCount, Some(rolling), Some(delta),
                          TrailingDrops(history + [current]), breach))
        else if delta < -config.deltaThreshold then
          Ok(TrendVerdict(RegressionDetected, runCount, Some(rolling), Some(delta), 0, breach))
        else
          Ok(TrendVerdict(Stable, runCount, Some(rolling), Some(delta), 0, breach))
  }

  lemma WindowIs(history: seq<real>, current: real, runs: int)
    requires runs >= 2
    ensures var full, window := history + [current], From(history, -(runs - 1)) + [current];
            && |window| == (if runs <= |full| then runs else |full|)
            && window == full[|full| - |window|..]
  {
  }

  lemma ShortSlice(history: seq<real>, from: int)
    requires from >= 0
    ensures |From(history, from)| == if from <= |history| then |history| - from else 0
  {
  }

  /**
   The slice decides as the full series would: at least `runs - 1` strict drops at its end. With
   `runs <= 1`, where the slice index is not negative, scores do not matter: only the length does.
   */
  lemma MonotonicRuleIff(history: seq<real>, current: real, runs: int)
    ensures runs >= 2 ==>
              (MonotonicRule(history, current, runs) <==> TrailingDrops(history + [current]) >= runs - 1)
    ensures runs <= 1 ==> (MonotonicRule(history, current, runs) <==> |history| > 1 - runs)
  {
    hide TrailingDrops;
    if runs >= 2 {
      var full, window, d: nat := history + [current], From(history, -(runs - 1)) + [current], runs - 1;
      WindowIs(history, current, runs);
      DropsAtLeast(full, d);
      DropsAtLeast(window, d);
      if d < |full| {
        SuffixDrops(full, window, d);
      }
    } else {
      ShortSlice(history, -(runs - 1));
      hide From;
    }
  }

  lemma SuffixDrops(full: seq<real>, window: seq<real>, d: nat)
    requires d < |window| <= |full| && window == full[|full| - |window|..]
    ensures (forall i :: |full| - d <= i < |full| ==> full[i - 1] > full[i])
       <==> (forall i :: |window| - d <= i < |window| ==> window[i - 1] > window[i])
  {
    var o := |full| - |window|;
    if forall i :: |full| - d <= i < |full| ==> full[i - 1] > full[i] {
      forall i | |window| - d <= i < |window| ensures window[i - 1] > window[i] {
        assert full[o + i - 1] > full[o + i];
      }
    }
    if forall i :: |window| - d <= i < |window| ==> window[i - 1] > window[i] {
      forall i | |full| - d <= i < |full| ensures full[i - 1] > full[i] {
        assert window[i - o - 1] > window[i - o];
      }
    }
  }

  /** Evaluation fails with an exception only on an empty history, or when a negative window skips all of it. */
  lemma RaisesIff(history: seq<real>, current: real, config: TrendConfig, baseline: Option<real>)
    ensures EvaluateTrend(history, current, config, baseline) == EmptyHistory
       <==> history == [] && config.minHistory <= 0
    ensures EvaluateTrend(history, current, config, baseline) == EmptySample
       <==> history != [] && config.minHistory <= |history| && -config.window >= |history|
  {
    hide Sum;
  }

  // ---------------------------------------------------------------- one cutoff decides

  datatype Cutoff = Never | Below(limit: real) | Always

  predicate Fails(cutoff: Cutoff, score: real) {
    cutoff.Always? || (cutoff.Below? && score < cutoff.limit)
  }

  function Higher(a: Cutoff, b: Cutoff): (c: Cutoff)
    ensures forall score :: Fails(c, score) <==> Fails(a, score) || Fails(b, score)
  {
    if a.Never? || b.Always? then b
    else if b.Never? || a.Always? then a
    else if a.limit < b.limit then b else a
  }

  function MonotonicCutoff(history: seq<real>, runs: int): Cutoff {
    if runs <= 1 then
      if |history| > 1 - runs then Always else Never
    else if history != [] && TrailingDrops(history) >= runs - 2 then Below(history[|history| - 1])
    else Never
  }

  function TrendCutoff(history: seq<real>, config: TrendConfig): Cutoff {
    if |history| < config.minHistory then Never
    else
      match RollingMean(history, config.window)
      case Ok(rolling) =>
        Higher(MonotonicCutoff(history, config.monotonicRuns), Below(rolling - config.deltaThreshold))
      case _ => Never
  }

  function CutoffOf(history: seq<real>, config: TrendConfig, baseline: Option<real>): Cutoff {
    Higher(TrendCutoff(history, config), if baseline.Some? then Below(baseline.value) else Never)
  }

  lemma MonotonicIsCutoff(history: seq<real>, current: real, runs: int)
    ensures MonotonicRule(history, current, runs) <==> Fails(MonotonicCutoff(history, runs), current)
  {
    MonotonicRuleIff(history, current, runs);
    assert (history + [current])[..|history|] == history;
    hide MonotonicRule;
  }

  /** A verdict is a hard failure exactly when the score is below the cutoff of its history. */
  lemma HardFailIsCutoff(history: seq<real>, current: real, config: TrendConfig, baseline: Option<real>)
    requires EvaluateTrend(history, current, config, baseline).Ok?
    ensures EvaluateTrend(history, current, config, baseline).value.IsHardFail()
       <==> Fails(CutoffOf(history, config, baseline), current)
  {
    MonotonicIsCutoff(history, current, config.monotonicRuns);
    hide MonotonicRule, MonotonicCutoff, TrailingDrops, Sum;
  }

  /** Raising the score never turns a pass into a failure, nor a verdict into an exception. */
  lemma RaisingNeverFails(history: seq<real>, low: real, high: real, config: TrendConfig, baseline: Option<real>)
    requires low <= high
    ensures var l, h := EvaluateTrend(history, low, config, baseline), EvaluateTrend(history, high, config, baseline);
            && (l.Ok? <==> h.Ok?)
            && (l.Ok? && h.value.IsHardFail() ==> l.value.IsHardFail())
  {
    RaisesIff(history, low, config, baseline);
    RaisesIff(history, high, config, baseline);
    if EvaluateTrend(history, low, config, baseline).Ok? && EvaluateTrend(history, high, config, baseline).Ok? {
      HardFailIsCutoff(history, low, config, baseline);
      HardFailIsCutoff(history, high, config, baseline);
    }
  }

  /** With `monotonic_runs` 1 every score after the first run fails, a rising one included. */
  lemma OneRunAlwaysFails(history: seq<real>, current: real, config: TrendConfig, baseline: Option<real>)
    requires config.monotonicRuns == 1 && config.window > 0 && config.minHistory > 0
    ensures var r := EvaluateTrend(history, current, config, baseline);
            r.Ok? && (r.value.status == MonotonicRegression <==> |history| >= config.minHistory)
  {
    MonotonicRuleIff(history, current, 1);
    RaisesIff(history, current, config, baseline);
  }

  // ---------------------------------------------------------------- the mean

  predicate Within(s: seq<real>, lo: real, hi: real) {
    forall i :: 0 <= i < |s| ==> lo <= s[i] <= hi
  }

  lemma OneMore(x: real, n: nat)
    ensures x * (n + 1) as real == x * n as real + x
  {
    assert (n + 1) as real == n as real + 1.0;
  }

  lemma {:induction false} SumBounds(s: seq<real>, lo: real, hi: real)
    requires Within(s, lo, hi)
    ensures lo * |s| as real <= Sum(s) <= hi * |s| as real
  {
    if s != [] {
      var p, x := s[..|s| - 1], s[|s| - 1];
      assert lo <= x <= hi && Within(p, lo, hi);
      hide Within;
      SumBounds(p, lo, hi);
      OneMore(lo, |p|);
      OneMore(hi, |p|);
    }
  }

  /** Where the slice of the mean starts: Python's `history[-window:]`. */
  function WindowStart(length: nat, window: int): nat {
    if window > 0 then
      if window <= length then length - window else 0
    else if -window <= length then -window else length
  }

  lemma MeanIs(history: seq<real>, window: int)
    requires history != []
    ensures var start := WindowStart(|history|, window);
            && start <= |history|
            && RollingMean(history, window) == if start == |history| then EmptySample
                                               else Ok(Sum(history[start..]) / (|history| - start) as real)
  {
    hide Sum;
    assert From(history, -window) == history[WindowStart(|history|, window)..];
  }

  lemma WindowWithin(history: seq<real>, window: int, lo: real, hi: real)
    requires window > 0 && forall i :: 0 <= i < |history| && i >= |history| - window ==> lo <= history[i] <= hi
    ensures Within(history[WindowStart(|history|, window)..], lo, hi)
  {
  }

  /** The mean of the window lies between bounds that hold for its scores. */
  lemma MeanBounds(history: seq<real>, window: int, lo: real, hi: real)
    requires RollingMean(history, window).Ok?
    requires forall i :: 0 <= i < |history| && i >= |history| - window ==> lo <= history[i] <= hi
    requires window > 0
    ensures lo <= RollingMean(history, window).value <= hi
  {
    MeanIs(history, window);
    WindowWithin(history, window, lo, hi);
    hide RollingMean, Sum, WindowStart, Within;
    var sample := history[WindowStart(|history|, window)..];
    SumBounds(sample, lo, hi);
    QuotientBounds(Sum(sample), |sample|, lo, hi);
  }

  lemma QuotientBounds(total: real, n: nat, lo: real, hi: real)
    requires n > 0 && lo * n as real <= total <= hi * n as real
    ensures lo <= total / n as real <= hi
  {
    var m, d := total / n as real, n as real;
    assert m * d == total;
    assert m < lo ==> (lo - m) * d > 0.0 && (lo - m) * d == lo * d - m * d;
    assert m > hi ==> (m - hi) * d > 0.0 && (m - hi) * d == m * d - hi * d;
  }

  lemma {:induction false} SumMoves(s: seq<real>, i: nat, d: real)
    requires i < |s|
    ensures Sum(s[i := s[i] + d]) == Sum(s) + d
  {
    var n := |s| - 1;
    if i == n {
      assert s[i := s[i] + d][..n] == s[..n];
    } else {
      assert s[i := s[i] + d][..n] == s[..n][i := s[i] + d];
      SumMoves(s[..n], i, d);
    }
  }

  /**
   Every score in the window counts the same: raising one of the n by d raises the mean by d / n. Scores
   before the window do not count.
   */
  lemma MeanMoves(history: seq<real>, window: int, i: nat, d: real)
    requires i < |history| && RollingMean(history, window).Ok?
    ensures var start, moved := WindowStart(|history|, window), RollingMean(history[i := history[i] + d], window);
            && start < |history| && moved.Ok?
            && moved.value == RollingMean(history, window).value
                              + if i < start then 0.0 else d / (|history| - start) as real
  {
    var start, changed := WindowStart(|history|, window), history[i := history[i] + d];
    MeanIs(history, window);
    MeanIs(changed, window);
    hide RollingMean, Sum, WindowStart;
    if i < start {
      assert changed[start..] == history[start..];
    } else {
      assert changed[start..] == history[start..][i - start := history[i] + d];
      SumMoves(history[start..], i - start, d);
      Share(Sum(history[start..]), d, (|history| - start) as real);
    }
  }

  lemma Share(a: real, d: real, n: real)
    requires n > 0.0
    ensures (a + d) / n == a / n + d / n
  {
    var p, q, r := (a + d) / n, a / n, d / n;
    assert p * n == a + d && q * n == a && r * n == d;
    assert (p - q - r) * n == 0.0;
  }

  /** Equal scores have themselves as their mean. */
  lemma MeanOfEqual(history: seq<real>, window: int, x: real)
    requires RollingMean(history, window).Ok? && forall i :: 0 <= i < |history| ==> history[i] == x
    ensures RollingMean(history, window).value == x
  {
    MeanIs(history, window);
    var sample := history[WindowStart(|history|, window)..];
    assert Within(sample, x, x);
    hide RollingMean, Sum, WindowStart, Within;
    SumBounds(sample, x, x);
    QuotientBounds(Sum(sample), |sample|, x, x);
  }

  // ---------------------------------------------------------------- the verdict

  /**
   What a verdict reports: nothing but the number of runs on too short a history; else the mean, the
   distance from it, and a falling streak before a single drop before stability. A breach of the baseline
   is reported whatever the status.
   */
  lemma VerdictReports(history: seq<real>, current: real, config: TrendConfig, baseline: Option<real>)
    requires EvaluateTrend(history, current, config, baseline).Ok?
    ensures var v, mean := EvaluateTrend(history, current, config, baseline).value, RollingMean(history, config.window);
            var streak := if config.monotonicRuns >= 2
                          then TrailingDrops(history + [current]) >= config.monotonicRuns - 1
                          else |history| > 1 - config.monotonicRuns;
            && v.runCount == |history| + 1
            && (v.baselineBreach <==> baseline.Some? && current < baseline.value)
            && (v.status == InsufficientData <==> |history| < config.minHistory)
            && (v.status == InsufficientData ==> v.rollingMean == None && v.delta == None && v.consecutiveDrops == 0)
            && (v.status != InsufficientData ==>
                  && mean.Ok? && v.rollingMean == Some(mean.value) && v.delta == Some(current - mean.value)
                  && (v.status == MonotonicRegression <==> streak)
                  && (v.status == RegressionDetected <==> !streak && current < mean.value - config.deltaThreshold)
                  && v.consecutiveDrops == if streak then TrailingDrops(history + [current]) else 0)
            && (v.IsHardFail() <==>
                  v.status == RegressionDetected || v.status == MonotonicRegression || v.baselineBreach)
  {
    MonotonicRuleIff(history, current, config.monotonicRuns);
    hide MonotonicRule, TrailingDrops, RollingMean;
  }
}
