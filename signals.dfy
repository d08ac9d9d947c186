/**
 * The moving-average crossover signal generator (`moving_average_signals`).
 * Every column is a total function of the price column; nothing is carried
 * from one bar to the next.
 */
module Signals {
  import opened Values

  /**
   * The ValueError pandas raises for `rolling(window = w, min_periods = 1)`
   * when `w` is below 1: `min_periods` would exceed the window. It names the
   * offending window.
   */
  datatype WindowError = WindowBelowMinPeriods(window: int)

  /** The columns of the returned frame, all indexed like the price column. */
  datatype SignalFrame = SignalFrame(
    signal: seq<real>,
    shortMavg: seq<real>,
    longMavg: seq<real>,
    positions: seq<Cell>)

  /** Sum of a sequence, folded from the back so that growing a prefix adds one term. */
  function Sum(s: seq<real>): real
  {
    if |s| == 0 then 0.0 else Sum(s[..|s| - 1]) + s[|s| - 1]
  }

  function Mean(s: seq<real>): real
    requires |s| > 0
  {
    Sum(s) / (|s| as real)
  }

  function Min(s: seq<real>): (m: real)
    requires |s| > 0
    ensures m in s
    ensures forall k :: 0 <= k < |s| ==> m <= s[k]
  {
    if |s| == 1 then s[0]
    else
      var m' := Min(s[..|s| - 1]);
      if s[|s| - 1] < m' then s[|s| - 1] else m'
  }

  function Max(s: seq<real>): (m: real)
    requires |s| > 0
    ensures m in s
    ensures forall k :: 0 <= k < |s| ==> s[k] <= m
  {
    if |s| == 1 then s[0]
    else
      var m' := Max(s[..|s| - 1]);
      if s[|s| - 1] > m' then s[|s| - 1] else m'
  }

  /** First index of the trailing window of width `w` that ends at bar `i`: max(0, i - w + 1). */
  function WindowStart(i: nat, w: nat): (start: nat)
    requires 1 <= w
    ensures start <= i
    ensures i + 1 - start == if i + 1 < w then i + 1 else w
  {
    if i + 1 < w then 0 else i + 1 - w
  }

  /**
   * The prices a rolling mean of width `w` averages at bar `i`. With
   * `min_periods = 1` a window that would reach before bar 0 is cut short.
   */
  function Window(prices: seq<real>, w: nat, i: nat): (win: seq<real>)
    requires 1 <= w && i < |prices|
    ensures |win| == if i + 1 < w then i + 1 else w
    ensures forall k :: 0 <= k < |win| ==> win[k] == prices[i + 1 - |win| + k]
  {
    prices[WindowStart(i, w)..i + 1]
  }

  /** `rolling(window = w, min_periods = 1).mean()`. */
  function RollingMean(prices: seq<real>, w: nat): (m: seq<real>)
    requires 1 <= w
    ensures |m| == |prices|
  {
    seq(|prices|, i requires 0 <= i < |prices| => Mean(Window(prices, w, i)))
  }

  /** The `signal` column: 0.0 during the warm-up, then +1 / -1 by comparing the two means. */
  function CrossoverSignal(shortMavg: seq<real>, longMavg: seq<real>, warmUp: nat): (sig: seq<real>)
    requires |shortMavg| == |longMavg|
    ensures |sig| == |shortMavg|
    ensures forall i :: 0 <= i < |sig| && i < warmUp ==> sig[i] == 0.0
    ensures forall i :: warmUp <= i < |sig| ==>
              (sig[i] == 1.0 <==> shortMavg[i] > longMavg[i]) &&
              (sig[i] == -1.0 <==> shortMavg[i] <= longMavg[i])
  {
    seq(|shortMavg|, i requires 0 <= i < |shortMavg| =>
      if i < warmUp then 0.0
      else if shortMavg[i] > longMavg[i] then 1.0
      else -1.0)
  }

  /** `diff()`: NaN at bar 0, then the change from the previous bar. */
  function Diff(s: seq<real>): (d: seq<Cell>)
    ensures |d| == |s|
    ensures |s| > 0 ==> d[0] == NaN
    ensures forall i :: 1 <= i < |s| ==> d[i].Num? && s[i] == s[i - 1] + d[i].v
    ensures forall i :: 1 <= i < |s| ==> (d[i] == Num(0.0) <==> s[i] == s[i - 1])
  {
    seq(|s|, i requires 0 <= i < |s| => if i == 0 then NaN else Num(s[i] - s[i - 1]))
  }

  /** `moving_average_signals(df, short_window, long_window)` on the chosen price column. */
  function MovingAverageSignals(prices: seq<real>, shortWindow: int, longWindow: int)
    : (r: Result<SignalFrame, WindowError>)
    ensures r.Err? <==> shortWindow < 1 || longWindow < 1
    ensures shortWindow < 1 ==> r == Err(WindowBelowMinPeriods(shortWindow))
    ensures shortWindow >= 1 && longWindow < 1 ==> r == Err(WindowBelowMinPeriods(longWindow))
    ensures r.Ok? ==>
              var f := r.value;
              |f.signal| == |prices| && |f.shortMavg| == |prices| &&
              |f.longMavg| == |prices| && |f.positions| == |prices|
    ensures r.Ok? ==>
              forall i :: 0 <= i < |prices| ==>
                r.value.shortMavg[i] == Mean(Window(prices, shortWindow, i)) &&
                r.value.longMavg[i] == Mean(Window(prices, longWindow, i))
    ensures r.Ok? ==>
              forall i :: 0 <= i < |prices| && i < shortWindow ==> r.value.signal[i] == 0.0
    ensures r.Ok? ==>
              forall i :: shortWindow <= i < |prices| ==>
                (r.value.signal[i] == 1.0 <==> r.value.shortMavg[i] > r.value.longMavg[i]) &&
                (r.value.signal[i] == -1.0 <==> r.value.shortMavg[i] <= r.value.longMavg[i])
    ensures r.Ok? && |prices| > 0 ==> r.value.positions[0] == NaN
    ensures r.Ok? ==>
              forall i :: 1 <= i < |prices| ==>
                r.value.positions[i] == Num(r.value.signal[i] - r.value.signal[i - 1])
  {
    // short_mavg is computed before long_mavg, so its error is the one raised
    if shortWindow < 1 then Err(WindowBelowMinPeriods(shortWindow))
    else if longWindow < 1 then Err(WindowBelowMinPeriods(longWindow))
    else
      var shortMavg := RollingMean(prices, shortWindow);
      var longMavg := RollingMean(prices, longWindow);
      var signal := CrossoverSignal(shortMavg, longMavg, shortWindow);
      Ok(SignalFrame(signal, shortMavg, longMavg, Diff(signal)))
  }

  // ---------------------------------------------------------------------------
  // Sums

  lemma {:induction false} SumAppend(a: seq<real>, b: seq<real>)
    ensures Sum(a + b) == Sum(a) + Sum(b)
    decreases |b|
  {
    if |b| > 0 {
      assert (a + b)[..|a + b| - 1] == a + b[..|b| - 1];
      SumAppend(a, b[..|b| - 1]);
    } else {
      assert a + b == a;
    }
  }

  lemma {:induction false} SumBounds(s: seq<real>, lo: real, hi: real)
    requires forall k :: 0 <= k < |s| ==> lo <= s[k] <= hi
    ensures lo * (|s| as real) <= Sum(s) <= hi * (|s| as real)
    decreases |s|
  {
    if |s| > 0 {
      SumBounds(s[..|s| - 1], lo, hi);
      assert (|s| as real) == ((|s| - 1) as real) + 1.0;
    }
  }

  /** A mean lies within any bounds that hold of every value it averages. */
  lemma MeanWithinBounds(s: seq<real>, lo: real, hi: real)
    requires |s| > 0
    requires forall k :: 0 <= k < |s| ==> lo <= s[k] <= hi
    ensures lo <= Mean(s) <= hi
  {
    SumBounds(s, lo, hi);
    QuotientBounds(Sum(s), |s| as real, lo, hi);
  }

  lemma QuotientBounds(total: real, n: real, lo: real, hi: real)
    requires n > 0.0 && lo * n <= total <= hi * n
    ensures lo <= total / n <= hi
  {
    assert (total / n) * n == total;
  }

  // ---------------------------------------------------------------------------
  // Rolling means

  /** Each moving-average value lies between the least and greatest price of its window. */
  lemma RollingMeanWithinWindow(prices: seq<real>, w: nat, i: nat)
    requires 1 <= w && i < |prices|
    ensures Min(Window(prices, w, i)) <= RollingMean(prices, w)[i] <= Max(Window(prices, w, i))
  {
    var win := Window(prices, w, i);
    MeanWithinBounds(win, Min(win), Max(win));
  }

  /**
   * An independent reference for the rolling mean: the difference of two
   * running totals divided by the number of prices between them.
   */
  lemma RollingMeanByPrefixSums(prices: seq<real>, w: nat, i: nat)
    requires 1 <= w && i < |prices|
    ensures var start := WindowStart(i, w);
            RollingMean(prices, w)[i]
              == (Sum(prices[..i + 1]) - Sum(prices[..start])) / ((i + 1 - start) as real)
  {
    var start := WindowStart(i, w);
    assert prices[..i + 1] == prices[..start] + prices[start..i + 1];
    SumAppend(prices[..start], prices[start..i + 1]);
  }

  /** A window of width 1 reproduces the price column. */
  lemma RollingMeanUnitWindow(prices: seq<real>)
    ensures RollingMean(prices, 1) == prices
  {
    forall i | 0 <= i < |prices|
      ensures RollingMean(prices, 1)[i] == prices[i]
    {
      assert Window(prices, 1, i) == [prices[i]];
      assert Sum([prices[i]]) == Sum([]) + prices[i];
    }
  }

  /** Over an unchanging price every moving average equals that price. */
  lemma RollingMeanOfConstant(prices: seq<real>, w: nat, c: real, i: nat)
    requires 1 <= w && i < |prices|
    requires forall k :: 0 <= k < |prices| ==> prices[k] == c
    ensures RollingMean(prices, w)[i] == c
  {
    var win := Window(prices, w, i);
    RollingMeanWithinWindow(prices, w, i);
    assert Min(win) in win && Max(win) in win;
  }

  // ---------------------------------------------------------------------------
  // The signal column

  /** Equal means sell: with one window width for both means every post-warm-up bar is -1. */
  lemma EqualWindowsNeverBuy(prices: seq<real>, w: int, i: nat)
    requires 1 <= w && w <= i < |prices|
    ensures MovingAverageSignals(prices, w, w).Ok?
    ensures MovingAverageSignals(prices, w, w).value.signal[i] == -1.0
  {
  }

  /** Over an unchanging price the two means tie, so every post-warm-up bar is -1. */
  lemma ConstantPricesSell(prices: seq<real>, shortWindow: int, longWindow: int, c: real, i: nat)
    requires 1 <= shortWindow <= i < |prices| && 1 <= longWindow
    requires forall k :: 0 <= k < |prices| ==> prices[k] == c
    ensures MovingAverageSignals(prices, shortWindow, longWindow).value.signal[i] == -1.0
  {
    RollingMeanOfConstant(prices, shortWindow, c, i);
    RollingMeanOfConstant(prices, longWindow, c, i);
  }

  /** A warm-up as long as the series leaves every signal flat and every position change 0. */
  lemma WarmUpCoversSeries(prices: seq<real>, shortWindow: int, longWindow: int)
    requires 1 <= shortWindow && 1 <= longWindow && |prices| <= shortWindow
    ensures var r := MovingAverageSignals(prices, shortWindow, longWindow);
            r.Ok? &&
            (forall i :: 0 <= i < |prices| ==> r.value.signal[i] == 0.0) &&
            (forall i :: 1 <= i < |prices| ==> r.value.positions[i] == Num(0.0))
  {
  }

  // ---------------------------------------------------------------------------
  // The positions column

  /** pandas `cumsum()` of a column, which skips NaN, evaluated at its last bar. */
  function CumSum(col: seq<Cell>): real
  {
    if |col| == 0 then 0.0
    else CumSum(col[..|col| - 1]) + (match col[|col| - 1] case NaN => 0.0 case Num(v) => v)
  }

  /** The positions column is an exact inverse of the signal: its running sum recovers it. */
  lemma {:induction false} PositionsRecoverSignal(sig: seq<real>, i: nat)
    requires i < |sig|
    ensures sig[i] == sig[0] + CumSum(Diff(sig)[..i + 1])
  {
    var d := Diff(sig);
    if i == 0 {
      assert d[..1] == [NaN];
      assert d[..1][..0] == [];
    } else {
      PositionsRecoverSignal(sig, i - 1);
      assert d[..i + 1][..i] == d[..i];
    }
  }

  /** When the signal takes only the values -1, 0, +1, each position change is one of -2..2. */
  lemma PositionSteps(sig: seq<real>, i: nat)
    requires forall k :: 0 <= k < |sig| ==> sig[k] == -1.0 || sig[k] == 0.0 || sig[k] == 1.0
    requires 1 <= i < |sig|
    ensures Diff(sig)[i].v in {-2.0, -1.0, 0.0, 1.0, 2.0}
  {
  }
}
