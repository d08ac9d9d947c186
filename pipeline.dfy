/**
 * The crossover signal fed to the backtest: what the warm-up and the first
 * crossover mean for the ledger.
 */
module Pipeline {
  import opened Values
  import Signals
  import opened Backtest

  /** During the warm-up the signal stays 0.0, so the run holds its initial cash. */
  lemma WarmUpNeverTrades(prices: seq<real>, shortWindow: int, longWindow: int, initialCapital: real, i: nat)
    requires 1 <= shortWindow && 1 <= longWindow
    requires PositivePrices(prices) && i < |prices| && i < shortWindow
    ensures var signal := Signals.MovingAverageSignals(prices, shortWindow, longWindow).value.signal;
            StateAt(signal, prices, initialCapital, i) == State(initialCapital, 0.0)
  {
    var signal := Signals.MovingAverageSignals(prices, shortWindow, longWindow).value.signal;
    NoTradeWhileSignalHolds(signal, prices, initialCapital, i);
  }

  /**
   * At the first post-warm-up bar the run buys with all its capital exactly
   * when the short mean is above the long mean; otherwise (ties included) it
   * stays in cash.
   */
  lemma FirstBarAfterWarmUp(prices: seq<real>, shortWindow: int, longWindow: int, initialCapital: real)
    requires 1 <= shortWindow && 1 <= longWindow
    requires PositivePrices(prices) && shortWindow < |prices| && initialCapital > 0.0
    ensures var f := Signals.MovingAverageSignals(prices, shortWindow, longWindow).value;
            var s := StateAt(f.signal, prices, initialCapital, shortWindow);
            if f.shortMavg[shortWindow] > f.longMavg[shortWindow]
            then s == State(0.0, initialCapital / prices[shortWindow])
            else s == State(initialCapital, 0.0)
  {
    var f := Signals.MovingAverageSignals(prices, shortWindow, longWindow).value;
    WarmUpNeverTrades(prices, shortWindow, longWindow, initialCapital, shortWindow - 1);
  }

  /** The ledger can change only on a bar whose `positions` entry flags a signal change. */
  lemma TradesOnlyWherePositionsFlag(
    prices: seq<real>, shortWindow: int, longWindow: int, initialCapital: real, i: nat)
    requires 1 <= shortWindow && 1 <= longWindow
    requires PositivePrices(prices) && 1 <= i < |prices|
    ensures var f := Signals.MovingAverageSignals(prices, shortWindow, longWindow).value;
            (StateAt(f.signal, prices, initialCapital, i) != StateAt(f.signal, prices, initialCapital, i - 1)
             ==> f.positions[i] != Num(0.0))
  {
  }
}
