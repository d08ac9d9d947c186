# Moving-average crossover backtest, modelled in Dafny

This project models the two computational pieces of the quant-backtester
repository.

The first is the moving-average crossover signal generator,
`moving_average_signals` in `signals.py`. It takes a price column and builds:
- a short and a long trailing mean (`rolling(window, min_periods=1).mean()`);
- a `signal` column. It is `0.0` during a warm-up of `short_window` bars.
  After that it is `+1.0` when the short mean is above the long mean and
  `-1.0` otherwise, so ties go to `-1.0`;
- a `positions` column, the first difference of `signal`.

The second is the long-only backtest, `backtest_strategy` in `backtest.py`.
It walks the bars once and skips bar 0. It carries `cash` (starting at the
initial capital) and `shares` (starting at 0) from bar to bar:
- when the signal changes to `1.0` and there is cash, it buys shares with all
  of it;
- when the signal changes to `-1.0` and there are shares, it sells all of them;
- any other change, including a change to `0.0`, does nothing.

Every bar from bar 1 on records Shares, Cash, Holdings = shares·price and
Total = cash + shares·price. `Returns` is the percentage change of Total.

All numbers are Dafny `real`s, so the proofs are about the trading rules and
not about floating-point rounding. NaN cells of the pandas frames are explicit
values (`Values.Cell.NaN`).

Files and modules:
- `values.dfy` (`Values`): the `Cell` type and a `Result` type.
- `signals.dfy` (`Signals`): pure functions over `seq<real>` and lemmas about them.
- `backtest.dfy` (`Backtest`): the backtest. One spec function, `StateAt`,
  gives the state recorded at each bar. The method `BacktestStrategy` has a
  loop over freshly allocated column arrays, mirroring the in-place `.loc`
  writes of the source, and is proved against `StateAt`. The loop body is
  verified as two helper methods, `RecordBar` and `ApplySignalChange`, which
  the loop calls. They hold the source's own statements, in the same order.
- `pipeline.dfy` (`Pipeline`): lemmas about feeding the crossover signal to
  the backtest.

`backtest.py` and `signals.py` have no short selling, no stop-loss,
take-profit or trailing-stop exits, no deduplication window, no transaction
log and no Williams %R or composite strategy, so the model has none of them.

The backtest requires every price to be positive, and the price column to be
aligned with the signal index (same length). The buy rule divides by the
price, so a non-positive price has no meaning in the model.

## Model

| member | source | states |
|---|---|---|
| `Signals.WindowStart` | signals.py:10-11 | the trailing window at bar i starts at max(0, i-w+1) and holds min(w, i+1) prices |
| `Signals.Window` | signals.py:10-11 | with `min_periods=1` the window holds min(w, i+1) prices, and they are exactly the consecutive prices that end at bar i |
| `Signals.RollingMean` | signals.py:10-11 | the rolling mean has one value per price |
| `Signals.CrossoverSignal` | signals.py:13-15 | 0.0 before the warm-up ends; after it, 1.0 exactly when short > long and -1.0 exactly when short <= long |
| `Signals.Diff` | signals.py:17 | `diff()` is NaN at bar 0, and at every later bar it is a number that adds the previous signal up to the current one; it is 0 exactly when the signal did not change |
| `Signals.MovingAverageSignals` | signals.py:4-19 | fails exactly when a window is below 1 (`min_periods=1` would exceed it), naming the short window when both are bad, since it is computed first; otherwise every column has the length of the prices, each mean is the mean of its trailing window, the signal is 0.0 during the warm-up and then follows the crossover rule with ties going to -1.0, and positions are NaN then first differences |
| `Signals.RollingMeanWithinWindow` | signals.py:10-11 | every moving-average value lies between the smallest and the largest price of its window |
| `Signals.RollingMeanByPrefixSums` | signals.py:10-11 | independent reference: the rolling mean equals a difference of two running totals divided by the window's length |
| `Signals.RollingMeanUnitWindow` | signals.py:10 | a window of width 1 gives back the price column |
| `Signals.RollingMeanOfConstant` | signals.py:10-11 | over a constant price every moving average equals that price |
| `Signals.EqualWindowsNeverBuy` | signals.py:13-15 | with equal short and long windows the means tie, so every post-warm-up signal is -1.0 |
| `Signals.ConstantPricesSell` | signals.py:13-15 | over a constant price every post-warm-up signal is -1.0 (the tie-break) |
| `Signals.WarmUpCoversSeries` | signals.py:13 | when short_window is at least the series length, every signal is 0.0 and every position change from bar 1 on is 0 |
| `Signals.PositionsRecoverSignal` | signals.py:17 | the NaN-skipping running sum of `positions` up to bar i, plus the signal at bar 0, gives back the signal at bar i (diff and cumsum are inverses) |
| `Signals.PositionSteps` | signals.py:17 | for a signal in {-1, 0, 1}, every position change is one of -2, -1, 0, 1, 2 |
| `Backtest.Trade` | backtest.py:37-45 | one bar's rules: from a state with cash = 0 or shares = 0, the new state also has one of them at 0 and the same value at the bar's price; an unchanged signal leaves the state alone |
| `Backtest.StateAt` | backtest.py:25-51 | the state recorded at bar i (bar 0 is the initial capital with no shares, each later bar applies `Trade`); at every bar cash = 0 or shares = 0 |
| `Backtest.PctChange` | backtest.py:53 | `Returns` has one cell per ledger row |
| `Backtest.BacktestStrategy` | backtest.py:5-54 | one ledger row per signal index; Position and Price are the inputs; row 0 keeps Shares 0, Cash = Total = initial capital and Holdings NaN; every row from 1 on holds `StateAt`'s cash and shares, Holdings = shares·price and Total = cash + shares·price; Returns is the percent change of Total; with positive capital every Returns cell from row 1 on is the price's return when the previous bar was LONG and 0 when it was FLAT |
| `Backtest.ApplySignalChange` | backtest.py:36-45 | the imperative buy/sell branch produces exactly the state `Trade` specifies |
| `Backtest.RecordBar` | backtest.py:32-51 | one loop pass: the carried state moves from bar i-1 to bar i, row i of all four columns is written, and no other row changes |
| `Backtest.TradeFiresExactly` | backtest.py:37-45 | a bar changes the state if and only if the buy rule (signal changes to 1.0 and cash > 0) or the sell rule (signal changes to -1.0 and shares > 0) fires |
| `Backtest.NeutralSignalNeverTrades` | backtest.py:38-45 | a change to 0.0, or to any value but ±1, never trades |
| `Backtest.BuyConservesValue` | backtest.py:38-41 | after a buy, cash is 0 and shares·price equals the cash spent |
| `Backtest.SellConservesValue` | backtest.py:42-45 | after a sell, shares are 0 and cash equals the old shares·price |
| `Backtest.NeverNegative` | backtest.py:25-45 | with non-negative initial capital, cash and shares are non-negative at every bar |
| `Backtest.FlatOrLong` | backtest.py:25-45 | with positive initial capital, every bar is exactly FLAT (cash > 0, no shares) or LONG (no cash, shares > 0) |
| `Backtest.TotalCarriesOver` | backtest.py:37-51 | a bar's Total equals the previous bar's cash and shares valued at the current price: trades never create or destroy value |
| `Backtest.NoTradeWhileSignalHolds` | backtest.py:37 | while the signal still equals its bar-0 value, the run keeps its initial cash and no shares |
| `Backtest.ReturnsFollowPosition` | backtest.py:53 | with positive capital the previous bar's Total is positive, and the ratio of consecutive Totals minus 1 is the price's return when bar i-1 was LONG and 0 when it was FLAT |
| `Backtest.ReturnsColumnFollowsPosition` | backtest.py:53 | the same fact read off the `Returns` column: `PctChange` of a Total column recorded as the loop records it is, at every row i ≥ 1, the price's return when bar i-1 was LONG and 0 when it was FLAT |
| `Backtest.LedgerReturns` | backtest.py:25-53 | `ReturnsColumnFollowsPosition` at every row, from the column facts `BacktestStrategy` ensures |
| `Backtest.NoCapitalNoTrade` | backtest.py:39 | with zero capital nothing is ever bought: every row holds no cash and no shares |
| `Pipeline.WarmUpNeverTrades` | signals.py:13 | fed the crossover signal, the backtest holds its initial cash for every warm-up bar |
| `Pipeline.FirstBarAfterWarmUp` | backtest.py:38-41 | at bar short_window the run buys with all its capital exactly when the short mean is above the long mean; on a tie or below it stays in cash |
| `Pipeline.TradesOnlyWherePositionsFlag` | signals.py:17 | the ledger changes only on bars whose `positions` entry is a non-zero change |

## Left out

- `plot_portfolio` (backtest.py:56-95): plotting and debug printing are I/O.
- The price-column choice between `Adj Close` and `Close`, and taking the first column of a frame (backtest.py:6-9, signals.py:8): the model receives the price column directly.
- `reindex(...).ffill()` (backtest.py:12): the prices are required to be already aligned with the signal index (same length) and positive, so the leading NaN a forward fill can leave is not modelled.
- Floating-point behaviour (rounding, NaN propagation, division by zero giving inf): numbers are `real`. So price > 0 is a precondition of the backtest.
- Backtest.PctChange: it gives NaN whenever the previous Total is 0, where pandas gives NaN for 0/0 and ±inf for x/0 with x ≠ 0. In the backtest a zero Total happens only with zero capital, and then every Total is 0 (`NoCapitalNoTrade`), so only the 0/0 case arises.
- The `Holdings` column is created by the first `.loc` write at bar 1. For a one-row frame it does not exist at all. The model always has the column and fills row 0 with NaN.
- The DataFrame index (timestamps) is not modelled: rows are identified by position, which is how the loop and the slices `[short_window:]` use them.
- data_fetcher.py (a market-data download), strategy.py (wrappers that fetch data and call a signal function) and main.py (configuration and command-line wiring) are not part of this model.
- The default `initial_capital=10000.0` of `backtest_strategy` (backtest.py:5): Dafny methods have no default arguments, so every caller passes the initial capital explicitly.
- The exact wording of the pandas ValueError for a window below 1 depends on the pandas version. The model has a single error kind that names the offending window; it does not model the message text.
