/**
 * The long-only backtest (`backtest_strategy`). A run carries cash and shares
 * from bar to bar. A new +1 signal buys with all the cash, a new -1 signal
 * sells all the shares, and every row of the ledger records the state after
 * its bar.
 */
module Backtest {
  import opened Values

  /** What the loop carries from bar to bar. */
  datatype State = State(cash: real, shares: real)

  /** The finished portfolio frame, one entry per signal index in every column. */
  datatype Portfolio = Portfolio(
    position: seq<real>,
    price: seq<real>,
    shares: seq<real>,
    cash: seq<real>,
    total: seq<real>,
    holdings: seq<Cell>,
    pctReturns: seq<Cell>)

  predicate PositivePrices(prices: seq<real>)
  {
    forall i :: 0 <= i < |prices| ==> prices[i] > 0.0
  }

  /** Cash plus shares marked at `price`: the ledger's Total. */
  function Value(s: State, price: real): real
  {
    s.cash + s.shares * price
  }

  /** FLAT (everything in cash) or LONG (everything in shares): never both. */
  predicate AtMostOneHeld(s: State)
  {
    s.cash == 0.0 || s.shares == 0.0
  }

  /** The buy rule fires: the signal moves to 1.0 and there is cash to spend. */
  predicate Buys(s: State, prevSignal: real, curSignal: real)
  {
    curSignal != prevSignal && curSignal == 1.0 && prevSignal != 1.0 && s.cash > 0.0
  }

  /** The sell rule fires: the signal moves to -1.0 and there are shares to sell. */
  predicate Sells(s: State, prevSignal: real, curSignal: real)
  {
    curSignal != prevSignal && curSignal == -1.0 && prevSignal != -1.0 && s.shares > 0.0
  }

  /**
   * One bar of the loop: the state after the bar whose signal moves from
   * `prevSignal` to `curSignal` at `price`.
   */
  function Trade(s: State, prevSignal: real, curSignal: real, price: real): (r: State)
    requires price > 0.0
    ensures AtMostOneHeld(s) ==> AtMostOneHeld(r) && Value(r, price) == Value(s, price)
    ensures curSignal == prevSignal ==> r == s
  {
    if curSignal != prevSignal then
      if curSignal == 1.0 && prevSignal != 1.0 then
        if s.cash > 0.0 then State(0.0, s.cash / price) else s
      else if curSignal == -1.0 && prevSignal != -1.0 then
        if s.shares > 0.0 then State(s.shares * price, 0.0) else s
      else s
    else s
  }

  /** The state recorded in row `i`: row 0 is the initial state, bar 0 is never traded. */
  function StateAt(signal: seq<real>, prices: seq<real>, initialCapital: real, i: nat): (s: State)
    requires |prices| == |signal| && PositivePrices(prices) && i < |signal|
    ensures AtMostOneHeld(s)
    decreases i
  {
    if i == 0 then State(initialCapital, 0.0)
    else Trade(StateAt(signal, prices, initialCapital, i - 1), signal[i - 1], signal[i], prices[i])
  }

  /** Holdings and Total of a ledger row that holds `cash` and `shares` at `price`. */
  predicate MarksRow(cash: real, shares: real, holdings: Cell, total: real, price: real)
  {
    holdings == Num(shares * price) && total == cash + shares * price
  }

  /** `pct_change()` of the Total column; NaN at row 0 and where the previous total is 0. */
  function PctChange(total: seq<real>): (r: seq<Cell>)
    ensures |r| == |total|
  {
    seq(|total|, i requires 0 <= i < |total| =>
      if i == 0 || total[i - 1] == 0.0 then NaN else Num(total[i] / total[i - 1] - 1.0))
  }

  /**
   * `backtest_strategy(df, signals, initial_capital)` with the price column
   * already aligned to the signal index.
   */
  method BacktestStrategy(signal: seq<real>, prices: seq<real>, initialCapital: real)
    returns (p: Portfolio)
    requires |prices| == |signal| && PositivePrices(prices)
    ensures p.position == signal && p.price == prices
    ensures |p.shares| == |signal| && |p.cash| == |signal| && |p.total| == |signal|
    ensures |p.holdings| == |signal|
    ensures |signal| > 0 ==>
              p.shares[0] == 0.0 && p.cash[0] == initialCapital &&
              p.total[0] == initialCapital && p.holdings[0] == NaN
    ensures forall i :: 1 <= i < |signal| ==>
              State(p.cash[i], p.shares[i]) == StateAt(signal, prices, initialCapital, i)
    ensures forall i :: 1 <= i < |signal| ==>
              MarksRow(p.cash[i], p.shares[i], p.holdings[i], p.total[i], prices[i])
    ensures p.pctReturns == PctChange(p.total)
    ensures initialCapital > 0.0 ==>
              forall i :: 1 <= i < |signal| ==>
                p.pctReturns[i]
                  == Num(if StateAt(signal, prices, initialCapital, i - 1).shares > 0.0
                         then prices[i] / prices[i - 1] - 1.0 else 0.0)
  {
    var n := |signal|;
    var sharesCol := new real[n](_ => 0.0);
    var cashCol := new real[n](_ => initialCapital);
    var totalCol := new real[n](_ => initialCapital);
    var holdingsCol := new Cell[n](_ => NaN);

    var shares := 0.0;
    var cash := initialCapital;
    for i := 0 to n
      invariant i == 0 ==> cash == initialCapital && shares == 0.0
      invariant 0 < i ==> State(cash, shares) == StateAt(signal, prices, initialCapital, i - 1)
      invariant n > 0 ==> sharesCol[0] == 0.0 && cashCol[0] == initialCapital
      invariant n > 0 ==> totalCol[0] == initialCapital && holdingsCol[0] == NaN
      invariant 0 < i ==> LedgerStates(signal, prices, initialCapital, cashCol[..i], sharesCol[..i])
      invariant LedgerMarks(prices, cashCol[..i], sharesCol[..i], holdingsCol[..i], totalCol[..i])
    {
      if i == 0 {
        assert LedgerStates(signal, prices, initialCapital, cashCol[..1], sharesCol[..1]);
        assert LedgerMarks(prices, cashCol[..1], sharesCol[..1], holdingsCol[..1], totalCol[..1]);
        continue;
      }
      cash, shares := RecordBar(signal, prices, initialCapital, i, cash, shares,
                                sharesCol, cashCol, holdingsCol, totalCol);
    }

    assert cashCol[..] == cashCol[..n] && sharesCol[..] == sharesCol[..n];
    assert holdingsCol[..] == holdingsCol[..n] && totalCol[..] == totalCol[..n];
    p := Portfolio(signal, prices, sharesCol[..], cashCol[..], totalCol[..], holdingsCol[..],
                   PctChange(totalCol[..]));
    if initialCapital > 0.0 {
      LedgerReturns(signal, prices, initialCapital, p.cash, p.shares, p.holdings, p.total);
    }
  }

  /** One pass of the loop body for bar `i`: apply the signal rules, then write row `i`. */
  method RecordBar(
    signal: seq<real>, prices: seq<real>, initialCapital: real, i: nat,
    cash: real, shares: real,
    sharesCol: array<real>, cashCol: array<real>, holdingsCol: array<Cell>, totalCol: array<real>)
    returns (cash': real, shares': real)
    requires |prices| == |signal| && PositivePrices(prices) && 1 <= i < |signal|
    requires sharesCol.Length == |signal| && cashCol.Length == |signal|
    requires holdingsCol.Length == |signal| && totalCol.Length == |signal|
    requires sharesCol != cashCol && sharesCol != totalCol && cashCol != totalCol
    requires State(cash, shares) == StateAt(signal, prices, initialCapital, i - 1)
    requires LedgerStates(signal, prices, initialCapital, cashCol[..i], sharesCol[..i])
    requires LedgerMarks(prices, cashCol[..i], sharesCol[..i], holdingsCol[..i], totalCol[..i])
    modifies sharesCol, cashCol, holdingsCol, totalCol
    ensures State(cash', shares') == StateAt(signal, prices, initialCapital, i)
    ensures LedgerStates(signal, prices, initialCapital, cashCol[..i + 1], sharesCol[..i + 1])
    ensures LedgerMarks(prices, cashCol[..i + 1], sharesCol[..i + 1], holdingsCol[..i + 1], totalCol[..i + 1])
    ensures forall j :: 0 <= j < |signal| && j != i ==>
              sharesCol[j] == old(sharesCol[j]) && cashCol[j] == old(cashCol[j]) &&
              holdingsCol[j] == old(holdingsCol[j]) && totalCol[j] == old(totalCol[j])
  {
    var prevSignal := signal[i - 1];
    var currentSignal := signal[i];
    var currentPrice := prices[i];

    cash', shares' := ApplySignalChange(cash, shares, prevSignal, currentSignal, currentPrice);

    ghost var rows := (cashCol[..i], sharesCol[..i], holdingsCol[..i], totalCol[..i]);
    sharesCol[i] := shares';
    cashCol[i] := cash';
    holdingsCol[i] := Num(shares' * currentPrice);
    totalCol[i] := cash' + shares' * currentPrice;

    assert cashCol[..i + 1] == rows.0 + [cash'];
    assert sharesCol[..i + 1] == rows.1 + [shares'];
    assert holdingsCol[..i + 1] == rows.2 + [Num(shares' * currentPrice)];
    assert totalCol[..i + 1] == rows.3 + [cash' + shares' * currentPrice];
    LedgerStatesExtend(signal, prices, initialCapital, rows.0, rows.1, cash', shares');
    LedgerMarksExtend(prices, rows.0, rows.1, rows.2, rows.3,
                      cash', shares', Num(shares' * currentPrice), cash' + shares' * currentPrice);
  }

  /** The first rows of a ledger: row 0 holds the initial capital, every later row the state `StateAt` gives it. */
  ghost predicate LedgerStates(
    signal: seq<real>, prices: seq<real>, initialCapital: real, cash: seq<real>, shares: seq<real>)
  {
    && |prices| == |signal| && PositivePrices(prices)
    && 0 < |cash| <= |signal| && |shares| == |cash|
    && shares[0] == 0.0 && cash[0] == initialCapital
    && forall j :: 1 <= j < |cash| ==>
         State(cash[j], shares[j]) == StateAt(signal, prices, initialCapital, j)
  }

  /** From row 1 on, every row's Holdings and Total mark its cash and shares at its own price. */
  ghost predicate LedgerMarks(
    prices: seq<real>, cash: seq<real>, shares: seq<real>, holdings: seq<Cell>, total: seq<real>)
  {
    && |cash| <= |prices| && |shares| == |cash| && |holdings| == |cash| && |total| == |cash|
    && forall j :: 1 <= j < |cash| ==> MarksRow(cash[j], shares[j], holdings[j], total[j], prices[j])
  }

  lemma LedgerStatesExtend(
    signal: seq<real>, prices: seq<real>, initialCapital: real,
    cash: seq<real>, shares: seq<real>, c: real, s: real)
    requires LedgerStates(signal, prices, initialCapital, cash, shares)
    requires |cash| < |signal|
    requires State(c, s) == StateAt(signal, prices, initialCapital, |cash|)
    ensures LedgerStates(signal, prices, initialCapital, cash + [c], shares + [s])
  {
  }

  lemma LedgerMarksExtend(
    prices: seq<real>, cash: seq<real>, shares: seq<real>, holdings: seq<Cell>, total: seq<real>,
    c: real, s: real, h: Cell, t: real)
    requires LedgerMarks(prices, cash, shares, holdings, total)
    requires |cash| < |prices|
    requires MarksRow(c, s, h, t, prices[|cash|])
    ensures LedgerMarks(prices, cash + [c], shares + [s], holdings + [h], total + [t])
  {
  }

  /** The buy / sell rules of one bar, updating the carried cash and shares. */
  method ApplySignalChange(cash: real, shares: real, prevSignal: real, currentSignal: real, currentPrice: real)
    returns (cash': real, shares': real)
    requires currentPrice > 0.0
    ensures State(cash', shares') == Trade(State(cash, shares), prevSignal, currentSignal, currentPrice)
  {
    cash', shares' := cash, shares;
    if currentSignal != prevSignal {
      if currentSignal == 1.0 && prevSignal != 1.0 {
        if cash' > 0.0 {
          shares' := cash' / currentPrice;
          cash' := 0.0;
        }
      } else if currentSignal == -1.0 && prevSignal != -1.0 {
        if shares' > 0.0 {
          cash' := shares' * currentPrice;
          shares' := 0.0;
        }
      }
    }
  }

  // ---------------------------------------------------------------------------
  // One bar

  /** A trade happens on a bar exactly when the buy rule or the sell rule fires. */
  lemma TradeFiresExactly(s: State, prevSignal: real, curSignal: real, price: real)
    requires price > 0.0
    ensures (Trade(s, prevSignal, curSignal, price) != s) <==>
            (Buys(s, prevSignal, curSignal) || Sells(s, prevSignal, curSignal))
  {
  }

  /** A move to the 0.0 signal (or any value but +-1) never trades. */
  lemma NeutralSignalNeverTrades(s: State, prevSignal: real, curSignal: real, price: real)
    requires price > 0.0 && curSignal != 1.0 && curSignal != -1.0
    ensures Trade(s, prevSignal, curSignal, price) == s
  {
  }

  /** A buy spends all the cash on shares at the bar's price. */
  lemma BuyConservesValue(s: State, prevSignal: real, curSignal: real, price: real)
    requires price > 0.0 && Buys(s, prevSignal, curSignal)
    ensures var r := Trade(s, prevSignal, curSignal, price);
            r.cash == 0.0 && r.shares * price == s.cash && r.shares > 0.0
  {
  }

  /** A sell turns all the shares into cash at the bar's price. */
  lemma SellConservesValue(s: State, prevSignal: real, curSignal: real, price: real)
    requires price > 0.0 && Sells(s, prevSignal, curSignal)
    ensures var r := Trade(s, prevSignal, curSignal, price);
            r.shares == 0.0 && r.cash == s.shares * price && r.cash > 0.0
  {
  }

  // ---------------------------------------------------------------------------
  // Whole runs

  /** With non-negative capital neither cash nor shares ever goes negative. */
  lemma {:induction false} NeverNegative(signal: seq<real>, prices: seq<real>, initialCapital: real, i: nat)
    requires |prices| == |signal| && PositivePrices(prices) && i < |signal|
    requires initialCapital >= 0.0
    ensures var s := StateAt(signal, prices, initialCapital, i);
            s.cash >= 0.0 && s.shares >= 0.0
  {
    if i > 0 {
      NeverNegative(signal, prices, initialCapital, i - 1);
    }
  }

  /** With positive capital every row is exactly FLAT (cash only) or LONG (shares only). */
  lemma {:induction false} FlatOrLong(signal: seq<real>, prices: seq<real>, initialCapital: real, i: nat)
    requires |prices| == |signal| && PositivePrices(prices) && i < |signal|
    requires initialCapital > 0.0
    ensures var s := StateAt(signal, prices, initialCapital, i);
            (s.cash > 0.0 && s.shares == 0.0) || (s.cash == 0.0 && s.shares > 0.0)
  {
    if i > 0 {
      FlatOrLong(signal, prices, initialCapital, i - 1);
      var s := StateAt(signal, prices, initialCapital, i - 1);
      if Buys(s, signal[i - 1], signal[i]) {
        BuyConservesValue(s, signal[i - 1], signal[i], prices[i]);
      } else if Sells(s, signal[i - 1], signal[i]) {
        SellConservesValue(s, signal[i - 1], signal[i], prices[i]);
      } else {
        TradeFiresExactly(s, signal[i - 1], signal[i], prices[i]);
      }
    }
  }

  /** A bar's Total is the previous row's cash and shares valued at the bar's own price. */
  lemma TotalCarriesOver(signal: seq<real>, prices: seq<real>, initialCapital: real, i: nat)
    requires |prices| == |signal| && PositivePrices(prices) && 1 <= i < |signal|
    ensures Value(StateAt(signal, prices, initialCapital, i), prices[i])
              == Value(StateAt(signal, prices, initialCapital, i - 1), prices[i])
  {
  }

  /** While the signal stays where it was at bar 0, the run holds its initial cash. */
  lemma {:induction false} NoTradeWhileSignalHolds(signal: seq<real>, prices: seq<real>, initialCapital: real, i: nat)
    requires |prices| == |signal| && PositivePrices(prices) && i < |signal|
    requires forall k :: 0 <= k <= i ==> signal[k] == signal[0]
    ensures StateAt(signal, prices, initialCapital, i) == State(initialCapital, 0.0)
  {
    if i > 0 {
      NoTradeWhileSignalHolds(signal, prices, initialCapital, i - 1);
    }
  }

  /**
   * With positive capital the Returns column is defined from row 1 on: it is
   * the price's own return over a bar that starts LONG, and 0 over a bar that
   * starts FLAT.
   */
  lemma ReturnsFollowPosition(signal: seq<real>, prices: seq<real>, initialCapital: real, i: nat)
    requires |prices| == |signal| && PositivePrices(prices) && 1 <= i < |signal|
    requires initialCapital > 0.0
    ensures var prev := StateAt(signal, prices, initialCapital, i - 1);
            var total := Value(StateAt(signal, prices, initialCapital, i), prices[i]);
            var prevTotal := Value(prev, prices[i - 1]);
            prevTotal > 0.0 &&
            total / prevTotal - 1.0
              == if prev.shares > 0.0 then prices[i] / prices[i - 1] - 1.0 else 0.0
  {
    FlatOrLong(signal, prices, initialCapital, i - 1);
    TotalCarriesOver(signal, prices, initialCapital, i);
    BarReturn(StateAt(signal, prices, initialCapital, i - 1),
              Value(StateAt(signal, prices, initialCapital, i), prices[i]), prices[i], prices[i - 1]);
  }

  /**
   * The same fact read off the Returns column: for any Total column whose row 0
   * is the initial capital and whose later rows mark `StateAt` at the bar's
   * price (what `BacktestStrategy` records), `PctChange` at row i is the
   * price's return when bar i-1 was LONG and 0 when it was FLAT.
   */
  lemma ReturnsColumnFollowsPosition(signal: seq<real>, prices: seq<real>, initialCapital: real,
                                     total: seq<real>, i: nat)
    requires |prices| == |signal| && PositivePrices(prices) && 1 <= i < |signal|
    requires initialCapital > 0.0
    requires |total| == |signal| && total[0] == initialCapital
    requires forall k :: 1 <= k < |total| ==>
               total[k] == Value(StateAt(signal, prices, initialCapital, k), prices[k])
    ensures PctChange(total)[i]
              == Num(if StateAt(signal, prices, initialCapital, i - 1).shares > 0.0
                     then prices[i] / prices[i - 1] - 1.0 else 0.0)
  {
    ReturnsFollowPosition(signal, prices, initialCapital, i);
    assert total[i - 1] == Value(StateAt(signal, prices, initialCapital, i - 1), prices[i - 1]);
  }

  /** `ReturnsColumnFollowsPosition` at every row of a ledger shaped as `BacktestStrategy` records it. */
  lemma LedgerReturns(signal: seq<real>, prices: seq<real>, initialCapital: real,
                      cash: seq<real>, shares: seq<real>, holdings: seq<Cell>, total: seq<real>)
    requires |prices| == |signal| && PositivePrices(prices) && initialCapital > 0.0
    requires |cash| == |signal| && |shares| == |signal| && |holdings| == |signal|
    requires |total| == |signal| && (|signal| > 0 ==> total[0] == initialCapital)
    requires forall k :: 1 <= k < |signal| ==>
               State(cash[k], shares[k]) == StateAt(signal, prices, initialCapital, k)
    requires forall k :: 1 <= k < |signal| ==>
               MarksRow(cash[k], shares[k], holdings[k], total[k], prices[k])
    ensures forall i :: 1 <= i < |signal| ==>
              PctChange(total)[i]
                == Num(if StateAt(signal, prices, initialCapital, i - 1).shares > 0.0
                       then prices[i] / prices[i - 1] - 1.0 else 0.0)
  {
    forall k | 1 <= k < |total|
      ensures total[k] == Value(StateAt(signal, prices, initialCapital, k), prices[k])
    {
      assert MarksRow(cash[k], shares[k], holdings[k], total[k], prices[k]);
    }
    forall i | 1 <= i < |signal|
      ensures PctChange(total)[i]
                == Num(if StateAt(signal, prices, initialCapital, i - 1).shares > 0.0
                       then prices[i] / prices[i - 1] - 1.0 else 0.0)
    {
      ReturnsColumnFollowsPosition(signal, prices, initialCapital, total, i);
    }
  }

  /** The return over one bar of a FLAT or LONG state that does not trade at the bar's price `a`. */
  lemma BarReturn(prev: State, total: real, a: real, b: real)
    requires a > 0.0 && b > 0.0
    requires (prev.cash > 0.0 && prev.shares == 0.0) || (prev.cash == 0.0 && prev.shares > 0.0)
    requires total == Value(prev, a)
    ensures Value(prev, b) > 0.0
    ensures total / Value(prev, b) - 1.0 == if prev.shares > 0.0 then a / b - 1.0 else 0.0
  {
    if prev.shares > 0.0 {
      var x := prev.shares;
      assert total == x * a && Value(prev, b) == x * b;
      ScaledRatio(x, a, b);
      assert total / Value(prev, b) == (x * a) / (x * b);
    } else {
      assert total == prev.cash && Value(prev, b) == prev.cash;
      assert total / Value(prev, b) == 1.0;
    }
  }

  lemma ScaledRatio(x: real, a: real, b: real)
    requires x > 0.0 && b > 0.0
    ensures x * b > 0.0 && (x * a) / (x * b) == a / b
  {
  }

  /** With no capital nothing is ever bought, so every Total is 0 and every return NaN. */
  lemma {:induction false} NoCapitalNoTrade(signal: seq<real>, prices: seq<real>, i: nat)
    requires |prices| == |signal| && PositivePrices(prices) && i < |signal|
    ensures StateAt(signal, prices, 0.0, i) == State(0.0, 0.0)
  {
    if i > 0 {
      NoCapitalNoTrade(signal, prices, i - 1);
    }
  }
}
