/**
  What a trading day does to an open position, in the fields of the day's row:
  when it is due, which open blocks its sale, at what price it leaves, and what
  happens to it otherwise; for one position and for every run.
 */
module SellRules {
  import opened Options
  import opened Market
  import opened Conditions
  import opened Prefilter
  import opened Engine
  import Fills
  import Holding
  import Discipline

  // ----- price limits

  // The share by which a stock may move in a day: 5% under special treatment,
  // 20% on the growth boards, 10% elsewhere.
  function DailyLimit(row: Row): real {
    if row.st then 0.05
    else if "300" <= row.symbol || "688" <= row.symbol then 0.20
    else 0.10
  }

  predicate HasPreviousClose(row: Row) {
    row.preClose.Num? && row.preClose.value > 0.0
  }

  predicate AtLowerLimit(row: Row) {
    HasPreviousClose(row) && row.open <= row.preClose.value * (1.0 - DailyLimit(row)) * 1.0001
  }

  predicate AtUpperLimit(row: Row) {
    HasPreviousClose(row) && row.open >= row.preClose.value * (1.0 + DailyLimit(row)) * 0.9999
  }

  lemma LimitsInRowFields(row: Row)
    ensures OpensNearLimitDown(row) <==> AtLowerLimit(row)
    ensures OpensNearLimitUp(row) <==> AtUpperLimit(row)
    ensures !(AtLowerLimit(row) && AtUpperLimit(row))
  {
    Fills.LimitsDoNotMeet(row);
  }

  // ----- when a position is due

  // A price changed by a share of itself.
  function OffBy(price: real, share: real): real {
    price * (1.0 + share)
  }

  predicate TouchesLevel(t: Trade, row: Row, s: Settings) {
    || (s.takeProfitPct.Some? && row.high >= OffBy(t.buyPrice, s.takeProfitPct.value))
    || (s.stopLossPct.Some? && row.low <= OffBy(t.buyPrice, s.stopLossPct.value))
  }

  // The number of trading days from the purchase to the day, both included.
  ghost function DaysHeld(data: seq<Day>, from: int, to: int): nat {
    |set k | 0 <= k < |data| && from <= data[k].date <= to|
  }

  lemma {:induction false} DaysHeldAreCounted(data: seq<Day>, from: int, to: int)
    ensures HeldDays(data, from, to) == DaysHeld(data, from, to)
  {
    var held := set k | 0 <= k < |data| && from <= data[k].date <= to;
    if data == [] {
      assert held == {};
    } else {
      var n := |data| - 1;
      var rest := set k | 0 <= k < n && from <= data[..n][k].date <= to;
      DaysHeldAreCounted(data[..n], from, to);
      if from <= data[n].date <= to {
        assert held == rest + {n};
      } else {
        assert held == rest;
      }
    }
  }

  ghost predicate DueAtOpen(t: Trade, data: seq<Day>, date: int, s: Settings) {
    t.sellSignalDate.Some? || DaysHeld(data, t.buyDate, date) >= s.fixedHoldingDays
  }

  ghost predicate Due(t: Trade, data: seq<Day>, date: int, row: Row, s: Settings) {
    DueAtOpen(t, data, date, s) || TouchesLevel(t, row, s)
  }

  // The raw price a due position leaves at: the open when a signal or the holding
  // limit is due or the open is beyond a level, else the stop, else the profit level.
  ghost function RawPrice(t: Trade, data: seq<Day>, date: int, row: Row, s: Settings): real
    requires Due(t, data, date, row, s)
  {
    if DueAtOpen(t, data, date, s) then row.open
    else if s.takeProfitPct.Some? && row.open >= OffBy(t.buyPrice, s.takeProfitPct.value) then row.open
    else if s.stopLossPct.Some? && row.open <= OffBy(t.buyPrice, s.stopLossPct.value) then row.open
    else if s.stopLossPct.Some? && row.low <= OffBy(t.buyPrice, s.stopLossPct.value) then
      OffBy(t.buyPrice, s.stopLossPct.value)
    else OffBy(t.buyPrice, s.takeProfitPct.value)
  }

  // The position sold on a date at a raw price, after slippage, fee and tax.
  function SoldFor(t: Trade, date: int, raw: real, s: Settings): Trade {
    var price := if s.conservativeExecution then raw * (1.0 - s.slippageRate) else raw;
    var amount := price * t.shares as real * (1.0 - s.feeRate - s.stampTaxRate);
    t.(sellSignalDate := Some(if t.sellSignalDate.Some? then t.sellSignalDate.value else date),
       sale := Some(Sale(date, price, amount, amount - t.buyAmount)))
  }

  // ----- one position on one day

  // The row of the position's symbol, on a day after its purchase.
  ghost predicate Traded(t: Trade, d: Day, row: Row) {
    row in d.rows && row.symbol == t.symbol && !row.suspended && t.buyDate < d.date
  }

  lemma RowIsFound(d: Day, row: Row)
    requires DistinctSymbols(d.rows) && row in d.rows
    ensures Lookup(d.rows, row.symbol) == Some(row)
  {
    var j :| 0 <= j < |d.rows| && d.rows[j] == row;
    LookupFindsRow(d.rows, j);
  }

  lemma ExitPriceInRowFields(t: Trade, data: seq<Day>, d: Day, row: Row, s: Settings)
    requires row.low <= row.open <= row.high
    ensures ExitPrice(t, data, d, row, s).Some? <==> Due(t, data, d.date, row, s)
    ensures Due(t, data, d.date, row, s) ==>
      ExitPrice(t, data, d, row, s) == Some(RawPrice(t, data, d.date, row, s))
  {
    hide HeldDays, DaysHeld, LevelAt, OffBy;
    DaysHeldAreCounted(data, t.buyDate, d.date);
    if s.takeProfitPct.Some? {
      LevelsAgree(t.buyPrice, s.takeProfitPct.value);
    }
    if s.stopLossPct.Some? {
      LevelsAgree(t.buyPrice, s.stopLossPct.value);
    }
  }

  lemma LevelsAgree(price: real, share: real)
    ensures LevelAt(price, share) == OffBy(price, share)
  {
  }

  // A due position stays, untouched, exactly when sales are blocked at the lower
  // limit and the day opened there; otherwise it is sold that day.
  lemma DuePositionIsSoldIffNotBlocked(strategy: Strategy, s: Settings, data: seq<Day>, d: Day, t: Trade, row: Row)
    requires DistinctSymbols(d.rows) && row.low <= row.open <= row.high
    requires t.sale.None? && Traded(t, d, row) && Due(t, data, d.date, row, s)
    ensures
      AfterSellPhase(strategy, s, data, d, t) ==
      if s.limitDownBlocksSell && AtLowerLimit(row) then t
      else SoldFor(t, d.date, RawPrice(t, data, d.date, row, s), s)
    ensures AfterSellPhase(strategy, s, data, d, t).sale.None? <==> s.limitDownBlocksSell && AtLowerLimit(row)
  {
    hide ExitPrice, Due, RawPrice, OpensNearLimitDown, AtLowerLimit;
    hide SoldFor, Close;
    RowIsFound(d, row);
    LimitsInRowFields(row);
    ExitPriceInRowFields(t, data, d, row, s);
    ClosedIsSoldFor(t, d.date, RawPrice(t, data, d.date, row, s), s);
  }

  lemma ClosedIsSoldFor(t: Trade, date: int, raw: real, s: Settings)
    ensures SoldFor(t, date, raw, s).sale.Some?
    ensures Close(t, if t.sellSignalDate.Some? then t.sellSignalDate.value else date, date, raw, s)
         == SoldFor(t, date, raw, s)
  {
    var price := if s.conservativeExecution then raw * (1.0 - s.slippageRate) else raw;
    var amount := price * t.shares as real * (1.0 - s.feeRate - s.stampTaxRate);
    assert Proceeds(t, raw, s) == amount;
    assert SoldFor(t, date, raw, s).sale.value.amount == amount;
  }

  // A traded position that is not due stays; it takes the day's date as its exit
  // signal exactly when an exit rule passes.
  lemma OtherPositionIsKept(strategy: Strategy, s: Settings, data: seq<Day>, d: Day, t: Trade, row: Row)
    requires DistinctSymbols(d.rows) && row.low <= row.open <= row.high
    requires Traded(t, d, row) && !Due(t, data, d.date, row, s)
    ensures
      var signalled := exists i :: 0 <= i < |strategy.exitRules| && Evaluate(strategy.exitRules[i], row, data);
      AfterSellPhase(strategy, s, data, d, t) == if signalled then t.(sellSignalDate := Some(d.date)) else t
  {
    hide ExitPrice, Due, Evaluate;
    RowIsFound(d, row);
    ExitPriceInRowFields(t, data, d, row, s);
    if ExitSignal(strategy.exitRules, row, data) {
      var n :| n in strategy.exitRules && Evaluate(n, row, data);
      var i :| 0 <= i < |strategy.exitRules| && strategy.exitRules[i] == n;
    }
  }

  // Without a row of its symbol, on a suspended row, and up to its purchase date,
  // nothing happens to a position.
  lemma UntradedPositionIsKept(strategy: Strategy, s: Settings, data: seq<Day>, d: Day, t: Trade)
    requires DistinctSymbols(d.rows) && forall row :: row in d.rows ==> !Traded(t, d, row)
    ensures AfterSellPhase(strategy, s, data, d, t) == t
  {
    hide ExitPrice, SellBlocked, ExitSignal;
  }

  // ----- every run

  // Each open position comes out of the sell phase on one of the two sides.
  lemma {:induction false} SellPhaseTakesEach(
    strategy: Strategy, s: Settings, data: seq<Day>, d: Day, cash: real, open: seq<Trade>, closed: seq<Trade>, p: Trade)
    requires p in open
    ensures
      var x := AfterSellPhase(strategy, s, data, d, p);
      var b := SellPhase(strategy, s, data, d, cash, open, closed);
      if x.sale.Some? then x in b.closed else x in b.open
  {
    hide AfterSellPhase;
    var rest, last := open[..|open| - 1], open[|open| - 1];
    assert open == rest + [last];
    if p in rest {
      SellPhaseTakesEach(strategy, s, data, d, cash, rest, closed, p);
    }
  }

  lemma MiddayTakesEach(strategy: Strategy, s: Settings, rank: Ranking, data: seq<Day>, t: nat, p: Trade)
    requires t < |data| && p in Run(strategy, s, rank, data, t).open
    ensures
      var x := AfterSellPhase(strategy, s, data, data[t], p);
      var b := Midday(strategy, s, rank, data, t);
      if x.sale.Some? then x in b.closed else x in b.open
  {
    hide Run, SellPhase, AfterSellPhase;
    var st := Run(strategy, s, rank, data, t);
    SellPhaseTakesEach(strategy, s, data, data[t], st.cash, st.open, st.closed, p);
  }

  // After a sale no position in the symbol is open.
  lemma SoldSymbolIsFree(strategy: Strategy, s: Settings, rank: Ranking, data: seq<Day>, t: nat, p: Trade, x: Trade)
    requires s.Valid() && SortedDays(data) && t < |data| && p in Run(strategy, s, rank, data, t).open
    requires AfterSellPhase(strategy, s, data, data[t], p).sale.Some?
    requires x in Midday(strategy, s, rank, data, t).open
    ensures x.symbol != p.symbol
  {
    hide Run, Midday, AfterSellPhase;
    var q := Holding.EnteredAs(strategy, s, rank, data, t, x);
    Discipline.EveryRunIsDisciplined(strategy, s, rank, data, t, data[t].date);
    var open, closed := Run(strategy, s, rank, data, t).open, Run(strategy, s, rank, data, t).closed;
    var i :| 0 <= i < |open| && open[i] == p;
    var j :| 0 <= j < |open| && open[j] == q;
    if i < j {
      Discipline.OpenSymbolsAreDistinct(open, closed, s, data[t].date, i, j);
    } else if j < i {
      Discipline.OpenSymbolsAreDistinct(open, closed, s, data[t].date, j, i);
    }
  }

  // Over every run: a position that is due on a day its symbol trades is still open
  // after the day's sales exactly when sales are blocked at the lower limit and the
  // day opened there. Otherwise it is closed at the price its reason gives.
  lemma EveryRunSellsWhatIsDue(
    strategy: Strategy, s: Settings, rank: Ranking, data: seq<Day>, t: nat, p: Trade, row: Row)
    requires s.Valid() && WellFormed(data) && PricedFrame(data) && t < |data|
    requires p in Run(strategy, s, rank, data, t).open
    requires Traded(p, data[t], row) && Due(p, data, data[t].date, row, s)
    ensures
      var b := Midday(strategy, s, rank, data, t);
      && (p in b.open <==> s.limitDownBlocksSell && AtLowerLimit(row))
      && (!(s.limitDownBlocksSell && AtLowerLimit(row)) ==>
            && SoldFor(p, data[t].date, RawPrice(p, data, data[t].date, row, s), s) in b.closed
            && forall x :: x in b.open ==> x.symbol != p.symbol)
  {
    hide Run, Midday, AfterSellPhase, Due, RawPrice, SoldFor, AtLowerLimit;
    var j :| 0 <= j < |data[t].rows| && data[t].rows[j] == row;
    assert PositivePrices(data[t].rows[j]);
    Discipline.EveryRunIsDisciplined(strategy, s, rank, data, t, data[t].date);
    assert Discipline.OpenInOrder(p, data[t].date);
    DuePositionIsSoldIffNotBlocked(strategy, s, data, data[t], p, row);
    MiddayTakesEach(strategy, s, rank, data, t, p);
    if !(s.limitDownBlocksSell && AtLowerLimit(row)) {
      forall x | x in Midday(strategy, s, rank, data, t).open ensures x.symbol != p.symbol {
        SoldSymbolIsFree(strategy, s, rank, data, t, p, x);
      }
    }
  }
}
