/**
  What a trading day buys, in the fields of the next day's row: exactly which
  ranked candidates are passed over, and what the others become; for one
  candidate and for every run.
 */
module BuyRules {
  import opened Options
  import opened Market
  import opened Conditions
  import opened Prefilter
  import opened Engine
  import opened SellRules
  import Fills
  import Ledger
  import Holding

  function BuyPriceOf(row: Row, s: Settings): real {
    if s.conservativeExecution then row.open * (1.0 + s.slippageRate) else row.open
  }

  function UnitCost(row: Row, s: Settings): real {
    BuyPriceOf(row, s) * (1.0 + s.feeRate)
  }

  // The amount set aside for the next purchase from a book.
  function PlanOf(s: Settings, b: Buying): real {
    PlannedEntryAmount(s, b.cash, |b.open|, b.equity)
  }

  // ----- one candidate

  ghost predicate NoRoom(s: Settings, b: Buying, symbol: string) {
    || |b.open| >= s.maxPositions
    || b.count >= s.maxDailyBuys
    || (exists i :: 0 <= i < |b.open| && b.open[i].symbol == symbol)
  }

  // The next day's row does not allow the purchase, or one lot is too dear.
  predicate RowRefuses(s: Settings, b: Buying, row: Row) {
    || row.suspended
    || (s.limitUpBlocksBuy && AtUpperLimit(row))
    || 100.0 * UnitCost(row, s) > PlanOf(s, b)
  }

  // Why a candidate is passed over.
  ghost predicate Refused(s: Settings, next: Day, b: Buying, symbol: string) {
    || NoRoom(s, b, symbol)
    || (forall row :: row in next.rows ==> row.symbol != symbol)
    || (exists row :: row in next.rows && row.symbol == symbol && RowRefuses(s, b, row))
  }

  // The trade a candidate becomes: whole lots, as many as the plan pays for.
  predicate IsPurchase(s: Settings, date: int, next: Day, row: Row, b: Buying, t: Trade) {
    && t.symbol == row.symbol && t.buySignalDate == date && t.buyDate == next.date
    && t.buyPrice == BuyPriceOf(row, s)
    && t.shares > 0 && t.shares % 100 == 0
    && t.buyAmount == t.shares as real * UnitCost(row, s)
    && t.buyAmount <= PlanOf(s, b) < (t.shares + 100) as real * UnitCost(row, s)
    && t.plannedAmount == PlanOf(s, b)
    && (b.equity != 0.0 ==> t.targetPct == PlanOf(s, b) / b.equity && t.actualPct == t.buyAmount / b.equity)
    && t.sellSignalDate.None? && t.sale.None?
  }

  // The book with one more trade, paid for and counted at its purchase price.
  predicate Adds(b: Buying, after: Buying, t: Trade) {
    && after.open == b.open + [t]
    && after.count == b.count + 1
    && after.cash == b.cash - t.buyAmount
    && after.marketValue == b.marketValue + t.buyPrice * t.shares as real
    && after.equity == after.cash + after.marketValue
  }

  lemma CostInRowFields(row: Row, s: Settings)
    ensures BuyExecutionPrice(row, s) == BuyPriceOf(row, s) && CostPerShare(row, s) == UnitCost(row, s)
  {
  }

  // At least one lot is bought exactly when the plan pays for one.
  lemma LotIsAffordableIff(planned: real, cost: real)
    requires cost > 0.0
    ensures LotShares(planned, cost) > 0 <==> 100.0 * cost <= planned
  {
    var shares := LotShares(planned, cost);
    Ledger.LotsAreAffordable(planned, cost);
    Fills.LotsAreMaximal(planned, cost);
    if shares > 0 {
      Ledger.Scale(100.0, shares as real, cost);
    } else {
      Ledger.Scale((shares + 100) as real, 100.0, cost);
    }
  }

  lemma LotsBought(planned: real, cost: real)
    requires cost > 0.0 && LotShares(planned, cost) > 0
    ensures
      var shares := LotShares(planned, cost);
      shares % 100 == 0 && shares as real * cost <= planned < (shares + 100) as real * cost
  {
    Ledger.LotsAreAffordable(planned, cost);
    Fills.LotsAreMaximal(planned, cost);
  }

  lemma BuyRowInRowFields(s: Settings, next: Day, candidate: Row, row: Row)
    requires DistinctSymbols(next.rows) && row in next.rows && row.symbol == candidate.symbol
    ensures BuyRow(s, next, candidate) ==
            if row.suspended || (s.limitUpBlocksBuy && AtUpperLimit(row)) then None else Some(row)
  {
    hide OpensNearLimitUp, AtUpperLimit;
    RowIsFound(next, row);
    LimitsInRowFields(row);
  }

  lemma NoRoomBuysNothing(s: Settings, date: int, next: Day, b: Buying, candidate: Row)
    requires NoRoom(s, b, candidate.symbol)
    ensures BuyOne(s, date, next, b, candidate) == b
  {
    hide BuyRow, LotShares, PlannedEntryAmount;
  }

  lemma NoRowBuysNothing(s: Settings, date: int, next: Day, b: Buying, candidate: Row)
    requires forall row :: row in next.rows ==> row.symbol != candidate.symbol
    ensures BuyOne(s, date, next, b, candidate) == b
  {
    hide LotShares, PlannedEntryAmount, Holds, OpensNearLimitUp;
  }

  // The candidate's row decides, once there is room for it.
  lemma RowDecides(s: Settings, date: int, next: Day, b: Buying, candidate: Row, row: Row)
    requires s.Valid() && DistinctSymbols(next.rows) && row in next.rows && row.symbol == candidate.symbol
    requires PositivePrices(row) && !NoRoom(s, b, candidate.symbol)
    ensures
      var after := BuyOne(s, date, next, b, candidate);
      if RowRefuses(s, b, row) then after == b
      else
        && |after.open| == |b.open| + 1
        && IsPurchase(s, date, next, row, b, after.open[|b.open|])
        && Adds(b, after, after.open[|b.open|])
  {
    hide PlannedEntryAmount, LotShares, BuyRow, AtUpperLimit, BuyPriceOf, BuyExecutionPrice, CostPerShare, UnitCost;
    BuyRowInRowFields(s, next, candidate, row);
    CostInRowFields(row, s);
    Ledger.CostIsPositive(row, s);
    LotIsAffordableIff(PlanOf(s, b), UnitCost(row, s));
    if LotShares(PlanOf(s, b), UnitCost(row, s)) > 0 {
      LotsBought(PlanOf(s, b), UnitCost(row, s));
    }
  }

  // A candidate is passed over exactly when there is no room for it, the next day
  // has no row for it, or its row refuses; every other one adds exactly one trade.
  lemma CandidateIsBoughtUnlessRefused(s: Settings, date: int, next: Day, b: Buying, candidate: Row)
    requires s.Valid() && DistinctSymbols(next.rows)
    requires forall row :: row in next.rows ==> PositivePrices(row)
    ensures
      var after := BuyOne(s, date, next, b, candidate);
      && (after.open == b.open <==> Refused(s, next, b, candidate.symbol))
      && (Refused(s, next, b, candidate.symbol) ==> after == b)
      && (!Refused(s, next, b, candidate.symbol) ==>
            && |after.open| == |b.open| + 1
            && Adds(b, after, after.open[|b.open|])
            && exists row :: row in next.rows && row.symbol == candidate.symbol
                             && IsPurchase(s, date, next, row, b, after.open[|b.open|]))
  {
    hide BuyOne, IsPurchase, RowRefuses, NoRoom, PositivePrices;
    if NoRoom(s, b, candidate.symbol) {
      NoRoomBuysNothing(s, date, next, b, candidate);
    } else if forall row :: row in next.rows ==> row.symbol != candidate.symbol {
      NoRowBuysNothing(s, date, next, b, candidate);
    } else {
      var row :| row in next.rows && row.symbol == candidate.symbol;
      RowDecides(s, date, next, b, candidate, row);
      OneRowPerSymbol(next, row);
    }
  }

  lemma OneRowPerSymbol(d: Day, row: Row)
    requires DistinctSymbols(d.rows) && row in d.rows
    ensures forall other :: other in d.rows && other.symbol == row.symbol ==> other == row
  {
  }

  // ----- every run

  // The candidates of day t in the order they are tried.
  ghost function Ranked(strategy: Strategy, s: Settings, rank: Ranking, data: seq<Day>, t: nat): seq<Row>
    requires t < |data|
  {
    rank(DayCandidates(strategy, data, t, s.scan))
  }

  // The book on day t after its sales and the first k candidates.
  ghost function BookAfter(strategy: Strategy, s: Settings, rank: Ranking, data: seq<Day>, t: nat, k: nat): Buying
    requires t + 1 < |data| && k <= |Ranked(strategy, s, rank, data, t)|
  {
    var book := Midday(strategy, s, rank, data, t);
    var value := MarketValue(book.open, data[t].rows, Run(strategy, s, rank, data, t).lastClose);
    BuyPhase(s, data[t].date, data[t + 1], Buying(book.cash, book.open, 0, value, book.cash + value),
             Ranked(strategy, s, rank, data, t)[..k])
  }

  // Buying starts from the book after the day's sales, valued as at its equity point.
  lemma BuyingStartsFromEquityPoint(strategy: Strategy, s: Settings, rank: Ranking, data: seq<Day>, t: nat)
    requires t + 1 < |data|
    ensures
      var book, first := Midday(strategy, s, rank, data, t), BookAfter(strategy, s, rank, data, t, 0);
      && first.cash == book.cash && first.open == book.open && first.count == 0
      && |Run(strategy, s, rank, data, t + 1).curve| == t + 1
      && first.equity == Run(strategy, s, rank, data, t + 1).curve[t].equity
      && first.equity == first.cash + first.marketValue
  {
    hide Run, Midday, MarketValue, DayCandidates, BookAfter;
    Ledger.CurveHasOnePointPerDay(strategy, s, rank, data, t + 1);
    NoCandidates(strategy, s, rank, data, t);
  }

  // What buying ends with is the run's state after the day; a full book buys nothing.
  lemma BuyingEndsTheDay(strategy: Strategy, s: Settings, rank: Ranking, data: seq<Day>, t: nat)
    requires SortedDays(data) && t + 1 < |data|
    ensures
      var book, end := Midday(strategy, s, rank, data, t), Run(strategy, s, rank, data, t + 1);
      var last := BookAfter(strategy, s, rank, data, t, |Ranked(strategy, s, rank, data, t)|);
      if |book.open| >= s.maxPositions then end.open == book.open && end.cash == book.cash
      else end.open == last.open && end.cash == last.cash
  {
    hide Run, SellDay, BuyPhase, MarketValue, DayCandidates, NextPoint, UpdateCloses;
    RunStep(strategy, s, rank, data, t + 1);
    NextTradeIndexIsFirstLater(data, 0, t);
    Holding.MiddayIs(strategy, s, rank, data, t);
    var ranked := Ranked(strategy, s, rank, data, t);
    assert ranked[..|ranked|] == ranked;
  }

  lemma NoCandidates(strategy: Strategy, s: Settings, rank: Ranking, data: seq<Day>, t: nat)
    requires t + 1 < |data|
    ensures
      var book := Midday(strategy, s, rank, data, t);
      var value := MarketValue(book.open, data[t].rows, Run(strategy, s, rank, data, t).lastClose);
      BookAfter(strategy, s, rank, data, t, 0) == Buying(book.cash, book.open, 0, value, book.cash + value)
  {
    hide Run, Midday, MarketValue, DayCandidates;
    assert Ranked(strategy, s, rank, data, t)[..0] == [];
  }

  // Over every run: the k-th candidate of a day is passed over exactly when there
  // is no room for it at that moment, the next day has no row for it, or its row
  // refuses; otherwise it becomes exactly one trade.
  lemma EveryRunBuysUnlessRefused(
    strategy: Strategy, s: Settings, rank: Ranking, data: seq<Day>, t: nat, k: nat)
    requires s.Valid() && WellFormed(data) && PricedFrame(data)
    requires t + 1 < |data| && k < |Ranked(strategy, s, rank, data, t)|
    ensures
      var b := BookAfter(strategy, s, rank, data, t, k);
      var after := BookAfter(strategy, s, rank, data, t, k + 1);
      var symbol := Ranked(strategy, s, rank, data, t)[k].symbol;
      && (after.open == b.open <==> Refused(s, data[t + 1], b, symbol))
      && (Refused(s, data[t + 1], b, symbol) ==> after == b)
      && (!Refused(s, data[t + 1], b, symbol) ==>
            && |after.open| == |b.open| + 1
            && Adds(b, after, after.open[|b.open|])
            && exists row :: row in data[t + 1].rows && row.symbol == symbol
                             && IsPurchase(s, data[t].date, data[t + 1], row, b, after.open[|b.open|]))
  {
    hide Run, Midday, MarketValue, DayCandidates, BuyOne, Refused, Adds, IsPurchase, PositivePrices;
    var ranked := Ranked(strategy, s, rank, data, t);
    assert ranked[..k + 1][..k] == ranked[..k] && ranked[..k + 1][k] == ranked[k];
    forall row | row in data[t + 1].rows ensures PositivePrices(row) {
      var j :| 0 <= j < |data[t + 1].rows| && data[t + 1].rows[j] == row;
    }
    CandidateIsBoughtUnlessRefused(s, data[t].date, data[t + 1], BookAfter(strategy, s, rank, data, t, k), ranked[k]);
  }

  // On the last day nothing is bought.
  lemma LastDayBuysNothing(strategy: Strategy, s: Settings, rank: Ranking, data: seq<Day>)
    requires SortedDays(data) && data != []
    ensures
      var last := |data| - 1;
      && Run(strategy, s, rank, data, |data|).open == Midday(strategy, s, rank, data, last).open
      && Run(strategy, s, rank, data, |data|).cash == Midday(strategy, s, rank, data, last).cash
  {
    hide Run, SellDay, BuyPhase, MarketValue, DayCandidates;
    RunStep(strategy, s, rank, data, |data|);
    NextTradeIndexIsFirstLater(data, 0, |data| - 1);
    Holding.MiddayIs(strategy, s, rank, data, |data| - 1);
  }
}
