/**
  The ledger balances on every day of every run: money is neither created nor
  lost, cash never goes negative, and every purchase is whole board lots within
  the position limit.
 */
module Ledger {
  import opened Options
  import opened Market
  import opened Conditions
  import opened Prefilter
  import opened Engine

  // ----- sums over trades

  function SumBuy(ts: seq<Trade>): real {
    if ts == [] then 0.0 else SumBuy(ts[..|ts| - 1]) + ts[|ts| - 1].buyAmount
  }

  function SaleAmount(t: Trade): real {
    if t.sale.Some? then t.sale.value.amount else 0.0
  }

  function SumSell(ts: seq<Trade>): real {
    if ts == [] then 0.0 else SumSell(ts[..|ts| - 1]) + SaleAmount(ts[|ts| - 1])
  }

  function SumPnl(ts: seq<Trade>): real {
    if ts == [] then 0.0
    else SumPnl(ts[..|ts| - 1]) + if ts[|ts| - 1].sale.Some? then ts[|ts| - 1].sale.value.pnl else 0.0
  }

  // Unrealised gain: shares times mark, less what was paid.
  function SumOpenGain(ts: seq<Trade>, rows: seq<Row>, lastClose: map<string, real>): real {
    if ts == [] then 0.0
    else
      var t := ts[|ts| - 1];
      SumOpenGain(ts[..|ts| - 1], rows, lastClose)
      + (MarkPrice(t, rows, lastClose) * t.shares as real - t.buyAmount)
  }

  lemma SumsOfAppend(ts: seq<Trade>, t: Trade)
    ensures SumBuy(ts + [t]) == SumBuy(ts) + t.buyAmount
    ensures SumSell(ts + [t]) == SumSell(ts) + SaleAmount(t)
    ensures SumPnl(ts + [t]) == SumPnl(ts) + if t.sale.Some? then t.sale.value.pnl else 0.0
  {
    assert (ts + [t])[..|ts|] == ts;
  }

  // ----- what is true of single trades

  ghost predicate SoundPurchase(t: Trade, s: Settings) {
    && t.shares > 0 && t.shares % BOARD_LOT_SIZE == 0
    && t.buyPrice > 0.0
    && t.buyAmount == t.shares as real * (t.buyPrice * (1.0 + s.feeRate))
    && 0.0 < t.buyAmount <= t.plannedAmount
    && 0.0 < t.actualPct <= t.targetPct <= s.positionSizePct
  }

  ghost predicate SoundSale(t: Trade) {
    t.sale.Some? && t.sale.value.amount >= 0.0 && t.sale.value.pnl == t.sale.value.amount - t.buyAmount
  }

  ghost predicate SoundOpen(open: seq<Trade>, s: Settings) {
    forall i :: 0 <= i < |open| ==> SoundPurchase(open[i], s) && open[i].sale.None?
  }

  ghost predicate SoundClosed(closed: seq<Trade>, s: Settings) {
    forall i :: 0 <= i < |closed| ==> SoundPurchase(closed[i], s) && SoundSale(closed[i])
  }

  // The ledger of a book that started from a given amount.
  ghost predicate Balanced(book: Book, s: Settings) {
    && book.cash == s.initialCash - SumBuy(book.open) + (SumSell(book.closed) - SumBuy(book.closed))
    && book.cash >= 0.0
    && SoundOpen(book.open, s)
    && SoundClosed(book.closed, s)
  }

  function BookOf(st: State): Book {
    Book(st.cash, st.open, st.closed)
  }

  // ----- selling

  lemma ProductNonNegative(a: real, b: real)
    requires a >= 0.0 && b >= 0.0
    ensures a * b >= 0.0
  {
  }

  lemma ProductPositive(a: real, b: real)
    requires a > 0.0 && b > 0.0
    ensures a * b > 0.0
  {
  }

  lemma ExitPriceIsPositive(t: Trade, data: seq<Day>, d: Day, row: Row, s: Settings)
    requires s.Valid() && t.buyPrice > 0.0 && PositivePrices(row)
    ensures ExitPrice(t, data, d, row, s).Some? ==> ExitPrice(t, data, d, row, s).value > 0.0
  {
    if s.takeProfitPct.Some? {
      ProductPositive(t.buyPrice, 1.0 + s.takeProfitPct.value);
    }
  }

  lemma ProceedsAreNonNegative(t: Trade, price: real, s: Settings)
    requires s.Valid() && t.shares > 0 && price >= 0.0
    ensures Proceeds(t, price, s) >= 0.0
  {
    ProductNonNegative(price, 1.0 - s.slippageRate);
    ProductNonNegative(SellExecutionPrice(price, s), t.shares as real);
    ProductNonNegative(SellExecutionPrice(price, s) * t.shares as real, 1.0 - s.feeRate - s.stampTaxRate);
  }

  lemma SellingKeepsTradeSound(strategy: Strategy, s: Settings, data: seq<Day>, d: Day, t: Trade)
    requires s.Valid() && SoundPurchase(t, s) && t.sale.None?
    requires forall j :: 0 <= j < |d.rows| ==> PositivePrices(d.rows[j])
    ensures
      var after := AfterSellPhase(strategy, s, data, d, t);
      && SoundPurchase(after, s) && after.buyAmount == t.buyAmount
      && (after.sale.Some? ==> SoundSale(after))
  {
    if Sellable(t, d) {
      var row := Lookup(d.rows, t.symbol).value;
      ExitPriceIsPositive(t, data, d, row, s);
      var price := ExitPrice(t, data, d, row, s);
      if price.Some? {
        ProceedsAreNonNegative(t, price.value, s);
      }
    }
  }

  lemma {:induction false} SellPhaseKeepsLedger(
    strategy: Strategy, s: Settings, data: seq<Day>, d: Day, cash: real, open: seq<Trade>, closed: seq<Trade>)
    requires s.Valid() && cash >= 0.0 && SoundOpen(open, s) && SoundClosed(closed, s)
    requires forall j :: 0 <= j < |d.rows| ==> PositivePrices(d.rows[j])
    ensures
      var b := SellPhase(strategy, s, data, d, cash, open, closed);
      && b.cash >= 0.0 && SoundOpen(b.open, s) && SoundClosed(b.closed, s)
      && SumBuy(b.open) + SumBuy(b.closed) == SumBuy(open) + SumBuy(closed)
      && b.cash - SumSell(b.closed) == cash - SumSell(closed)
  {
    hide AfterSellPhase, SumBuy, SumSell, SumPnl, SoundPurchase, SoundSale, PositivePrices;
    if open != [] {
      var rest := open[..|open| - 1];
      assert open == rest + [open[|open| - 1]];
      SumsOfAppend(rest, open[|open| - 1]);
      SellPhaseKeepsLedger(strategy, s, data, d, cash, rest, closed);
      SellingKeepsTradeSound(strategy, s, data, d, open[|open| - 1]);
      var before := SellPhase(strategy, s, data, d, cash, rest, closed);
      var after := AfterSellPhase(strategy, s, data, d, open[|open| - 1]);
      SumsOfAppend(before.open, after);
      SumsOfAppend(before.closed, after);
    }
  }

  // ----- buying

  lemma LotsAreAffordable(planned: real, cost: real)
    requires cost > 0.0
    ensures
      var shares := LotShares(planned, cost);
      shares % BOARD_LOT_SIZE == 0 && (shares > 0 ==> shares as real * cost <= planned)
  {
    var q := (planned / cost).Floor;
    var shares := LotShares(planned, cost);
    assert shares <= q;
    assert q as real <= planned / cost;
    if shares > 0 {
      Scale(shares as real, planned / cost, cost);
      assert planned / cost * cost == planned;
    }
  }

  lemma Scale(a: real, b: real, c: real)
    requires a <= b && c > 0.0
    ensures a * c <= b * c
  {
  }

  lemma DivideBoth(a: real, b: real, c: real)
    requires a <= b && c > 0.0
    ensures a / c <= b / c
  {
    ProductNonNegative(b - a, 1.0 / c);
    assert b / c - a / c == (b - a) * (1.0 / c);
  }

  // A positive plan comes from positive equity and stays within cash and the cap.
  lemma PlanIsCovered(s: Settings, cash: real, openCount: nat, equity: real)
    requires s.Valid() && cash >= 0.0
    ensures
      var planned := PlannedEntryAmount(s, cash, openCount, equity);
      planned <= cash && planned <= equity * s.positionSizePct && (planned > 0.0 ==> equity > 0.0)
  {
    if equity <= 0.0 {
      ProductNonNegative(-equity, s.positionSizePct);
    }
  }

  ghost predicate BuyingSound(b: Buying, s: Settings, total: real) {
    b.cash >= 0.0 && SoundOpen(b.open, s) && b.cash + SumBuy(b.open) == total
  }

  // A positive amount within a plan within the cap has its shares in that order.
  lemma SharesAreOrdered(amount: real, planned: real, equity: real, pct: real)
    requires 0.0 < amount <= planned <= equity * pct && equity > 0.0
    ensures 0.0 < ShareOf(amount, equity) <= ShareOf(planned, equity) <= pct
  {
    DivideBoth(amount, planned, equity);
    DivideBoth(planned, equity * pct, equity);
    assert equity * pct / equity == pct;
    PositiveQuotient(amount, equity);
  }

  // A purchase is within its plan, and its plan within the position limit.
  lemma PurchaseIsSound(s: Settings, signalDate: int, next: Day, row: Row, b: Buying, shares: int)
    requires s.Valid() && b.cash >= 0.0 && PositivePrices(row)
    requires CostPerShare(row, s) > 0.0
    requires shares == LotShares(PlannedEntryAmount(s, b.cash, |b.open|, b.equity), CostPerShare(row, s)) > 0
    ensures
      var t := OpenTrade(s, signalDate, next, row, b, shares);
      SoundPurchase(t, s) && t.buyAmount <= b.cash
  {
    hide LotShares, PlannedEntryAmount, ShareOf;
    var planned := PlannedEntryAmount(s, b.cash, |b.open|, b.equity);
    LotsAreAffordable(planned, CostPerShare(row, s));
    ProductPositive(shares as real, CostPerShare(row, s));
    PlanIsCovered(s, b.cash, |b.open|, b.equity);
    CostIsPositive(row, s);
    var t := OpenTrade(s, signalDate, next, row, b, shares);
    assert 0.0 < t.buyAmount <= planned;
    SharesAreOrdered(t.buyAmount, planned, b.equity, s.positionSizePct);
  }

  lemma PositiveQuotient(a: real, b: real)
    requires a > 0.0 && b > 0.0
    ensures a / b > 0.0
  {
  }

  lemma CostIsPositive(row: Row, s: Settings)
    requires s.Valid() && PositivePrices(row)
    ensures BuyExecutionPrice(row, s) > 0.0 && CostPerShare(row, s) > 0.0
  {
    ProductPositive(row.open, 1.0 + s.slippageRate);
    ProductPositive(BuyExecutionPrice(row, s), 1.0 + s.feeRate);
  }

  lemma BuyOneKeepsLedger(s: Settings, signalDate: int, next: Day, b: Buying, candidate: Row, total: real)
    requires s.Valid() && BuyingSound(b, s, total)
    requires forall j :: 0 <= j < |next.rows| ==> PositivePrices(next.rows[j])
    ensures BuyingSound(BuyOne(s, signalDate, next, b, candidate), s, total)
  {
    hide LotShares, PlannedEntryAmount, SoundPurchase, OpensNearLimitUp;
    var buyRow := BuyRow(s, next, candidate);
    if BuyOne(s, signalDate, next, b, candidate) != b && buyRow.Some? {
      var row := buyRow.value;
      var shares := LotShares(PlannedEntryAmount(s, b.cash, |b.open|, b.equity), CostPerShare(row, s));
      PurchaseIsSound(s, signalDate, next, row, b, shares);
      SumsOfAppend(b.open, OpenTrade(s, signalDate, next, row, b, shares));
    }
  }

  lemma {:induction false} BuyPhaseKeepsLedger(
    s: Settings, signalDate: int, next: Day, b: Buying, candidates: seq<Row>, total: real)
    requires s.Valid() && BuyingSound(b, s, total)
    requires forall j :: 0 <= j < |next.rows| ==> PositivePrices(next.rows[j])
    ensures BuyingSound(BuyPhase(s, signalDate, next, b, candidates), s, total)
  {
    if candidates != [] {
      var rest := candidates[..|candidates| - 1];
      BuyPhaseKeepsLedger(s, signalDate, next, b, rest, total);
      BuyOneKeepsLedger(s, signalDate, next, BuyPhase(s, signalDate, next, b, rest),
                        candidates[|candidates| - 1], total);
    }
  }

  // ----- whole runs

  lemma DayKeepsLedger(strategy: Strategy, s: Settings, rank: Ranking, data: seq<Day>, t: nat, st: State)
    requires s.Valid() && PricedFrame(data) && t < |data| && Balanced(BookOf(st), s)
    ensures Balanced(SellDay(strategy, s, data, t, st), s)
    ensures Balanced(BookOf(Step(strategy, s, rank, data, t, st)), s)
  {
    hide SellPhase, BuyPhase, SumBuy, SumSell, SumPnl, SoundOpen, SoundClosed, MarketValue,
      PositivePrices, DayCandidates;
    SellPhaseKeepsLedger(strategy, s, data, data[t], st.cash, st.open, st.closed);
    var book := SellDay(strategy, s, data, t, st);
    var next := NextTradeIndex(data, 0, data[t].date);
    if next.Some? {
      var value := MarketValue(book.open, data[t].rows, st.lastClose);
      var start := Buying(book.cash, book.open, 0, value, book.cash + value);
      BuyPhaseKeepsLedger(s, data[t].date, data[next.value], start,
                          rank(DayCandidates(strategy, data, t, s.scan)), book.cash + SumBuy(book.open));
    }
  }

  // Conservation on every day of every run, for the state at the end of the
  // day and for the book the day's equity point is taken from.
  lemma {:induction false} LedgerBalancesOnEveryDay(
    strategy: Strategy, s: Settings, rank: Ranking, data: seq<Day>, n: nat)
    requires s.Valid() && PricedFrame(data) && n <= |data|
    ensures Balanced(BookOf(Run(strategy, s, rank, data, n)), s)
    ensures n < |data| ==> Balanced(Midday(strategy, s, rank, data, n), s)
  {
    hide Step, SellPhase, SellDay;
    if n > 0 {
      LedgerBalancesOnEveryDay(strategy, s, rank, data, n - 1);
      DayKeepsLedger(strategy, s, rank, data, n - 1, Run(strategy, s, rank, data, n - 1));
    }
    if n < |data| {
      DayKeepsLedger(strategy, s, rank, data, n, Run(strategy, s, rank, data, n));
    }
  }

  lemma {:induction false} PnlIsSalesLessPurchases(closed: seq<Trade>, s: Settings)
    requires SoundClosed(closed, s)
    ensures SumPnl(closed) == SumSell(closed) - SumBuy(closed)
  {
    if closed != [] {
      PnlIsSalesLessPurchases(closed[..|closed| - 1], s);
      assert SoundSale(closed[|closed| - 1]);
    }
  }

  lemma {:induction false} OpenGainIsValueLessPurchases(open: seq<Trade>, rows: seq<Row>, lastClose: map<string, real>)
    ensures SumOpenGain(open, rows, lastClose) == MarketValue(open, rows, lastClose) - SumBuy(open)
  {
    if open != [] {
      OpenGainIsValueLessPurchases(open[..|open| - 1], rows, lastClose);
    }
  }

  lemma RunCurveStep(strategy: Strategy, s: Settings, rank: Ranking, data: seq<Day>, n: nat)
    requires n <= |data|
    ensures n == 0 ==> Run(strategy, s, rank, data, n).curve == []
    ensures n > 0 ==>
      Run(strategy, s, rank, data, n).curve ==
      Run(strategy, s, rank, data, n - 1).curve
      + [NextPoint(data[n - 1], Midday(strategy, s, rank, data, n - 1), Run(strategy, s, rank, data, n - 1))]
  {
    hide SellDay, BuyDay, NextPoint;
  }

  lemma {:induction false} CurveHasOnePointPerDay(
    strategy: Strategy, s: Settings, rank: Ranking, data: seq<Day>, n: nat)
    requires n <= |data|
    ensures |Run(strategy, s, rank, data, n).curve| == n
    ensures forall t :: 0 <= t < n ==>
      Run(strategy, s, rank, data, n).curve[t] ==
      NextPoint(data[t], Midday(strategy, s, rank, data, t), Run(strategy, s, rank, data, t))
  {
    hide Run, Midday, NextPoint;
    RunCurveStep(strategy, s, rank, data, n);
    if n > 0 {
      CurveHasOnePointPerDay(strategy, s, rank, data, n - 1);
    }
  }

  // Each equity point is the initial cash plus realised and unrealised gains.
  lemma EquityIsInitialCashPlusGains(strategy: Strategy, s: Settings, rank: Ranking, data: seq<Day>, n: nat, t: nat)
    requires s.Valid() && PricedFrame(data) && t < n <= |data|
    ensures
      var curve := Run(strategy, s, rank, data, n).curve;
      var book := Midday(strategy, s, rank, data, t);
      var lastClose := Run(strategy, s, rank, data, t).lastClose;
      && t < |curve| && curve[t].date == data[t].date && curve[t].cash == book.cash
      && curve[t].marketValue == curve[t].equity - curve[t].cash
      && curve[t].equity - s.initialCash ==
         SumPnl(book.closed) + SumOpenGain(book.open, data[t].rows, lastClose)
  {
    CurveHasOnePointPerDay(strategy, s, rank, data, n);
    LedgerBalancesOnEveryDay(strategy, s, rank, data, t);
    var book := Midday(strategy, s, rank, data, t);
    PnlIsSalesLessPurchases(book.closed, s);
    OpenGainIsValueLessPurchases(book.open, data[t].rows, Run(strategy, s, rank, data, t).lastClose);
  }

  // The result of a whole run: no purchase follows the last equity point, so
  // the final equity is explained by the very trades that are returned.
  lemma FinalEquityIsExplainedByReturnedTrades(strategy: Strategy, s: Settings, rank: Ranking, data: seq<Day>)
    requires s.Valid() && PricedFrame(data) && SortedDays(data) && data != []
    ensures
      var end := Run(strategy, s, rank, data, |data|);
      var last := |data| - 1;
      && |end.curve| == |data|
      && end.curve[last].equity - s.initialCash ==
         SumPnl(end.closed)
         + SumOpenGain(end.open, data[last].rows, Run(strategy, s, rank, data, last).lastClose)
  {
    var last := |data| - 1;
    EquityIsInitialCashPlusGains(strategy, s, rank, data, |data|, last);
    CurveHasOnePointPerDay(strategy, s, rank, data, |data|);
    NextTradeIndexIsFirstLater(data, 0, last);
  }

  // The same of a whole backtest: what it returns is one point per trading day of
  // the period, and trades, closed and open, that explain the last one.
  lemma BacktestExplainsItself(
    frame: seq<Day>, strategy: Strategy, s: Settings, rank: Ranking, start: int, end: int, pool: string -> bool)
    requires
      var data := Restrict(frame, start, end, pool);
      s.Valid() && PricedFrame(data) && SortedDays(data) && data != []
    ensures
      var data, result := Restrict(frame, start, end, pool), Backtest(frame, strategy, s, rank, start, end, pool);
      var last := |data| - 1;
      && |result.curve| == |data|
      && (forall t :: 0 <= t <= last ==> result.curve[t].date == data[t].date)
      && result.curve[last].equity - s.initialCash ==
         SumPnl(result.closed)
         + SumOpenGain(result.open, data[last].rows, Run(strategy, s, rank, data, last).lastClose)
  {
    hide Run, Midday, Restrict;
    var data := Restrict(frame, start, end, pool);
    FinalEquityIsExplainedByReturnedTrades(strategy, s, rank, data);
    CurveHasOnePointPerDay(strategy, s, rank, data, |data|);
  }
}
