/**
  The daily backtest as a state machine over cash, open positions, closed
  trades, the equity curve and the last known closes. One step is one trading
  day: sell phase, candidate scan, equity point, buy phase, last closes.
 */
module Engine {
  import opened Options
  import opened Market
  import opened Conditions
  import opened Prefilter

  const BOARD_LOT_SIZE: int := 100
  const LIMIT_TOLERANCE: real := 0.0001

  datatype SizingMode = FixedRatio | EqualSlots

  datatype Settings = Settings(
    initialCash: real,
    conservativeExecution: bool,
    limitUpBlocksBuy: bool,
    limitDownBlocksSell: bool,
    feeRate: real,
    stampTaxRate: real,
    slippageRate: real,
    sizing: SizingMode,
    positionSizePct: real,
    fixedHoldingDays: int,
    takeProfitPct: Option<real>,
    stopLossPct: Option<real>,
    maxPositions: int,
    maxDailyBuys: int,
    scan: ScanSettings)
  {
    // What the settings model validates, and the cost rates the ledger relies on.
    ghost predicate Valid() {
      && initialCash > 0.0
      && 0.0 <= feeRate && 0.0 <= stampTaxRate && feeRate + stampTaxRate <= 1.0
      && 0.0 <= slippageRate <= 1.0
      && 0.0 < positionSizePct <= 1.0
      && 1 <= fixedHoldingDays
      && 1 <= maxPositions
      && 1 <= maxDailyBuys
      && (stopLossPct.Some? ==> stopLossPct.value < 0.0)
      && (takeProfitPct.Some? ==> takeProfitPct.value > 0.0)
    }
  }

  datatype Sale = Sale(date: int, price: real, amount: real, pnl: real)

  datatype Trade = Trade(
    symbol: string,
    buySignalDate: int,
    buyDate: int,
    buyPrice: real,
    shares: int,
    plannedAmount: real,
    buyAmount: real,
    targetPct: real,
    actualPct: real,
    sellSignalDate: Option<int>,
    sale: Option<Sale>)

  datatype EquityPoint = EquityPoint(date: int, equity: real, cash: real, marketValue: real, drawdown: real)

  datatype State = State(
    cash: real,
    open: seq<Trade>,
    closed: seq<Trade>,
    curve: seq<EquityPoint>,
    peak: real,
    lastClose: map<string, real>)

  // A ranking of the day's candidates; the engine works for any.
  type Ranking = seq<Row> -> seq<Row>

  ghost predicate PositivePrices(row: Row) {
    0.0 < row.low <= row.open <= row.high && row.low <= row.close <= row.high
  }

  ghost predicate PricedFrame(data: seq<Day>) {
    forall i, j :: 0 <= i < |data| && 0 <= j < |data[i].rows| ==> PositivePrices(data[i].rows[j])
  }

  // ----- prices

  predicate HasPrefix(s: string, prefix: string) {
    prefix <= s
  }

  function LimitPct(row: Row): Option<real> {
    if row.preClose.Missing? || row.preClose.value <= 0.0 then None
    else if row.st then Some(0.05)
    else if HasPrefix(row.symbol, "300") || HasPrefix(row.symbol, "688") then Some(0.20)
    else Some(0.10)
  }

  predicate OpensNearLimitUp(row: Row) {
    var pct := LimitPct(row);
    pct.Some? && row.preClose.Num?
    && row.open >= row.preClose.value * (1.0 + pct.value) * (1.0 - LIMIT_TOLERANCE)
  }

  predicate OpensNearLimitDown(row: Row) {
    var pct := LimitPct(row);
    pct.Some? && row.preClose.Num?
    && row.open <= row.preClose.value * (1.0 - pct.value) * (1.0 + LIMIT_TOLERANCE)
  }

  function BuyExecutionPrice(row: Row, s: Settings): real {
    if s.conservativeExecution then row.open * (1.0 + s.slippageRate) else row.open
  }

  function SellExecutionPrice(price: real, s: Settings): real {
    if s.conservativeExecution then price * (1.0 - s.slippageRate) else price
  }

  // The price level a share away from the purchase price.
  function LevelAt(buyPrice: real, pct: real): real {
    buyPrice * (1.0 + pct)
  }

  // A same-day exit: the open wins when it already crosses the level, and when
  // both levels are touched inside the day the stop is taken first.
  function IntradayExit(t: Trade, row: Row, s: Settings): Option<real> {
    var profitLevel := if s.takeProfitPct.Some? then Some(LevelAt(t.buyPrice, s.takeProfitPct.value)) else None;
    var stopLevel := if s.stopLossPct.Some? then Some(LevelAt(t.buyPrice, s.stopLossPct.value)) else None;
    var profitHit := profitLevel.Some? && (row.open >= profitLevel.value || row.high >= profitLevel.value);
    var stopHit := stopLevel.Some? && (row.open <= stopLevel.value || row.low <= stopLevel.value);
    if profitHit && stopHit then
      if row.open >= profitLevel.value then Some(row.open)
      else if row.open <= stopLevel.value then Some(row.open)
      else Some(stopLevel.value)
    else if stopHit then Some(if row.open <= stopLevel.value then row.open else stopLevel.value)
    else if profitHit then Some(if row.open >= profitLevel.value then row.open else profitLevel.value)
    else None
  }

  // ----- selling

  function Proceeds(t: Trade, rawPrice: real, s: Settings): real {
    SellExecutionPrice(rawPrice, s) * t.shares as real * (1.0 - s.feeRate - s.stampTaxRate)
  }

  function Close(t: Trade, signalDate: int, tradeDate: int, rawPrice: real, s: Settings): Trade {
    var amount := Proceeds(t, rawPrice, s);
    t.(sellSignalDate := Some(signalDate),
       sale := Some(Sale(tradeDate, SellExecutionPrice(rawPrice, s), amount, amount - t.buyAmount)))
  }

  // The inclusive number of trading days from the purchase to a date.
  function HeldDays(data: seq<Day>, from: int, to: int): nat {
    if data == [] then 0
    else
      HeldDays(data[..|data| - 1], from, to) + if from <= data[|data| - 1].date <= to then 1 else 0
  }

  // The exit rules raise a signal when any of them passes.
  ghost predicate ExitSignal(rules: seq<Node>, row: Row, data: seq<Day>) {
    exists n :: n in rules && Evaluate(n, row, data)
  }

  predicate SellBlocked(row: Row, s: Settings) {
    s.limitDownBlocksSell && OpensNearLimitDown(row)
  }

  // A position is traded on day d when it is past its buy date and has a row
  // that is not suspended.
  predicate Sellable(t: Trade, d: Day) {
    t.buyDate < d.date && Lookup(d.rows, t.symbol).Some? && !Lookup(d.rows, t.symbol).value.suspended
  }

  // The price at which a sellable position leaves on day d, if it has to.
  ghost function ExitPrice(t: Trade, data: seq<Day>, d: Day, row: Row, s: Settings): Option<real> {
    if t.sellSignalDate.Some? then Some(row.open)
    else if HeldDays(data, t.buyDate, d.date) >= s.fixedHoldingDays then Some(row.open)
    else IntradayExit(t, row, s)
  }

  // What the sell phase makes of one open position: it stays (perhaps with a
  // fresh exit signal) or comes back closed.
  ghost function AfterSellPhase(strategy: Strategy, s: Settings, data: seq<Day>, d: Day, t: Trade): Trade {
    if !Sellable(t, d) then t
    else
      var row := Lookup(d.rows, t.symbol).value;
      var price := ExitPrice(t, data, d, row, s);
      if price.Some? then
        if SellBlocked(row, s) then t
        else Close(t, if t.sellSignalDate.Some? then t.sellSignalDate.value else d.date, d.date, price.value, s)
      else if ExitSignal(strategy.exitRules, row, data) then t.(sellSignalDate := Some(d.date))
      else t
  }

  datatype Book = Book(cash: real, open: seq<Trade>, closed: seq<Trade>)

  // The sell phase over the first n open positions.
  ghost function SellPhase(
    strategy: Strategy, s: Settings, data: seq<Day>, d: Day, cash: real, open: seq<Trade>, closed: seq<Trade>): Book
  {
    if open == [] then Book(cash, [], closed)
    else
      var before := SellPhase(strategy, s, data, d, cash, open[..|open| - 1], closed);
      var after := AfterSellPhase(strategy, s, data, d, open[|open| - 1]);
      if after.sale.Some? then
        Book(before.cash + after.sale.value.amount, before.open, before.closed + [after])
      else Book(before.cash, before.open + [after], before.closed)
  }

  // ----- marking

  function MarkPrice(t: Trade, rows: seq<Row>, lastClose: map<string, real>): real {
    match Lookup(rows, t.symbol)
    case Some(row) => row.close
    case None => if t.symbol in lastClose then lastClose[t.symbol] else t.buyPrice
  }

  function MarketValue(open: seq<Trade>, rows: seq<Row>, lastClose: map<string, real>): real {
    if open == [] then 0.0
    else
      MarketValue(open[..|open| - 1], rows, lastClose)
      + MarkPrice(open[|open| - 1], rows, lastClose) * open[|open| - 1].shares as real
  }

  // ----- buying

  function RealMin(a: real, b: real): real {
    if a <= b then a else b
  }

  function PlannedEntryAmount(s: Settings, cash: real, openCount: nat, equity: real): real {
    var cap := equity * s.positionSizePct;
    if s.sizing == FixedRatio then RealMin(cash, cap)
    else
      var slots := if s.maxPositions - openCount >= 1 then s.maxPositions - openCount else 1;
      RealMin(RealMin(cash, cap), cash / slots as real)
  }

  function CostPerShare(row: Row, s: Settings): real {
    BuyExecutionPrice(row, s) * (1.0 + s.feeRate)
  }

  // Whole board lots that the planned amount pays for.
  function LotShares(planned: real, cost: real): int
    requires cost > 0.0
  {
    ((planned / cost).Floor / BOARD_LOT_SIZE) * BOARD_LOT_SIZE
  }

  function ShareOf(amount: real, equity: real): real {
    if equity != 0.0 then amount / equity else 0.0
  }

  datatype Buying = Buying(cash: real, open: seq<Trade>, count: nat, marketValue: real, equity: real)

  predicate Holds(open: seq<Trade>, symbol: string) {
    exists i :: 0 <= i < |open| && open[i].symbol == symbol
  }

  // The row a candidate would be bought on, unless the purchase is skipped or blocked.
  function BuyRow(s: Settings, next: Day, candidate: Row): Option<Row> {
    match Lookup(next.rows, candidate.symbol)
    case None => None
    case Some(row) =>
      if row.suspended || (s.limitUpBlocksBuy && OpensNearLimitUp(row)) then None else Some(row)
  }

  function OpenTrade(s: Settings, signalDate: int, next: Day, row: Row, b: Buying, shares: int): Trade
  {
    var planned := PlannedEntryAmount(s, b.cash, |b.open|, b.equity);
    var amount := shares as real * CostPerShare(row, s);
    Trade(row.symbol, signalDate, next.date, BuyExecutionPrice(row, s), shares, planned, amount,
          ShareOf(planned, b.equity), ShareOf(amount, b.equity), None, None)
  }

  // One candidate: bought when there is a free slot, no holding of the symbol
  // and at least one affordable lot.
  function BuyOne(s: Settings, signalDate: int, next: Day, b: Buying, candidate: Row): Buying {
    if |b.open| >= s.maxPositions || b.count >= s.maxDailyBuys || Holds(b.open, candidate.symbol) then b
    else
      match BuyRow(s, next, candidate)
      case None => b
      case Some(row) =>
        var cost := CostPerShare(row, s);
        if cost <= 0.0 then b  // not a price the source can divide by
        else
          var shares := LotShares(PlannedEntryAmount(s, b.cash, |b.open|, b.equity), cost);
          if shares <= 0 then b
          else
            var amount := shares as real * cost;
            var cash := b.cash - amount;
            var marketValue := b.marketValue + BuyExecutionPrice(row, s) * shares as real;
            Buying(cash, b.open + [OpenTrade(s, signalDate, next, row, b, shares)], b.count + 1,
                   marketValue, cash + marketValue)
  }

  // The buy phase over a list of ranked candidates.
  function BuyPhase(s: Settings, signalDate: int, next: Day, b: Buying, candidates: seq<Row>): Buying {
    if candidates == [] then b
    else
      BuyOne(s, signalDate, next, BuyPhase(s, signalDate, next, b, candidates[..|candidates| - 1]),
             candidates[|candidates| - 1])
  }

  // ----- one day

  function UpdateCloses(lastClose: map<string, real>, rows: seq<Row>): map<string, real> {
    if rows == [] then lastClose
    else UpdateCloses(lastClose, rows[..|rows| - 1])[rows[|rows| - 1].symbol := rows[|rows| - 1].close]
  }

  // The index of the next trading day, as found by scanning the sorted dates.
  function NextTradeIndex(data: seq<Day>, from: nat, date: int): Option<nat>
    requires from <= |data|
    ensures NextTradeIndex(data, from, date).Some? ==> NextTradeIndex(data, from, date).value < |data|
    decreases |data| - from
  {
    if from == |data| then None
    else if data[from].date > date then Some(from)
    else NextTradeIndex(data, from + 1, date)
  }

  ghost function SellDay(strategy: Strategy, s: Settings, data: seq<Day>, t: nat, st: State): Book
    requires t < |data|
  {
    SellPhase(strategy, s, data, data[t], st.cash, st.open, st.closed)
  }

  // The relative fall from a peak.
  function FallFrom(peak: real, equity: real): real {
    if peak != 0.0 then equity / peak - 1.0 else 0.0
  }

  function NextPoint(d: Day, book: Book, st: State): EquityPoint {
    var value := MarketValue(book.open, d.rows, st.lastClose);
    var equity := book.cash + value;
    var peak := if equity > st.peak then equity else st.peak;
    EquityPoint(d.date, equity, book.cash, value, FallFrom(peak, equity))
  }

  ghost function BuyDay(
    strategy: Strategy, s: Settings, rank: Ranking, data: seq<Day>, t: nat, book: Book, st: State): Buying
    requires t < |data|
  {
    var value := MarketValue(book.open, data[t].rows, st.lastClose);
    var start := Buying(book.cash, book.open, 0, value, book.cash + value);
    match NextTradeIndex(data, 0, data[t].date)
    case None => start
    case Some(next) =>
      if |book.open| >= s.maxPositions then start
      else BuyPhase(s, data[t].date, data[next], start, rank(DayCandidates(strategy, data, t, s.scan)))
  }

  // One trading day.
  ghost function Step(strategy: Strategy, s: Settings, rank: Ranking, data: seq<Day>, t: nat, st: State): State
    requires t < |data|
  {
    var book := SellDay(strategy, s, data, t, st);
    var point := NextPoint(data[t], book, st);
    var bought := BuyDay(strategy, s, rank, data, t, book, st);
    State(bought.cash, bought.open, book.closed, st.curve + [point],
          if point.equity > st.peak then point.equity else st.peak,
          UpdateCloses(st.lastClose, data[t].rows))
  }

  function Initial(s: Settings): State {
    State(s.initialCash, [], [], [], s.initialCash, map[])
  }

  // The state after n trading days.
  ghost function Run(strategy: Strategy, s: Settings, rank: Ranking, data: seq<Day>, n: nat): State
    requires n <= |data|
  {
    if n == 0 then Initial(s) else Step(strategy, s, rank, data, n - 1, Run(strategy, s, rank, data, n - 1))
  }

  // The book on day t between the sell phase and the buy phase.
  ghost function Midday(strategy: Strategy, s: Settings, rank: Ranking, data: seq<Day>, t: nat): Book
    requires t < |data|
  {
    SellDay(strategy, s, data, t, Run(strategy, s, rank, data, t))
  }

  lemma RunStart(strategy: Strategy, s: Settings, rank: Ranking, data: seq<Day>)
    ensures Run(strategy, s, rank, data, 0) == Initial(s)
  {
    hide Step;
  }

  // The run unrolled by its last day.
  lemma RunStep(strategy: Strategy, s: Settings, rank: Ranking, data: seq<Day>, n: nat)
    requires 0 < n <= |data|
    ensures Run(strategy, s, rank, data, n)
            == Step(strategy, s, rank, data, n - 1, Run(strategy, s, rank, data, n - 1))
  {
    hide Step;
  }

  // ----- the whole backtest

  function PoolRows(rows: seq<Row>, pool: string -> bool): seq<Row> {
    if rows == [] then []
    else PoolRows(rows[..|rows| - 1], pool) + if pool(rows[|rows| - 1].symbol) then [rows[|rows| - 1]] else []
  }

  // The frame restricted to a period and a stock pool; days without a row left
  // in the pool are no trading days of the backtest.
  function Restrict(frame: seq<Day>, start: int, end: int, pool: string -> bool): seq<Day> {
    if frame == [] then []
    else
      var day := frame[|frame| - 1];
      var rows := PoolRows(day.rows, pool);
      Restrict(frame[..|frame| - 1], start, end, pool)
      + if start <= day.date <= end && rows != [] then [Day(day.date, rows)] else []
  }

  datatype Result = Result(curve: seq<EquityPoint>, closed: seq<Trade>, open: seq<Trade>)

  ghost function Backtest(
    frame: seq<Day>, strategy: Strategy, s: Settings, rank: Ranking, start: int, end: int, pool: string -> bool): Result
  {
    var data := Restrict(frame, start, end, pool);
    var st := Run(strategy, s, rank, data, |data|);
    Result(st.curve, st.closed, st.open)
  }

  lemma {:induction false} NextTradeIndexIsFirstLater(data: seq<Day>, from: nat, t: nat)
    requires SortedDays(data) && from <= t + 1 && t < |data|
    ensures NextTradeIndex(data, from, data[t].date) == if t + 1 < |data| then Some(t + 1) else None
    decreases |data| - from
  {
    if from <= t {
      NextTradeIndexIsFirstLater(data, from + 1, t);
    } else if from < |data| {
      assert data[t].date < data[from].date;
    }
  }
}
