/**
  The backtest as the loops and mutable trade records of the source, proved
  against the state machine of module Engine.
 */
module BacktestRun {
  import opened Options
  import opened Market
  import opened Conditions
  import opened Prefilter
  import opened Engine

  // A trade whose sell side is filled in place.
  class TradeRecord {
    const symbol: string
    const buySignalDate: int
    const buyDate: int
    const buyPrice: real
    const shares: int
    const plannedAmount: real
    const buyAmount: real
    const targetPct: real
    const actualPct: real
    var sellSignalDate: Option<int>
    var sale: Option<Sale>

    constructor (t: Trade)
      ensures View() == t
    {
      symbol, buySignalDate, buyDate := t.symbol, t.buySignalDate, t.buyDate;
      buyPrice, shares := t.buyPrice, t.shares;
      plannedAmount, buyAmount := t.plannedAmount, t.buyAmount;
      targetPct, actualPct := t.targetPct, t.actualPct;
      sellSignalDate, sale := t.sellSignalDate, t.sale;
    }

    function View(): Trade
      reads this
    {
      Trade(symbol, buySignalDate, buyDate, buyPrice, shares, plannedAmount, buyAmount, targetPct, actualPct,
            sellSignalDate, sale)
    }

    method ClosePosition(signalDate: int, tradeDate: int, rawPrice: real, s: Settings) returns (proceeds: real)
      modifies this
      ensures View() == Close(old(View()), signalDate, tradeDate, rawPrice, s)
      ensures proceeds == Proceeds(old(View()), rawPrice, s)
    {
      var price := SellExecutionPrice(rawPrice, s);
      proceeds := price * shares as real * (1.0 - s.feeRate - s.stampTaxRate);
      ghost var t := View();
      assert proceeds == Proceeds(t, rawPrice, s);
      sellSignalDate := Some(signalDate);
      sale := Some(Sale(tradeDate, price, proceeds, proceeds - buyAmount));
    }
  }

  function Views(ts: seq<TradeRecord>): (r: seq<Trade>)
    reads ts
    ensures |r| == |ts|
  {
    seq(|ts|, i requires 0 <= i < |ts| reads ts => ts[i].View())
  }

  ghost predicate Unique(ts: seq<TradeRecord>) {
    forall i, j :: 0 <= i < j < |ts| ==> ts[i] != ts[j]
  }

  ghost predicate Separate(a: seq<TradeRecord>, b: seq<TradeRecord>) {
    forall x :: x in a ==> x !in b
  }

  // ----- the sell phase

  method AnyExitRule(rules: seq<Node>, row: Row, data: seq<Day>) returns (signal: bool)
    ensures signal <==> ExitSignal(rules, row, data)
  {
    signal := false;
    for i := 0 to |rules|
      invariant signal <==> exists n :: n in rules[..i] && Evaluate(n, row, data)
    {
      assert rules[..i + 1] == rules[..i] + [rules[i]];
      if Evaluate(rules[i], row, data) {
        assert rules[i] in rules[..i + 1];
        signal := true;
      }
    }
    assert rules[..|rules|] == rules;
  }

  method CountHeldDays(data: seq<Day>, from: int, to: int) returns (held: nat)
    ensures held == HeldDays(data, from, to)
  {
    held := 0;
    for i := 0 to |data|
      invariant held == HeldDays(data[..i], from, to)
    {
      assert data[..i + 1][..i] == data[..i];
      if from <= data[i].date <= to {
        held := held + 1;
      }
    }
    assert data[..|data|] == data;
  }

  // One open position on one day.
  method SellOne(strategy: Strategy, s: Settings, data: seq<Day>, d: Day, position: TradeRecord)
    returns (sold: bool, proceeds: real)
    requires position.sale.None?
    modifies position
    ensures position.View() == AfterSellPhase(strategy, s, data, d, old(position.View()))
    ensures sold == position.sale.Some? && (sold ==> proceeds == position.sale.value.amount)
  {
    hide IntradayExit, OpensNearLimitDown, Evaluate, HeldDays;
    sold, proceeds := false, 0.0;
    if d.date <= position.buyDate {
      return;
    }
    var found := Lookup(d.rows, position.symbol);
    if found.None? || found.value.suspended {
      return;
    }
    var row := found.value;
    var blocked := SellBlocked(row, s);
    if position.sellSignalDate.Some? {
      if !blocked {
        proceeds := position.ClosePosition(position.sellSignalDate.value, d.date, row.open, s);
        sold := true;
      }
      return;
    }
    var held := CountHeldDays(data, position.buyDate, d.date);
    if held >= s.fixedHoldingDays {
      if !blocked {
        proceeds := position.ClosePosition(d.date, d.date, row.open, s);
        sold := true;
      }
      return;
    }
    var exit := IntradayExit(position.View(), row, s);
    if exit.Some? {
      if !blocked {
        proceeds := position.ClosePosition(d.date, d.date, exit.value, s);
        sold := true;
      }
      return;
    }
    var signal := AnyExitRule(strategy.exitRules, row, data);
    if signal {
      position.sellSignalDate := Some(d.date);
    }
  }

  // The loop over all open positions.
  method SellAll(
    strategy: Strategy, s: Settings, data: seq<Day>, d: Day,
    cash0: real, open: seq<TradeRecord>, closed0: seq<TradeRecord>)
    returns (cash: real, stillOpen: seq<TradeRecord>, closed: seq<TradeRecord>)
    requires Unique(open) && Separate(open, closed0)
    requires forall x :: x in open ==> x.sale.None?
    modifies open
    ensures Book(cash, Views(stillOpen), Views(closed))
            == SellPhase(strategy, s, data, d, cash0, old(Views(open)), old(Views(closed0)))
    ensures Unique(stillOpen) && Separate(stillOpen, closed)
    ensures forall x :: x in stillOpen ==> x in open && x.sale.None?
    ensures forall x :: x in closed ==> x in closed0 || x in open
  {
    hide AfterSellPhase;
    cash, stillOpen, closed := cash0, [], closed0;
    ghost var views, closedViews := Views(open), Views(closed0);
    for i := 0 to |open|
      invariant forall k :: i <= k < |open| ==> open[k].View() == views[k]
      invariant forall x :: x in stillOpen ==> x in open[..i] && x.sale.None?
      invariant forall x :: x in closed ==> x in closed0 || x in open[..i]
      invariant Unique(stillOpen) && Separate(stillOpen, closed)
      invariant Book(cash, Views(stillOpen), Views(closed))
                == SellPhase(strategy, s, data, d, cash0, views[..i], closedViews)
    {
      var position := open[i];
      assert position !in open[..i];
      assert open[..i + 1] == open[..i] + [position];
      assert views[..i + 1][..i] == views[..i];
      ghost var openBefore, closedBefore := Views(stillOpen), Views(closed);
      var sold, proceeds := SellOne(strategy, s, data, d, position);
      assert Views(stillOpen) == openBefore && Views(closed) == closedBefore;
      if sold {
        cash := cash + proceeds;
        closed := closed + [position];
        assert Views(closed) == closedBefore + [position.View()];
      } else {
        stillOpen := stillOpen + [position];
        assert Views(stillOpen) == openBefore + [position.View()];
      }
    }
    assert views[..|open|] == views;
  }

  // ----- the candidate scan

  method PassesMarketFilters(strategy: Strategy, row: Row, data: seq<Day>) returns (ok: bool)
    ensures ok <==> MarketPasses(strategy, row, data)
  {
    hide Evaluate;
    for i := 0 to |strategy.marketFilters|
      invariant forall n :: n in strategy.marketFilters[..i] ==> Evaluate(n, row, data)
    {
      if !Evaluate(strategy.marketFilters[i], row, data) {
        return false;
      }
      assert strategy.marketFilters[..i + 1] == strategy.marketFilters[..i] + [strategy.marketFilters[i]];
    }
    assert strategy.marketFilters[..|strategy.marketFilters|] == strategy.marketFilters;
    return true;
  }

  method PassesEntry(strategy: Strategy, row: Row, data: seq<Day>) returns (ok: bool)
    ensures ok <==> EntryPasses(strategy, row, data)
  {
    hide GroupPasses;
    for i := 0 to |strategy.entryGroups|
      invariant forall g :: g in strategy.entryGroups[..i] ==> GroupPasses(g, row, data, strategy.scoreThreshold)
    {
      var passed, _ := EvaluateGroup(strategy.entryGroups[i], row, data, strategy.scoreThreshold);
      if !passed {
        assert strategy.entryGroups[i] in strategy.entryGroups;
        return false;
      }
      assert strategy.entryGroups[..i + 1] == strategy.entryGroups[..i] + [strategy.entryGroups[i]];
    }
    assert strategy.entryGroups[..|strategy.entryGroups|] == strategy.entryGroups;
    return true;
  }

  method ScanEntryCandidates(strategy: Strategy, settings: ScanSettings, data: seq<Day>, t: nat)
    returns (candidates: seq<Row>)
    requires t < |data|
    ensures candidates == DayCandidates(strategy, data, t, settings)
  {
    hide KeptByPrefilter, MarketPasses, EntryPasses;
    candidates := [];
    for j := 0 to |data[t].rows|
      invariant candidates == Scan(strategy, data, t, j, settings)
    {
      var row := data[t].rows[j];
      var kept := CandidatePrefilterMask(strategy, data, t, j);
      if kept && Eligible(row, settings) {
        var marketOk := PassesMarketFilters(strategy, row, data);
        if marketOk {
          var entryOk := PassesEntry(strategy, row, data);
          if entryOk {
            candidates := candidates + [row];
          }
        }
      }
    }
  }

  // ----- marking and buying

  method MarkToMarket(open: seq<TradeRecord>, rows: seq<Row>, lastClose: map<string, real>) returns (value: real)
    ensures value == MarketValue(Views(open), rows, lastClose)
  {
    hide MarkPrice;
    var views := Views(open);
    value := 0.0;
    for i := 0 to |open|
      invariant value == MarketValue(views[..i], rows, lastClose)
    {
      assert views[..i + 1][..i] == views[..i];
      value := value + MarkPrice(open[i].View(), rows, lastClose) * open[i].shares as real;
    }
    assert views[..|open|] == views;
  }

  method HoldsSymbol(open: seq<TradeRecord>, symbol: string) returns (held: bool)
    ensures held <==> Holds(Views(open), symbol)
  {
    for i := 0 to |open|
      invariant forall k :: 0 <= k < i ==> open[k].symbol != symbol
    {
      if open[i].symbol == symbol {
        assert Views(open)[i].symbol == symbol;
        return true;
      }
    }
    return false;
  }

  // Whether and how a candidate is bought; no state is changed.
  method TryBuy(s: Settings, signalDate: int, next: Day, b: Buying, candidate: Row) returns (bought: Option<Trade>)
    requires |b.open| < s.maxPositions && b.count < s.maxDailyBuys && !Holds(b.open, candidate.symbol)
    ensures
      var r := BuyOne(s, signalDate, next, b, candidate);
      match bought
      case None => r == b
      case Some(t) =>
        t.sale.None? &&
        r == Buying(b.cash - t.buyAmount, b.open + [t], b.count + 1,
                    b.marketValue + t.buyPrice * t.shares as real,
                    b.cash - t.buyAmount + (b.marketValue + t.buyPrice * t.shares as real))
  {
    hide PlannedEntryAmount, LotShares, BuyExecutionPrice, OpensNearLimitUp, Holds, Lookup;
    var row := BuyRow(s, next, candidate);
    if row.None? {
      return None;
    }
    var planned := PlannedEntryAmount(s, b.cash, |b.open|, b.equity);
    var cost := CostPerShare(row.value, s);
    if cost <= 0.0 {
      return None;
    }
    var shares := LotShares(planned, cost);
    if shares <= 0 {
      return None;
    }
    return Some(OpenTrade(s, signalDate, next, row.value, b, shares));
  }

  lemma {:induction false} FullBookBuysNothing(
    s: Settings, signalDate: int, next: Day, b: Buying, candidates: seq<Row>, i: nat)
    requires i <= |candidates|
    requires
      var done := BuyPhase(s, signalDate, next, b, candidates[..i]);
      |done.open| >= s.maxPositions || done.count >= s.maxDailyBuys
    ensures BuyPhase(s, signalDate, next, b, candidates) == BuyPhase(s, signalDate, next, b, candidates[..i])
  {
    if i < |candidates| {
      var rest := candidates[..|candidates| - 1];
      assert rest[..i] == candidates[..i];
      FullBookBuysNothing(s, signalDate, next, b, rest, i);
    } else {
      assert candidates[..i] == candidates;
    }
  }

  // The loop over ranked candidates, with its two early exits.
  method BuyAll(
    s: Settings, signalDate: int, next: Day, cash0: real, value0: real, open0: seq<TradeRecord>, candidates: seq<Row>)
    returns (cash: real, open: seq<TradeRecord>)
    requires Unique(open0) && forall x :: x in open0 ==> x.sale.None?
    ensures
      var r := BuyPhase(s, signalDate, next, Buying(cash0, Views(open0), 0, value0, cash0 + value0), candidates);
      cash == r.cash && Views(open) == r.open
    ensures Unique(open)
    ensures forall x :: x in open ==> x.sale.None? && (x in open0 || fresh(x))
  {
    hide BuyOne, Holds;
    ghost var start := Buying(cash0, Views(open0), 0, value0, cash0 + value0);
    cash, open := cash0, open0;
    var count, value, equity := 0, value0, cash0 + value0;
    for i := 0 to |candidates|
      invariant Buying(cash, Views(open), count, value, equity)
                == BuyPhase(s, signalDate, next, start, candidates[..i])
      invariant Unique(open)
      invariant forall x :: x in open ==> x.sale.None? && (x in open0 || fresh(x))
    {
      assert candidates[..i + 1][..i] == candidates[..i];
      if |open| >= s.maxPositions || count >= s.maxDailyBuys {
        FullBookBuysNothing(s, signalDate, next, start, candidates, i);
        return;
      }
      var b := Buying(cash, Views(open), count, value, equity);
      var held := HoldsSymbol(open, candidates[i].symbol);
      if held {
        HeldSymbolIsSkipped(s, signalDate, next, b, candidates[i]);
      } else {
        var bought := TryBuy(s, signalDate, next, b, candidates[i]);
        if bought.Some? {
          var record := new TradeRecord(bought.value);
          assert Views(open) == b.open;
          open := open + [record];
          assert Views(open) == b.open + [bought.value];
          cash := cash - bought.value.buyAmount;
          count := count + 1;
          value := value + bought.value.buyPrice * bought.value.shares as real;
          equity := cash + value;
          assert Buying(cash, Views(open), count, value, equity) == BuyOne(s, signalDate, next, b, candidates[i]);
        }
      }
    }
    assert candidates[..|candidates|] == candidates;
  }

  lemma HeldSymbolIsSkipped(s: Settings, signalDate: int, next: Day, b: Buying, candidate: Row)
    requires Holds(b.open, candidate.symbol)
    ensures BuyOne(s, signalDate, next, b, candidate) == b
  {
    hide PlannedEntryAmount, LotShares;
  }

  method RecordCloses(lastClose0: map<string, real>, rows: seq<Row>) returns (lastClose: map<string, real>)
    ensures lastClose == UpdateCloses(lastClose0, rows)
  {
    lastClose := lastClose0;
    for i := 0 to |rows|
      invariant lastClose == UpdateCloses(lastClose0, rows[..i])
    {
      assert rows[..i + 1][..i] == rows[..i];
      lastClose := lastClose[rows[i].symbol := rows[i].close];
    }
    assert rows[..|rows|] == rows;
  }

  // ----- the run

  // The records and values of a run at one moment, seen as a state.
  function Snapshot(
    cash: real, open: seq<TradeRecord>, closed: seq<TradeRecord>, curve: seq<EquityPoint>, peak: real,
    lastClose: map<string, real>): State
    reads open, closed
  {
    State(cash, Views(open), Views(closed), curve, peak, lastClose)
  }

  // One trading day of the source's outer loop.
  method RunDay(
    strategy: Strategy, s: Settings, rank: Ranking, data: seq<Day>, t: nat,
    cash0: real, open0: seq<TradeRecord>, closed0: seq<TradeRecord>, curve0: seq<EquityPoint>, peak0: real,
    lastClose0: map<string, real>)
    returns (cash: real, open: seq<TradeRecord>, closed: seq<TradeRecord>, curve: seq<EquityPoint>, peak: real,
             lastClose: map<string, real>)
    requires t < |data|
    requires Unique(open0) && Separate(open0, closed0) && forall x :: x in open0 ==> x.sale.None?
    modifies open0
    ensures Snapshot(cash, open, closed, curve, peak, lastClose) ==
            Step(strategy, s, rank, data, t, old(Snapshot(cash0, open0, closed0, curve0, peak0, lastClose0)))
    ensures Unique(open) && Separate(open, closed) && forall x :: x in open ==> x.sale.None?
    ensures forall x :: x in open ==> x in open0 || x in closed0 || fresh(x)
    ensures forall x :: x in closed ==> x in open0 || x in closed0 || fresh(x)
  {
    hide SellPhase, BuyPhase, Scan, MarketValue, UpdateCloses, FallFrom, NextTradeIndex;
    ghost var st := Snapshot(cash0, open0, closed0, curve0, peak0, lastClose0);
    var today := data[t];
    var stillOpen: seq<TradeRecord>;
    cash, stillOpen, closed := SellAll(strategy, s, data, today, cash0, open0, closed0);
    ghost var book := SellDay(strategy, s, data, t, st);
    assert Book(cash, Views(stillOpen), Views(closed)) == book;

    var next := NextTradeIndex(data, 0, today.date);
    var candidates := ScanEntryCandidates(strategy, s.scan, data, t);
    var marketValue := MarkToMarket(stillOpen, today.rows, lastClose0);
    var equity := cash + marketValue;
    peak := if equity > peak0 then equity else peak0;
    curve := curve0 + [EquityPoint(today.date, equity, cash, marketValue, FallFrom(peak, equity))];
    assert curve == st.curve + [NextPoint(today, book, st)];

    open := stillOpen;
    if next.Some? && |stillOpen| < s.maxPositions {
      cash, open := BuyAll(s, today.date, data[next.value], cash, marketValue, stillOpen, rank(candidates));
    }
    assert Views(closed) == book.closed;
    lastClose := RecordCloses(lastClose0, today.rows);
  }

  // The whole backtest over the restricted frame.
  method RunBacktest(strategy: Strategy, s: Settings, rank: Ranking, data: seq<Day>)
    returns (curve: seq<EquityPoint>, closed: seq<TradeRecord>, open: seq<TradeRecord>)
    ensures
      var st := Run(strategy, s, rank, data, |data|);
      curve == st.curve && Views(closed) == st.closed && Views(open) == st.open
    ensures forall x :: x in closed ==> fresh(x)
    ensures forall x :: x in open ==> fresh(x)
  {
    hide Step;
    var cash, peak := s.initialCash, s.initialCash;
    var lastClose: map<string, real> := map[];
    curve, closed, open := [], [], [];
    for t := 0 to |data|
      invariant Snapshot(cash, open, closed, curve, peak, lastClose) == Run(strategy, s, rank, data, t)
      invariant Unique(open) && Separate(open, closed) && forall x :: x in open ==> x.sale.None?
      invariant forall x :: x in closed ==> fresh(x)
      invariant forall x :: x in open ==> fresh(x)
    {
      assert forall k :: 0 <= k < |open| ==> open[k] in open && fresh(open[k]);
      cash, open, closed, curve, peak, lastClose :=
        RunDay(strategy, s, rank, data, t, cash, open, closed, curve, peak, lastClose);
    }
  }
}
