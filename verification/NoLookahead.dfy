/**
  No look-ahead: cutting the data off after some day, or ending the backtest
  earlier, cuts the equity curve and the list of closed trades and changes
  nothing before the cut.
 */
module NoLookahead {
  import opened Options
  import opened Market
  import opened Conditions
  import opened Prefilter
  import opened Indicators
  import opened Engine
  import Ledger

  // ----- evaluators and masks

  lemma {:induction false} RowsBeforeAreEarlier(days: seq<Day>, date: int, symbol: string)
    requires forall i, j :: 0 <= i < |days| && 0 <= j < |days[i].rows| ==> days[i].rows[j].date == days[i].date
    ensures forall r :: r in SymbolRows(Before(days, date), symbol) ==> r.date < date
  {
    if days != [] {
      RowsBeforeAreEarlier(days[..|days| - 1], date, symbol);
      var earlier := Before(days[..|days| - 1], date);
      if days[|days| - 1].date < date {
        assert Before(days, date)[..|earlier|] == earlier;
      }
    }
  }

  lemma VerdictIsCausal(c: Condition, row: Row, data: seq<Day>, k: nat)
    requires WellFormed(data) && k <= |data| && (k < |data| ==> row.date < data[k].date)
    ensures Verdict(c, row, data[..k]) <==> Verdict(c, row, data)
  {
    hide SymbolRows, Before;
    BeforeIgnoresLaterDays(data, k, row.date);
    BeforeIgnoresLaterDays(data, k, row.date + 1);
  }

  lemma EvaluationIsCausal(node: Node, row: Row, data: seq<Day>, k: nat)
    requires WellFormed(data) && k <= |data| && (k < |data| ==> row.date < data[k].date)
    ensures Evaluate(node, row, data[..k]) <==> Evaluate(node, row, data)
  {
    hide SymbolRows, Before, Verdict;
    BeforeIgnoresLaterDays(data, k, row.date);
    var history := HistoryBefore(data, row);
    if 0 < node.lag <= |history| {
      RowsBeforeAreEarlier(data, row.date, row.symbol);
      assert history[|history| - node.lag] in history;
      VerdictIsCausal(node.condition, history[|history| - node.lag], data, k);
    }
    VerdictIsCausal(node.condition, row, data, k);
  }

  lemma {:induction false} ScoreIsCausal(nodes: seq<Node>, row: Row, data: seq<Day>, k: nat)
    requires WellFormed(data) && k <= |data| && (k < |data| ==> row.date < data[k].date)
    ensures ScoreOf(nodes, row, data[..k]) == ScoreOf(nodes, row, data)
  {
    hide Evaluate;
    if nodes != [] {
      ScoreIsCausal(nodes[..|nodes| - 1], row, data, k);
      EvaluationIsCausal(nodes[|nodes| - 1], row, data, k);
    }
  }

  lemma CandidacyIsCausal(s: Strategy, row: Row, data: seq<Day>, k: nat, settings: ScanSettings)
    requires WellFormed(data) && k <= |data| && (k < |data| ==> row.date < data[k].date)
    ensures IsCandidate(s, row, data[..k], settings) <==> IsCandidate(s, row, data, settings)
  {
    hide Evaluate, ScoreOf;
    forall n: Node
      ensures Evaluate(n, row, data[..k]) <==> Evaluate(n, row, data)
    {
      EvaluationIsCausal(n, row, data, k);
    }
    forall g: Group
      ensures GroupPasses(g, row, data[..k], s.scoreThreshold) <==> GroupPasses(g, row, data, s.scoreThreshold)
    {
      ScoreIsCausal(g.nodes, row, data, k);
    }
  }

  lemma PrefilterIsCausal(s: Strategy, data: seq<Day>, k: nat, t: nat, j: nat)
    requires t < k <= |data| && j < |data[t].rows|
    ensures KeptByPrefilter(s, data[..k], t, j) <==> KeptByPrefilter(s, data, t, j)
  {
    assert data[..k][..t] == data[..t];
    forall c: Condition
      ensures ConditionMask(c, data[..k], t, j) <==> ConditionMask(c, data, t, j)
    {
      hide Lookup, SymbolRows;
    }
    hide ConditionMask;
  }

  lemma {:induction false} ScanIsCausal(s: Strategy, data: seq<Day>, k: nat, t: nat, n: nat, settings: ScanSettings)
    requires WellFormed(data) && t < k <= |data| && n <= |data[t].rows|
    ensures Scan(s, data[..k], t, n, settings) == Scan(s, data, t, n, settings)
  {
    hide IsCandidate, KeptByPrefilter;
    if n > 0 {
      ScanIsCausal(s, data, k, t, n - 1, settings);
      assert data[t].rows[n - 1].date == data[t].date;
      CandidacyIsCausal(s, data[t].rows[n - 1], data, k, settings);
      PrefilterIsCausal(s, data, k, t, n - 1);
    }
  }

  // ----- the sell phase

  lemma {:induction false} HeldDaysIsCausal(data: seq<Day>, k: nat, from: int, to: int)
    requires SortedDays(data) && k <= |data| && (k < |data| ==> to < data[k].date)
    ensures HeldDays(data[..k], from, to) == HeldDays(data, from, to)
  {
    if k < |data| {
      HeldDaysIsCausal(data[..|data| - 1], k, from, to);
      assert data[..|data| - 1][..k] == data[..k];
    } else {
      assert data[..k] == data;
    }
  }

  lemma SellingIsCausal(strategy: Strategy, s: Settings, data: seq<Day>, k: nat, t: nat, p: Trade)
    requires WellFormed(data) && t < k <= |data|
    ensures AfterSellPhase(strategy, s, data[..k], data[t], p) == AfterSellPhase(strategy, s, data, data[t], p)
  {
    hide Evaluate, HeldDays, IntradayExit, SellBlocked, Close;
    HeldDaysIsCausal(data, k, p.buyDate, data[t].date);
    if Sellable(p, data[t]) {
      var row := Lookup(data[t].rows, p.symbol).value;
      forall n: Node
        ensures Evaluate(n, row, data[..k]) <==> Evaluate(n, row, data)
      {
        EvaluationIsCausal(n, row, data, k);
      }
    }
  }

  lemma {:induction false} SellPhaseIsCausal(
    strategy: Strategy, s: Settings, data: seq<Day>, k: nat, t: nat, cash: real, open: seq<Trade>, closed: seq<Trade>)
    requires WellFormed(data) && t < k <= |data|
    ensures SellPhase(strategy, s, data[..k], data[t], cash, open, closed)
            == SellPhase(strategy, s, data, data[t], cash, open, closed)
  {
    hide AfterSellPhase;
    if open != [] {
      SellPhaseIsCausal(strategy, s, data, k, t, cash, open[..|open| - 1], closed);
      SellingIsCausal(strategy, s, data, k, t, open[|open| - 1]);
    }
  }

  // ----- one day

  // Everything but the purchases of a day depends on data up to that day only.
  lemma SellDayIsCausal(strategy: Strategy, s: Settings, data: seq<Day>, k: nat, t: nat, st: State)
    requires WellFormed(data) && t < k <= |data|
    ensures SellDay(strategy, s, data[..k], t, st) == SellDay(strategy, s, data, t, st)
  {
    hide SellPhase;
    SellPhaseIsCausal(strategy, s, data, k, t, st.cash, st.open, st.closed);
  }

  // The purchases of a day also read the next day, and nothing later.
  lemma StepIsCausal(strategy: Strategy, s: Settings, rank: Ranking, data: seq<Day>, k: nat, t: nat, st: State)
    requires WellFormed(data) && t + 1 < k <= |data|
    ensures Step(strategy, s, rank, data[..k], t, st) == Step(strategy, s, rank, data, t, st)
  {
    hide SellDay, Scan, BuyPhase, NextTradeIndex, MarketValue;
    SellDayIsCausal(strategy, s, data, k, t, st);
    ScanIsCausal(strategy, data, k, t, |data[t].rows|, s.scan);
    SortedPrefix(data, k);
    NextTradeIndexIsFirstLater(data, 0, t);
    NextTradeIndexIsFirstLater(data[..k], 0, t);
  }

  lemma {:induction false} RunIsCausal(
    strategy: Strategy, s: Settings, rank: Ranking, data: seq<Day>, k: nat, n: nat)
    requires WellFormed(data) && n < k <= |data|
    ensures Run(strategy, s, rank, data[..k], n) == Run(strategy, s, rank, data, n)
  {
    hide Step;
    if n > 0 {
      RunIsCausal(strategy, s, rank, data, k, n - 1);
      StepIsCausal(strategy, s, rank, data, k, n - 1, Run(strategy, s, rank, data, n - 1));
    }
  }

  lemma StepAppends(strategy: Strategy, s: Settings, rank: Ranking, data: seq<Day>, t: nat, st: State)
    requires t < |data|
    ensures
      var book := SellDay(strategy, s, data, t, st);
      var end := Step(strategy, s, rank, data, t, st);
      end.curve == st.curve + [NextPoint(data[t], book, st)] && end.closed == book.closed
  {
    hide SellDay, BuyDay, NextPoint;
  }

  // The curve and the closed trades after the last day of the cut data.
  lemma RunOnPrefix(strategy: Strategy, s: Settings, rank: Ranking, data: seq<Day>, k: nat)
    requires WellFormed(data) && k <= |data|
    ensures
      var cut, full := Run(strategy, s, rank, data[..k], k), Run(strategy, s, rank, data, k);
      cut.curve == full.curve && cut.closed == full.closed
  {
    hide Step, SellDay, NextPoint;
    if k > 0 {
      RunIsCausal(strategy, s, rank, data, k, k - 1);
      var st := Run(strategy, s, rank, data, k - 1);
      SellDayIsCausal(strategy, s, data, k, k - 1, st);
      StepAppends(strategy, s, rank, data, k - 1, st);
      StepAppends(strategy, s, rank, data[..k], k - 1, st);
    }
  }

  // ----- what later days add

  lemma {:induction false} SellPhaseExtendsClosed(
    strategy: Strategy, s: Settings, data: seq<Day>, d: Day, cash: real, open: seq<Trade>, closed: seq<Trade>)
    requires forall t :: t in open ==> t.sale.None?
    ensures
      var b := SellPhase(strategy, s, data, d, cash, open, closed);
      && |closed| <= |b.closed| && b.closed[..|closed|] == closed
      && (forall i :: |closed| <= i < |b.closed| ==> b.closed[i].sale.Some? && b.closed[i].sale.value.date == d.date)
      && (forall t :: t in b.open ==> t.sale.None?)
  {
    hide Sellable, ExitPrice, SellBlocked, ExitSignal;
    if open != [] {
      SellPhaseExtendsClosed(strategy, s, data, d, cash, open[..|open| - 1], closed);
    }
  }

  lemma {:induction false} PurchasesAreUnsold(s: Settings, today: int, next: Day, b: Buying, candidates: seq<Row>)
    requires forall t :: t in b.open ==> t.sale.None?
    ensures forall t :: t in BuyPhase(s, today, next, b, candidates).open ==> t.sale.None?
  {
    hide PlannedEntryAmount, LotShares, BuyRow, Holds;
    if candidates != [] {
      PurchasesAreUnsold(s, today, next, b, candidates[..|candidates| - 1]);
    }
  }

  lemma StepExtendsClosed(strategy: Strategy, s: Settings, rank: Ranking, data: seq<Day>, t: nat, st: State)
    requires t < |data| && forall x :: x in st.open ==> x.sale.None?
    ensures
      var end := Step(strategy, s, rank, data, t, st);
      && |st.closed| <= |end.closed| && end.closed[..|st.closed|] == st.closed
      && (forall i :: |st.closed| <= i < |end.closed| ==>
            end.closed[i].sale.Some? && end.closed[i].sale.value.date == data[t].date)
      && (forall x :: x in end.open ==> x.sale.None?)
  {
    hide SellPhase, BuyPhase, NextPoint, Scan, MarketValue;
    SellPhaseExtendsClosed(strategy, s, data, data[t], st.cash, st.open, st.closed);
    var book := SellDay(strategy, s, data, t, st);
    var next := NextTradeIndex(data, 0, data[t].date);
    if next.Some? {
      var value := MarketValue(book.open, data[t].rows, st.lastClose);
      PurchasesAreUnsold(s, data[t].date, data[next.value], Buying(book.cash, book.open, 0, value, book.cash + value),
                         rank(DayCandidates(strategy, data, t, s.scan)));
    }
  }

  lemma {:induction false} RunUnsold(strategy: Strategy, s: Settings, rank: Ranking, data: seq<Day>, n: nat)
    requires n <= |data|
    ensures forall x :: x in Run(strategy, s, rank, data, n).open ==> x.sale.None?
  {
    hide Step;
    if n > 0 {
      RunUnsold(strategy, s, rank, data, n - 1);
      StepExtendsClosed(strategy, s, rank, data, n - 1, Run(strategy, s, rank, data, n - 1));
    }
  }

  // The points of the curve carry the dates of the days.
  lemma CurveDates(strategy: Strategy, s: Settings, rank: Ranking, data: seq<Day>, n: nat)
    requires n <= |data|
    ensures |Run(strategy, s, rank, data, n).curve| == n
    ensures forall i :: 0 <= i < n ==> Run(strategy, s, rank, data, n).curve[i].date == data[i].date
  {
    hide Run, Midday;
    Ledger.CurveHasOnePointPerDay(strategy, s, rank, data, n);
  }

  // Later days extend curve and closed trades; what they add is dated later.
  lemma {:induction false} LaterDaysOnlyExtend(
    strategy: Strategy, s: Settings, rank: Ranking, data: seq<Day>, k: nat, n: nat)
    requires SortedDays(data) && k <= n <= |data|
    ensures
      var early, late := Run(strategy, s, rank, data, k), Run(strategy, s, rank, data, n);
      && |early.curve| == k <= |late.curve| && late.curve[..k] == early.curve
      && |early.closed| <= |late.closed| && late.closed[..|early.closed|] == early.closed
      && (forall i :: |early.closed| <= i < |late.closed| ==>
            late.closed[i].sale.Some? && late.closed[i].sale.value.date >= data[k].date)
  {
    hide Run, Step;
    Ledger.CurveHasOnePointPerDay(strategy, s, rank, data, k);
    if k < n {
      LaterDaysOnlyExtend(strategy, s, rank, data, k, n - 1);
      RunUnsold(strategy, s, rank, data, n - 1);
      var before := Run(strategy, s, rank, data, n - 1);
      StepExtendsClosed(strategy, s, rank, data, n - 1, before);
      StepAppends(strategy, s, rank, data, n - 1, before);
      RunStep(strategy, s, rank, data, n);
    }
  }

  // ----- the restricted frame

  lemma {:induction false} PoolRowsStayDistinct(rows: seq<Row>, pool: string -> bool)
    requires DistinctSymbols(rows)
    ensures DistinctSymbols(PoolRows(rows, pool))
    ensures forall r :: r in PoolRows(rows, pool) ==> r in rows
  {
    if rows != [] {
      var rest, last := rows[..|rows| - 1], rows[|rows| - 1];
      PoolRowsStayDistinct(rest, pool);
      forall r | r in rest
        ensures r.symbol != last.symbol
      {
        var i :| 0 <= i < |rest| && rest[i] == r;
        assert rows[i].symbol != last.symbol;
      }
    }
  }

  lemma {:induction false} RestrictedDates(frame: seq<Day>, start: int, end: int, pool: string -> bool, bound: int)
    requires forall i :: 0 <= i < |frame| ==> frame[i].date < bound
    ensures forall d :: d in Restrict(frame, start, end, pool) ==> d.date < bound && d.date <= end
  {
    hide PoolRows;
    if frame != [] {
      RestrictedDates(frame[..|frame| - 1], start, end, pool, bound);
    }
  }

  lemma {:induction false} RestrictStaysWellFormed(frame: seq<Day>, start: int, end: int, pool: string -> bool)
    requires WellFormed(frame)
    ensures WellFormed(Restrict(frame, start, end, pool))
  {
    hide PoolRows, DistinctSymbols;
    if frame != [] {
      var rest, day := frame[..|frame| - 1], frame[|frame| - 1];
      RestrictStaysWellFormed(rest, start, end, pool);
      RestrictedDates(rest, start, end, pool, day.date);
      PoolRowsStayDistinct(day.rows, pool);
      if Restrict(frame, start, end, pool) != Restrict(rest, start, end, pool) {
        AppendedDayStaysWellFormed(Restrict(rest, start, end, pool), Day(day.date, PoolRows(day.rows, pool)));
      }
    }
  }

  lemma AppendedDayStaysWellFormed(days: seq<Day>, day: Day)
    requires WellFormed(days) && DistinctSymbols(day.rows)
    requires forall d :: d in days ==> d.date < day.date
    requires forall r :: r in day.rows ==> r.date == day.date
    ensures WellFormed(days + [day])
  {
    hide DistinctSymbols;
  }

  // Ending earlier keeps a prefix, and every later day lies beyond the earlier end.
  lemma {:induction false} EarlierEndIsPrefix(frame: seq<Day>, start: int, early: int, end: int, pool: string -> bool)
    requires SortedDays(frame) && early <= end
    ensures
      var cut, full := Restrict(frame, start, early, pool), Restrict(frame, start, end, pool);
      && |cut| <= |full| && full[..|cut|] == cut
      && (forall i :: |cut| <= i < |full| ==> full[i].date > early)
  {
    hide PoolRows;
    if frame != [] {
      var rest := frame[..|frame| - 1];
      EarlierEndIsPrefix(rest, start, early, end, pool);
      if frame[|frame| - 1].date <= early {
        WithinEnd(rest, start, early, end, pool);
      }
    }
  }

  lemma {:induction false} WithinEnd(frame: seq<Day>, start: int, early: int, end: int, pool: string -> bool)
    requires early <= end && forall i :: 0 <= i < |frame| ==> frame[i].date <= early
    ensures Restrict(frame, start, early, pool) == Restrict(frame, start, end, pool)
  {
    hide PoolRows;
    if frame != [] {
      WithinEnd(frame[..|frame| - 1], start, early, end, pool);
    }
  }

  lemma {:induction false} CutDataIsPrefix(frame: seq<Day>, k: nat, start: int, end: int, pool: string -> bool)
    requires k <= |frame| && SortedDays(frame)
    ensures
      var cut, full := Restrict(frame[..k], start, end, pool), Restrict(frame, start, end, pool);
      && |cut| <= |full| && full[..|cut|] == cut
      && (forall i :: |cut| <= i < |full| ==> k < |frame| && full[i].date >= frame[k].date)
  {
    hide PoolRows;
    if k < |frame| {
      CutDataIsPrefix(frame[..|frame| - 1], k, start, end, pool);
      assert frame[..|frame| - 1][..k] == frame[..k];
    } else {
      assert frame[..k] == frame;
    }
  }

  // ----- main results

  // A run with an earlier end date yields the same equity curve and the same
  // closed trades up to that date; everything else of the longer run is later.
  lemma EarlierEndYieldsPrefix(
    frame: seq<Day>, strategy: Strategy, s: Settings, rank: Ranking,
    start: int, early: int, end: int, pool: string -> bool)
    requires WellFormed(frame) && early <= end
    ensures
      var short := Backtest(frame, strategy, s, rank, start, early, pool);
      var long := Backtest(frame, strategy, s, rank, start, end, pool);
      && |short.curve| <= |long.curve| && long.curve[..|short.curve|] == short.curve
      && |short.closed| <= |long.closed| && long.closed[..|short.closed|] == short.closed
      && (forall i :: |short.closed| <= i < |long.closed| ==>
            long.closed[i].sale.Some? && long.closed[i].sale.value.date > early)
      && (forall i :: |short.curve| <= i < |long.curve| ==> long.curve[i].date > early)
  {
    hide Run, Restrict;
    var cut, full := Restrict(frame, start, early, pool), Restrict(frame, start, end, pool);
    RestrictStaysWellFormed(frame, start, end, pool);
    EarlierEndIsPrefix(frame, start, early, end, pool);
    RunOnPrefix(strategy, s, rank, full, |cut|);
    LaterDaysOnlyExtend(strategy, s, rank, full, |cut|, |full|);
    CurveDates(strategy, s, rank, full, |full|);
  }

  lemma EnrichedStaysWellFormed(raw: seq<Day>, columns: set<Column>)
    requires WellFormed(raw)
    ensures WellFormed(Enrich(raw, columns))
  {
    hide ColumnAt;
  }

  // Data of later days, including its effect on every indicator column, never
  // reaches an earlier equity point or an earlier sale.
  lemma LaterDataYieldsPrefix(
    raw: seq<Day>, k: nat, columns: set<Column>, strategy: Strategy, s: Settings, rank: Ranking,
    start: int, end: int, pool: string -> bool)
    requires WellFormed(raw) && k <= |raw|
    ensures
      var short := Backtest(Enrich(raw[..k], columns), strategy, s, rank, start, end, pool);
      var long := Backtest(Enrich(raw, columns), strategy, s, rank, start, end, pool);
      && |short.curve| <= |long.curve| && long.curve[..|short.curve|] == short.curve
      && |short.closed| <= |long.closed| && long.closed[..|short.closed|] == short.closed
      && (forall i :: |short.closed| <= i < |long.closed| ==>
            k < |raw| && long.closed[i].sale.Some? && long.closed[i].sale.value.date >= raw[k].date)
      && (forall i :: |short.curve| <= i < |long.curve| ==> k < |raw| && long.curve[i].date >= raw[k].date)
  {
    hide Run, Restrict, Enrich, EnrichDay;
    var frame := Enrich(raw, columns);
    EnrichmentIsCausal(raw, k, columns);
    EnrichedStaysWellFormed(raw, columns);
    var cut, full := Restrict(frame[..k], start, end, pool), Restrict(frame, start, end, pool);
    RestrictStaysWellFormed(frame, start, end, pool);
    CutDataIsPrefix(frame, k, start, end, pool);
    RunOnPrefix(strategy, s, rank, full, |cut|);
    LaterDaysOnlyExtend(strategy, s, rank, full, |cut|, |full|);
    CurveDates(strategy, s, rank, full, |full|);
    if |cut| < |full| {
      assert full[|cut|].date >= frame[k].date;
      EnrichedDate(raw, columns, k);
      var long := Run(strategy, s, rank, full, |full|);
      forall i | |cut| <= i < |long.curve| ensures long.curve[i].date >= raw[k].date {
        assert long.curve[i].date == full[i].date;
      }
    }
  }

  lemma EnrichedDate(raw: seq<Day>, columns: set<Column>, t: nat)
    requires t < |raw|
    ensures Enrich(raw, columns)[t].date == raw[t].date
  {
  }
}
