/**
  What conditions say, in dates and in the fields of rows: which earlier row a
  lagged node is judged on, what each of the seventeen verdicts asks of the
  row's own cells or of the rows before it, and when a mask is the verdict.
 */
module ConditionLaws {
  import opened Options
  import opened Market
  import opened Conditions
  import opened Prefilter

  // ----- the rows of a symbol, by date

  ghost predicate HasRow(d: Day, symbol: string) {
    exists r :: r in d.rows && r.symbol == symbol
  }

  // The days after day i and before a date on which the symbol has a row.
  ghost function DaysBetween(data: seq<Day>, symbol: string, i: int, until: int): set<int> {
    set k | 0 <= k < |data| && i < k && data[k].date < until && HasRow(data[k], symbol)
  }

  // The row r of the symbol is on a day before the date with exactly n - 1 rows of
  // the symbol in between.
  ghost predicate NthLatest(data: seq<Day>, symbol: string, until: int, n: nat, r: Row) {
    exists i :: 0 <= i < |data| && NthLatestOn(data, symbol, until, n, r, i)
  }

  ghost predicate NthLatestOn(data: seq<Day>, symbol: string, until: int, n: nat, r: Row, i: nat)
    requires i < |data|
  {
    && data[i].date < until
    && r in data[i].rows && r.symbol == symbol
    && |DaysBetween(data, symbol, i, until)| == n - 1
  }

  // How many days after day i have a row of the symbol.
  function LaterRows(days: seq<Day>, symbol: string, i: nat): nat
    requires i < |days|
  {
    if i == |days| - 1 then 0
    else
      LaterRows(days[..|days| - 1], symbol, i)
      + if Lookup(days[|days| - 1].rows, symbol).Some? then 1 else 0
  }

  // The row of day i stands as many places before the end as later days have rows.
  lemma {:induction false} RowFromTheEnd(days: seq<Day>, symbol: string, i: nat)
    requires i < |days| && Lookup(days[i].rows, symbol).Some?
    ensures
      var h, later := SymbolRows(days, symbol), LaterRows(days, symbol, i);
      later < |h| && h[|h| - 1 - later] == Lookup(days[i].rows, symbol).value
  {
    if i < |days| - 1 {
      RowFromTheEnd(days[..|days| - 1], symbol, i);
    }
  }

  lemma {:induction false} PlaceHasADay(days: seq<Day>, symbol: string, n: nat) returns (i: nat)
    requires 1 <= n <= |SymbolRows(days, symbol)|
    ensures i < |days| && Lookup(days[i].rows, symbol).Some? && LaterRows(days, symbol, i) == n - 1
  {
    var last := |days| - 1;
    if Lookup(days[last].rows, symbol).Some? {
      if n == 1 {
        i := last;
      } else {
        i := PlaceHasADay(days[..last], symbol, n - 1);
      }
    } else {
      i := PlaceHasADay(days[..last], symbol, n);
    }
  }

  lemma LookupIffHasRow(d: Day, symbol: string)
    ensures Lookup(d.rows, symbol).Some? <==> HasRow(d, symbol)
  {
    if HasRow(d, symbol) {
      var r :| r in d.rows && r.symbol == symbol;
      var j :| 0 <= j < |d.rows| && d.rows[j] == r;
    }
  }

  lemma {:induction false} LaterRowsAreCounted(days: seq<Day>, symbol: string, i: nat, until: int)
    requires i < |days| && forall k :: 0 <= k < |days| ==> days[k].date < until
    ensures |DaysBetween(days, symbol, i, until)| == LaterRows(days, symbol, i)
  {
    var last := |days| - 1;
    if i == last {
      assert DaysBetween(days, symbol, i, until) == {};
    } else {
      hide DaysBetween;
      LaterRowsAreCounted(days[..last], symbol, i, until);
      LookupIffHasRow(days[last], symbol);
      LastDayBetween(days, symbol, i, until);
    }
  }

  lemma LastDayBetween(days: seq<Day>, symbol: string, i: nat, until: int)
    requires i < |days| - 1 && days[|days| - 1].date < until
    ensures
      var last := |days| - 1;
      var rest := DaysBetween(days[..last], symbol, i, until);
      last !in rest
      && DaysBetween(days, symbol, i, until) == if HasRow(days[last], symbol) then rest + {last} else rest
  {
    hide HasRow;
    var last := |days| - 1;
    forall k | 0 <= k < last ensures days[..last][k] == days[k] {
    }
  }

  // The days before a date, as a prefix of a sorted frame.
  lemma EarlierDays(data: seq<Day>, until: int) returns (m: nat)
    requires WellFormed(data)
    ensures m <= |data| && Before(data, until) == data[..m] && WellFormed(data[..m])
    ensures forall k :: 0 <= k < m ==> data[k].date < until
    ensures forall k :: m <= k < |data| ==> data[k].date >= until
  {
    m := CountBefore(data, |data|, until);
    BeforeIsPrefix(data, until, m);
    SortedPrefix(data, m);
  }

  lemma DaysBetweenOfPrefix(data: seq<Day>, symbol: string, i: nat, until: int, m: nat)
    requires i < m <= |data|
    requires forall k :: 0 <= k < m ==> data[k].date < until
    requires forall k :: m <= k < |data| ==> data[k].date >= until
    ensures |DaysBetween(data, symbol, i, until)| == LaterRows(data[..m], symbol, i)
  {
    LaterRowsAreCounted(data[..m], symbol, i, until);
    assert DaysBetween(data, symbol, i, until) == DaysBetween(data[..m], symbol, i, until);
  }

  lemma TheRow(d: Day, r: Row)
    requires DistinctSymbols(d.rows) && r in d.rows
    ensures Lookup(d.rows, r.symbol) == Some(r)
  {
    var j :| 0 <= j < |d.rows| && d.rows[j] == r;
    LookupFindsRow(d.rows, j);
  }

  lemma PlaceIsNthLatest(data: seq<Day>, symbol: string, until: int, n: nat)
    requires WellFormed(data) && 1 <= n <= |SymbolRows(Before(data, until), symbol)|
    ensures
      var h := SymbolRows(Before(data, until), symbol);
      NthLatest(data, symbol, until, n, h[|h| - n])
  {
    hide SymbolRows, Before, LaterRows, DaysBetween;
    var m := EarlierDays(data, until);
    var i := PlaceHasADay(data[..m], symbol, n);
    RowFromTheEnd(data[..m], symbol, i);
    DaysBetweenOfPrefix(data, symbol, i, until, m);
    var h := SymbolRows(data[..m], symbol);
    assert NthLatestOn(data, symbol, until, n, h[|h| - n], i);
  }

  // The n-th place from the end of the rows before a date, told by dates alone.
  lemma NthLatestIsPlace(data: seq<Day>, symbol: string, until: int, n: nat, r: Row)
    requires WellFormed(data) && n >= 1
    ensures
      var h := SymbolRows(Before(data, until), symbol);
      NthLatest(data, symbol, until, n, r) <==> n <= |h| && h[|h| - n] == r
  {
    hide SymbolRows, Before, LaterRows, DaysBetween;
    var m := EarlierDays(data, until);
    var h := SymbolRows(data[..m], symbol);
    if NthLatest(data, symbol, until, n, r) {
      var i :| 0 <= i < |data| && NthLatestOn(data, symbol, until, n, r, i);
      TheRow(data[i], r);
      assert i < m;
      DaysBetweenOfPrefix(data, symbol, i, until, m);
      RowFromTheEnd(data[..m], symbol, i);
    }
    if n <= |h| {
      PlaceIsNthLatest(data, symbol, until, n);
    }
  }

  // ----- lag

  // A lagged node passes exactly when there is a row of the symbol, dated earlier,
  // with exactly lag - 1 rows of the symbol dated strictly between, on which the
  // node without lag passes.
  lemma LaggedNodeIsJudgedEarlier(node: Node, row: Row, data: seq<Day>)
    requires WellFormed(data) && node.enabled && node.lag > 0
    ensures Evaluate(node, row, data) <==>
            exists r :: NthLatest(data, row.symbol, row.date, node.lag, r) && Evaluate(node.(lag := 0), r, data)
  {
    hide SymbolRows, Before, Verdict, NthLatest;
    var h := HistoryBefore(data, row);
    if |h| >= node.lag {
      NthLatestIsPlace(data, row.symbol, row.date, node.lag, h[|h| - node.lag]);
    }
    forall r | NthLatest(data, row.symbol, row.date, node.lag, r)
      ensures node.lag <= |h| && h[|h| - node.lag] == r
    {
      NthLatestIsPlace(data, row.symbol, row.date, node.lag, r);
    }
  }

  // ----- windows of rows

  // The row and the w - 1 rows of its symbol before it, oldest first.
  ghost predicate IsWindowTo(data: seq<Day>, row: Row, w: nat, rows: seq<Row>) {
    IsWindow(data, row.symbol, row.date + 1, w, rows)
  }

  // The last w rows of the symbol before a date, oldest first.
  ghost predicate IsWindow(data: seq<Day>, symbol: string, until: int, w: nat, rows: seq<Row>) {
    |rows| == w && forall k :: 0 <= k < w ==> NthLatest(data, symbol, until, w - k, rows[k])
  }

  lemma TailIsWindow(data: seq<Day>, symbol: string, until: int, w: Window, rows: seq<Row>)
    requires WellFormed(data)
    ensures Tail(SymbolRows(Before(data, until), symbol), w) == Some(rows) <==> IsWindow(data, symbol, until, w, rows)
  {
    hide SymbolRows, Before, NthLatest;
    var h := SymbolRows(Before(data, until), symbol);
    if IsWindow(data, symbol, until, w, rows) {
      NthLatestIsPlace(data, symbol, until, w, rows[0]);
      forall k | 0 <= k < w ensures rows[k] == h[|h| - w + k] {
        NthLatestIsPlace(data, symbol, until, w - k, rows[k]);
      }
      assert rows == h[|h| - w..];
    }
    if |h| >= w && rows == h[|h| - w..] {
      forall k | 0 <= k < w ensures NthLatest(data, symbol, until, w - k, rows[k]) {
        NthLatestIsPlace(data, symbol, until, w - k, rows[k]);
      }
    }
  }

  function FlowOf(row: Row): real {
    if MainNetInflow in row.cells && row.cells[MainNetInflow].Num? then row.cells[MainNetInflow].value else 0.0
  }

  function FlowTotal(rows: seq<Row>): real {
    if rows == [] then 0.0 else FlowOf(rows[0]) + FlowTotal(rows[1..])
  }

  ghost function PositiveDays(rows: seq<Row>): set<int> {
    set k | 0 <= k < |rows| && FlowOf(rows[k]) > 0.0
  }

  lemma {:induction false} FlowTotalOfAppend(rows: seq<Row>, r: Row)
    ensures FlowTotal(rows + [r]) == FlowTotal(rows) + FlowOf(r)
  {
    if rows == [] {
      assert (rows + [r])[1..] == [];
    } else {
      assert (rows + [r])[1..] == rows[1..] + [r];
      FlowTotalOfAppend(rows[1..], r);
    }
  }

  lemma {:induction false} SumIsFlowTotal(rows: seq<Row>)
    ensures SumFlows(rows) == FlowTotal(rows)
  {
    if rows != [] {
      SumIsFlowTotal(rows[..|rows| - 1]);
      FlowTotalOfAppend(rows[..|rows| - 1], rows[|rows| - 1]);
      assert rows[..|rows| - 1] + [rows[|rows| - 1]] == rows;
    }
  }

  lemma {:induction false} CountIsPositiveDays(rows: seq<Row>)
    ensures CountPositiveFlows(rows) == |PositiveDays(rows)|
  {
    if rows == [] {
      assert PositiveDays(rows) == {};
    } else {
      var last := |rows| - 1;
      var rest := rows[..last];
      CountIsPositiveDays(rest);
      assert forall k :: 0 <= k < last ==> rest[k] == rows[k];
      if FlowOf(rows[last]) > 0.0 {
        assert PositiveDays(rows) == PositiveDays(rest) + {last};
      } else {
        assert PositiveDays(rows) == PositiveDays(rest);
      }
    }
  }

  // A price is above the highest high exactly when it is above every high.
  lemma {:induction false} AboveAllHighs(rows: seq<Row>, price: real)
    requires rows != []
    ensures price > MaxHigh(rows) <==> forall k :: 0 <= k < |rows| ==> price > rows[k].high
  {
    if |rows| > 1 {
      var rest := rows[..|rows| - 1];
      AboveAllHighs(rest, price);
      assert forall k :: 0 <= k < |rest| ==> rest[k] == rows[k];
    }
  }

  lemma {:induction false} BelowAllLows(rows: seq<Row>, price: real)
    requires rows != []
    ensures price < MinLow(rows) <==> forall k :: 0 <= k < |rows| ==> price < rows[k].low
  {
    if |rows| > 1 {
      var rest := rows[..|rows| - 1];
      BelowAllLows(rest, price);
      assert forall k :: 0 <= k < |rest| ==> rest[k] == rows[k];
    }
  }

  // ----- verdicts on the row's own cells

  predicate Holds(row: Row, column: Column) {
    column in row.cells && row.cells[column].Num?
  }

  function NumberOf(row: Row, column: Column): real
    requires Holds(row, column)
  {
    row.cells[column].value
  }

  // The turnover as a share: a number above one is a percentage.
  function TurnoverShare(v: real): real {
    if v > 1.0 then v / 100.0 else v
  }

  predicate UsesHistory(c: Condition, row: Row) {
    match c
    case FlowSumAtLeast(w, _) => FlowSum(w) !in row.cells
    case FlowSumAtMost(w, _) => FlowSum(w) !in row.cells
    case FlowPositiveCountAtLeast(w, _) => FlowPositiveCount(w) !in row.cells
    case BreakoutAboveHigh(w) => PriorHigh(w) !in row.cells
    case BreakdownBelowLow(w) => PriorLow(w) !in row.cells
    case MacdDeadCross => true
    case _ => false
  }

  // What a condition asks of the row itself.
  predicate OwnVerdict(c: Condition, row: Row)
    requires !UsesHistory(c, row)
  {
    match c
    case MarketCapBetween(min, max) => Holds(row, FloatMarketCap) && min <= NumberOf(row, FloatMarketCap) <= max
    case FlowSumAtLeast(w, min) => Holds(row, FlowSum(w)) && NumberOf(row, FlowSum(w)) >= min
    case FlowSumAtMost(w, max) => Holds(row, FlowSum(w)) && NumberOf(row, FlowSum(w)) <= max
    case FlowTodayAtLeast(min) => Holds(row, MainNetInflow) && NumberOf(row, MainNetInflow) >= min
    case FlowTodayAtMost(max) => Holds(row, MainNetInflow) && NumberOf(row, MainNetInflow) <= max
    case FlowPositiveCountAtLeast(w, n) =>
      Holds(row, FlowPositiveCount(w)) && NumberOf(row, FlowPositiveCount(w)) >= n as real
    case MarketRisingAtLeast(min) => Holds(row, MarketRisingRatio) && NumberOf(row, MarketRisingRatio) >= min
    case CloseAboveMa(w) => Holds(row, MovingAverage(w)) && row.close > NumberOf(row, MovingAverage(w))
    case CloseBelowMa(w) => Holds(row, MovingAverage(w)) && row.close < NumberOf(row, MovingAverage(w))
    case TurnoverBetween(min, max) =>
      Holds(row, TurnoverRate) && min <= TurnoverShare(NumberOf(row, TurnoverRate)) <= max
    case PastReturnAtMost(w, max) => Holds(row, PastReturn(w)) && NumberOf(row, PastReturn(w)) <= max
    case PastReturnBetween(w, min, max) => Holds(row, PastReturn(w)) && min <= NumberOf(row, PastReturn(w)) <= max
    case VolumeRatioBetween(w, min, max) => Holds(row, VolumeRatio(w)) && min <= NumberOf(row, VolumeRatio(w)) <= max
    case MacdHistogramAtLeast(min) => Holds(row, MacdHist) && NumberOf(row, MacdHist) >= min
    case BreakoutAboveHigh(w) => Holds(row, PriorHigh(w)) && row.close > NumberOf(row, PriorHigh(w))
    case BreakdownBelowLow(w) => Holds(row, PriorLow(w)) && row.close < NumberOf(row, PriorLow(w))
  }

  // Wherever the row holds what a condition needs, the verdict is about its cells
  // alone: a bound is met by numbers only, and the close is compared strictly.
  lemma VerdictOnOwnCells(c: Condition, row: Row, data: seq<Day>)
    requires !UsesHistory(c, row)
    ensures Verdict(c, row, data) <==> OwnVerdict(c, row)
  {
    hide SymbolRows, Before, SumFlows, CountPositiveFlows, MaxHigh, MinLow;
  }

  // ----- verdicts on the rows before

  // What the other conditions ask of the symbol's rows up to the row's date, or
  // before it: a full window, or for the cross the latest earlier row.
  ghost predicate HistoryVerdict(c: Condition, row: Row, data: seq<Day>)
    requires UsesHistory(c, row)
  {
    match c
    case FlowSumAtLeast(w, min) => exists rows :: IsWindowTo(data, row, w, rows) && FlowTotal(rows) >= min
    case FlowSumAtMost(w, max) => exists rows :: IsWindowTo(data, row, w, rows) && FlowTotal(rows) <= max
    case FlowPositiveCountAtLeast(w, n) => exists rows :: IsWindowTo(data, row, w, rows) && |PositiveDays(rows)| >= n
    case BreakoutAboveHigh(w) =>
      exists rows: seq<Row> :: IsWindow(data, row.symbol, row.date, w, rows)
                               && forall k :: 0 <= k < |rows| ==> row.close > rows[k].high
    case BreakdownBelowLow(w) =>
      exists rows: seq<Row> :: IsWindow(data, row.symbol, row.date, w, rows)
                               && forall k :: 0 <= k < |rows| ==> row.close < rows[k].low
    case MacdDeadCross =>
      && Holds(row, MacdDif) && Holds(row, MacdDea) && NumberOf(row, MacdDif) < NumberOf(row, MacdDea)
      && exists r :: NthLatest(data, row.symbol, row.date, 1, r)
                     && Holds(r, MacdDif) && Holds(r, MacdDea) && NumberOf(r, MacdDif) >= NumberOf(r, MacdDea)
  }

  lemma WindowUpTo(data: seq<Day>, row: Row, w: Window)
    requires WellFormed(data)
    ensures forall rows :: Tail(HistoryUpTo(data, row), w) == Some(rows) <==> IsWindowTo(data, row, w, rows)
  {
    hide SymbolRows, Before, Tail, IsWindow;
    forall rows ensures Tail(HistoryUpTo(data, row), w) == Some(rows) <==> IsWindowTo(data, row, w, rows) {
      TailIsWindow(data, row.symbol, row.date + 1, w, rows);
    }
  }

  lemma WindowBefore(data: seq<Day>, row: Row, w: Window)
    requires WellFormed(data)
    ensures forall rows ::
      Tail(HistoryBefore(data, row), w) == Some(rows) <==> IsWindow(data, row.symbol, row.date, w, rows)
  {
    hide SymbolRows, Before, Tail, IsWindow;
    forall rows
      ensures Tail(HistoryBefore(data, row), w) == Some(rows) <==> IsWindow(data, row.symbol, row.date, w, rows)
    {
      TailIsWindow(data, row.symbol, row.date, w, rows);
    }
  }

  lemma TailLength(rows: seq<Row>, w: Window)
    ensures Tail(rows, w).Some? ==> |Tail(rows, w).value| == w
  {
  }

  lemma FlowVerdictsOnHistory(c: Condition, row: Row, data: seq<Day>)
    requires WellFormed(data) && UsesHistory(c, row)
    requires c.FlowSumAtLeast? || c.FlowSumAtMost? || c.FlowPositiveCountAtLeast?
    ensures Verdict(c, row, data) <==> HistoryVerdict(c, row, data)
  {
    hide SymbolRows, Before, SumFlows, CountPositiveFlows, Tail, IsWindowTo, HistoryUpTo, FlowTotal, PositiveDays;
    WindowUpTo(data, row, c.window);
    var recent := Tail(HistoryUpTo(data, row), c.window);
    if recent.Some? {
      assert IsWindowTo(data, row, c.window, recent.value);
      SumIsFlowTotal(recent.value);
      CountIsPositiveDays(recent.value);
    }
    forall rows | IsWindowTo(data, row, c.window, rows) ensures recent == Some(rows) {
    }
  }

  lemma LevelVerdictsOnHistory(c: Condition, row: Row, data: seq<Day>)
    requires WellFormed(data) && UsesHistory(c, row)
    requires c.BreakoutAboveHigh? || c.BreakdownBelowLow?
    ensures Verdict(c, row, data) <==> HistoryVerdict(c, row, data)
  {
    hide SymbolRows, Before, MaxHigh, MinLow, Tail, IsWindow, HistoryBefore;
    WindowBefore(data, row, c.window);
    var recent := Tail(HistoryBefore(data, row), c.window);
    TailLength(HistoryBefore(data, row), c.window);
    if recent.Some? {
      assert IsWindow(data, row.symbol, row.date, c.window, recent.value);
      AboveAllHighs(recent.value, row.close);
      BelowAllLows(recent.value, row.close);
    }
  }

  lemma CrossOnHistory(row: Row, data: seq<Day>)
    requires WellFormed(data)
    ensures Verdict(MacdDeadCross, row, data) <==> HistoryVerdict(MacdDeadCross, row, data)
  {
    hide SymbolRows, Before, NthLatest;
    var h := HistoryBefore(data, row);
    if h != [] {
      NthLatestIsPlace(data, row.symbol, row.date, 1, h[|h| - 1]);
    }
    forall r | NthLatest(data, row.symbol, row.date, 1, r) ensures h != [] && h[|h| - 1] == r {
      NthLatestIsPlace(data, row.symbol, row.date, 1, r);
    }
  }

  // Where a condition scans the history, its verdict is about the rows of the
  // symbol told by dates: the window up to the row, the window before it, or the
  // latest earlier row.
  lemma VerdictOnHistory(c: Condition, row: Row, data: seq<Day>)
    requires WellFormed(data) && UsesHistory(c, row)
    ensures Verdict(c, row, data) <==> HistoryVerdict(c, row, data)
  {
    hide Verdict, HistoryVerdict;
    if c.MacdDeadCross? {
      CrossOnHistory(row, data);
    } else if c.BreakoutAboveHigh? || c.BreakdownBelowLow? {
      LevelVerdictsOnHistory(c, row, data);
    } else {
      FlowVerdictsOnHistory(c, row, data);
    }
  }

  // ----- masks

  // The mask turns away every row the evaluator turns away, and no other, once
  // the row has the columns the condition could precompute.
  lemma MaskIsVerdict(c: Condition, data: seq<Day>, t: nat, j: nat)
    requires WellFormed(data) && t < |data| && j < |data[t].rows|
    requires c.TurnoverBetween? ==> PlainTurnover(data[t].rows[j])
    requires c != MacdDeadCross ==> !UsesHistory(c, data[t].rows[j])
    ensures ConditionMask(c, data, t, j) <==> Verdict(c, data[t].rows[j], data)
  {
    hide SymbolRows, Before, SumFlows, CountPositiveFlows, MaxHigh, MinLow;
    if c.MacdDeadCross? {
      ShiftReadsPreviousTradingRow(data, t, j);
    }
  }

  // ----- scores

  function PassingWeight(nodes: seq<Node>, row: Row, data: seq<Day>): real {
    if nodes == [] then 0.0
    else (if Evaluate(nodes[0], row, data) then nodes[0].weight else 0.0) + PassingWeight(nodes[1..], row, data)
  }

  lemma {:induction false} PassingWeightOfAppend(nodes: seq<Node>, n: Node, row: Row, data: seq<Day>)
    ensures PassingWeight(nodes + [n], row, data)
         == PassingWeight(nodes, row, data) + if Evaluate(n, row, data) then n.weight else 0.0
  {
    hide Evaluate;
    if nodes == [] {
      assert (nodes + [n])[1..] == [];
    } else {
      assert (nodes + [n])[1..] == nodes[1..] + [n];
      PassingWeightOfAppend(nodes[1..], n, row, data);
    }
  }

  // The score of a group is the weight of its passing nodes.
  lemma {:induction false} ScoreIsPassingWeight(nodes: seq<Node>, row: Row, data: seq<Day>)
    ensures ScoreOf(nodes, row, data) == PassingWeight(nodes, row, data)
  {
    hide Evaluate;
    if nodes != [] {
      var rest, last := nodes[..|nodes| - 1], nodes[|nodes| - 1];
      ScoreIsPassingWeight(rest, row, data);
      PassingWeightOfAppend(rest, last, row, data);
      assert rest + [last] == nodes;
    }
  }
}
