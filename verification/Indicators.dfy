/**
  The indicator columns as whole-series expressions over one symbol's history:
  shifts, rolling aggregates and exponential means, and the frame they enrich. No
  column looks ahead.
 */
module Indicators {
  import opened Options
  import opened Market
  import opened Conditions

  // ----- series operators

  datatype Aggregate = Sum | Mean | Max | Min

  ghost predicate Complete(values: seq<Value>) {
    forall i :: 0 <= i < |values| ==> values[i].Num?
  }

  function Total(values: seq<Value>): real {
    if values == [] then 0.0
    else Total(values[..|values| - 1]) + (match values[|values| - 1] case Num(v) => v case Missing => 0.0)
  }

  // The largest (or smallest) number of a non-empty window.
  function Extreme(values: seq<Value>, largest: bool): real
    requires values != []
  {
    var last := match values[|values| - 1] case Num(v) => v case Missing => 0.0;
    if |values| == 1 then last
    else
      var m := Extreme(values[..|values| - 1], largest);
      if (largest && last > m) || (!largest && last < m) then last else m
  }

  function AggregateOf(values: seq<Value>, aggregate: Aggregate): Value
    requires values != []
  {
    if exists i :: 0 <= i < |values| && values[i].Missing? then Missing
    else
      match aggregate
      case Sum => Num(Total(values))
      case Mean => Num(Total(values) / |values| as real)
      case Max => Num(Extreme(values, true))
      case Min => Num(Extreme(values, false))
  }

  // A rolling aggregate is missing until the window is full and without gaps.
  function Rolling(s: seq<Value>, window: Window, aggregate: Aggregate): (r: seq<Value>)
    ensures |r| == |s|
  {
    seq(|s|, i requires 0 <= i < |s| =>
      if i + 1 < window then Missing else AggregateOf(s[i + 1 - window..i + 1], aggregate))
  }

  // A rolling value reads its own window only.
  lemma RollingAt(s: seq<Value>, p: nat, window: Window, aggregate: Aggregate)
    requires p < |s|
    ensures Rolling(s, window, aggregate)[p] ==
            if p + 1 < window then Missing else AggregateOf(s[p + 1 - window..p + 1], aggregate)
  {
  }

  function Shift(s: seq<Value>): (r: seq<Value>)
    ensures |r| == |s|
  {
    if s == [] then [] else [Missing] + s[..|s| - 1]
  }

  // A zero denominator has no finite quotient; no finite bound admits it.
  function Quotient(a: Value, b: Value): Value {
    if a.Num? && b.Num? && b.value != 0.0 then Num(a.value / b.value) else Missing
  }

  function PercentChange(s: seq<Value>, window: Window): (r: seq<Value>)
    ensures |r| == |s|
  {
    seq(|s|, i requires 0 <= i < |s| =>
      if i < window then Missing
      else match Quotient(s[i], s[i - window]) case Num(q) => Num(q - 1.0) case Missing => Missing)
  }

  // An exponential mean with adjust=False.
  function ExponentialMean(s: seq<real>, span: Window): (r: seq<real>)
    ensures |r| == |s|
  {
    if s == [] then []
    else
      var earlier := ExponentialMean(s[..|s| - 1], span);
      var alpha := 2.0 / (span as real + 1.0);
      var last := s[|s| - 1];
      earlier + [if earlier == [] then last else (1.0 - alpha) * earlier[|earlier| - 1] + alpha * last]
  }

  // ----- the columns of one symbol

  function Closes(rows: seq<Row>): (r: seq<real>)
    ensures |r| == |rows|
  {
    seq(|rows|, i requires 0 <= i < |rows| => rows[i].close)
  }

  function Boxed(s: seq<real>): (r: seq<Value>)
    ensures |r| == |s|
  {
    seq(|s|, i requires 0 <= i < |s| => Num(s[i]))
  }

  function Volumes(rows: seq<Row>): (r: seq<Value>)
    ensures |r| == |rows|
  {
    seq(|rows|, i requires 0 <= i < |rows| => Num(rows[i].volume))
  }

  function Highs(rows: seq<Row>): (r: seq<Value>)
    ensures |r| == |rows|
  {
    seq(|rows|, i requires 0 <= i < |rows| => Num(rows[i].high))
  }

  function Lows(rows: seq<Row>): (r: seq<Value>)
    ensures |r| == |rows|
  {
    seq(|rows|, i requires 0 <= i < |rows| => Num(rows[i].low))
  }

  function RawCells(rows: seq<Row>, column: Column): (r: seq<Value>)
    ensures |r| == |rows|
  {
    seq(|rows|, i requires 0 <= i < |rows| => Cell(rows[i], column))
  }

  // One for a positive inflow, zero otherwise; a missing inflow is not positive.
  function PositiveFlags(rows: seq<Row>): (r: seq<Value>)
    ensures |r| == |rows|
  {
    seq(|rows|, i requires 0 <= i < |rows| => if IsPositive(Cell(rows[i], MainNetInflow)) then Num(1.0) else Num(0.0))
  }

  predicate IsPositive(v: Value) {
    v.Num? && v.value > 0.0
  }

  function Dif(rows: seq<Row>): (r: seq<real>)
    ensures |r| == |rows|
  {
    var fast, slow := ExponentialMean(Closes(rows), 12), ExponentialMean(Closes(rows), 26);
    seq(|rows|, i requires 0 <= i < |rows| => fast[i] - slow[i])
  }

  function Dea(rows: seq<Row>): (r: seq<real>)
    ensures |r| == |rows|
  {
    ExponentialMean(Dif(rows), 9)
  }

  function Quotients(a: seq<Value>, b: seq<Value>): (r: seq<Value>)
    requires |a| == |b|
    ensures |r| == |a|
  {
    seq(|a|, i requires 0 <= i < |a| => Quotient(a[i], b[i]))
  }

  function Histogram(dif: seq<real>, dea: seq<real>): (r: seq<Value>)
    requires |dif| == |dea|
    ensures |r| == |dif|
  {
    seq(|dif|, i requires 0 <= i < |dif| => Num((dif[i] - dea[i]) * 2.0))
  }

  // The whole column of one symbol. Columns that are not computed are read as they are.
  function Series(rows: seq<Row>, column: Column): (r: seq<Value>)
    ensures |r| == |rows|
  {
    match column
    case MovingAverage(w) => Rolling(Boxed(Closes(rows)), w, Mean)
    case PastReturn(w) => PercentChange(Boxed(Closes(rows)), w)
    case VolumeRatio(w) => Quotients(Volumes(rows), Rolling(Shift(Volumes(rows)), w, Mean))
    case FlowSum(w) => Rolling(RawCells(rows, MainNetInflow), w, Sum)
    case FlowPositiveCount(w) => Rolling(PositiveFlags(rows), w, Sum)
    case PriorHigh(w) => Rolling(Shift(Highs(rows)), w, Max)
    case PriorLow(w) => Rolling(Shift(Lows(rows)), w, Min)
    case MacdDif => Boxed(Dif(rows))
    case MacdDea => Boxed(Dea(rows))
    case MacdHist => Histogram(Dif(rows), Dea(rows))
    case _ => RawCells(rows, column)
  }

  // ----- no column looks ahead

  lemma RollingPrefix(s: seq<Value>, k: nat, window: Window, aggregate: Aggregate)
    requires k <= |s|
    ensures Rolling(s[..k], window, aggregate) == Rolling(s, window, aggregate)[..k]
  {
    forall i | 0 <= i < k
      ensures Rolling(s[..k], window, aggregate)[i] == Rolling(s, window, aggregate)[i]
    {
      if window <= i + 1 {
        assert s[..k][i + 1 - window..i + 1] == s[i + 1 - window..i + 1];
      }
    }
  }

  lemma ShiftPrefix(s: seq<Value>, k: nat)
    requires k <= |s|
    ensures Shift(s[..k]) == Shift(s)[..k]
  {
  }

  lemma {:induction false} ExponentialMeanPrefix(s: seq<real>, k: nat, span: Window)
    requires k <= |s|
    ensures ExponentialMean(s[..k], span) == ExponentialMean(s, span)[..k]
  {
    if k < |s| {
      ExponentialMeanPrefix(s[..|s| - 1], k, span);
      assert s[..|s| - 1][..k] == s[..k];
    } else {
      assert s[..k] == s;
    }
  }

  lemma ClosesPrefix(rows: seq<Row>, k: nat)
    requires k <= |rows|
    ensures Closes(rows[..k]) == Closes(rows)[..k]
    ensures Boxed(Closes(rows[..k])) == Boxed(Closes(rows))[..k]
  {
  }

  lemma DifPrefix(rows: seq<Row>, k: nat)
    requires k <= |rows|
    ensures Dif(rows[..k]) == Dif(rows)[..k]
    ensures Dea(rows[..k]) == Dea(rows)[..k]
  {
    ClosesPrefix(rows, k);
    ExponentialMeanPrefix(Closes(rows), k, 12);
    ExponentialMeanPrefix(Closes(rows), k, 26);
    assert Dif(rows[..k]) == Dif(rows)[..k];
    ExponentialMeanPrefix(Dif(rows), k, 9);
  }

  lemma VolumeRatioPrefix(rows: seq<Row>, k: nat, w: Window)
    requires k <= |rows|
    ensures Series(rows[..k], VolumeRatio(w)) == Series(rows, VolumeRatio(w))[..k]
  {
    assert Volumes(rows[..k]) == Volumes(rows)[..k];
    ShiftPrefix(Volumes(rows), k);
    RollingPrefix(Shift(Volumes(rows)), k, w, Mean);
  }

  lemma FlowColumnsPrefix(rows: seq<Row>, k: nat, w: Window)
    requires k <= |rows|
    ensures Series(rows[..k], FlowSum(w)) == Series(rows, FlowSum(w))[..k]
    ensures Series(rows[..k], FlowPositiveCount(w)) == Series(rows, FlowPositiveCount(w))[..k]
  {
    assert RawCells(rows[..k], MainNetInflow) == RawCells(rows, MainNetInflow)[..k];
    RollingPrefix(RawCells(rows, MainNetInflow), k, w, Sum);
    assert PositiveFlags(rows[..k]) == PositiveFlags(rows)[..k];
    RollingPrefix(PositiveFlags(rows), k, w, Sum);
  }

  lemma PriorColumnsPrefix(rows: seq<Row>, k: nat, w: Window)
    requires k <= |rows|
    ensures Series(rows[..k], PriorHigh(w)) == Series(rows, PriorHigh(w))[..k]
    ensures Series(rows[..k], PriorLow(w)) == Series(rows, PriorLow(w))[..k]
  {
    assert Highs(rows[..k]) == Highs(rows)[..k];
    ShiftPrefix(Highs(rows), k);
    RollingPrefix(Shift(Highs(rows)), k, w, Max);
    assert Lows(rows[..k]) == Lows(rows)[..k];
    ShiftPrefix(Lows(rows), k);
    RollingPrefix(Shift(Lows(rows)), k, w, Min);
  }

  lemma PriceColumnsPrefix(rows: seq<Row>, k: nat, w: Window)
    requires k <= |rows|
    ensures Series(rows[..k], MovingAverage(w)) == Series(rows, MovingAverage(w))[..k]
    ensures Series(rows[..k], PastReturn(w)) == Series(rows, PastReturn(w))[..k]
  {
    ClosesPrefix(rows, k);
    RollingPrefix(Boxed(Closes(rows)), k, w, Mean);
  }

  lemma MacdColumnsPrefix(rows: seq<Row>, k: nat)
    requires k <= |rows|
    ensures Series(rows[..k], MacdDif) == Series(rows, MacdDif)[..k]
    ensures Series(rows[..k], MacdDea) == Series(rows, MacdDea)[..k]
    ensures Series(rows[..k], MacdHist) == Series(rows, MacdHist)[..k]
  {
    DifPrefix(rows, k);
  }

  // Cutting a symbol's history cuts every indicator column and changes no value of it.
  lemma SeriesIsCausal(rows: seq<Row>, k: nat, column: Column)
    requires k <= |rows|
    ensures Series(rows[..k], column) == Series(rows, column)[..k]
  {
    match column {
      case MovingAverage(w) => PriceColumnsPrefix(rows, k, w);
      case PastReturn(w) => PriceColumnsPrefix(rows, k, w);
      case VolumeRatio(w) => VolumeRatioPrefix(rows, k, w);
      case FlowSum(w) => FlowColumnsPrefix(rows, k, w);
      case FlowPositiveCount(w) => FlowColumnsPrefix(rows, k, w);
      case PriorHigh(w) => PriorColumnsPrefix(rows, k, w);
      case PriorLow(w) => PriorColumnsPrefix(rows, k, w);
      case MacdDif => MacdColumnsPrefix(rows, k);
      case MacdDea => MacdColumnsPrefix(rows, k);
      case MacdHist => MacdColumnsPrefix(rows, k);
      case _ =>
    }
  }

  // ----- the enriched frame

  lemma {:induction false} SymbolRowsPrefix(days: seq<Day>, k: nat, symbol: string)
    requires k <= |days|
    ensures |SymbolRows(days[..k], symbol)| <= |SymbolRows(days, symbol)|
    ensures SymbolRows(days[..k], symbol) == SymbolRows(days, symbol)[..|SymbolRows(days[..k], symbol)|]
  {
    if k < |days| {
      SymbolRowsPrefix(days[..|days| - 1], k, symbol);
      assert days[..|days| - 1][..k] == days[..k];
    } else {
      assert days[..k] == days;
    }
  }

  // How many earlier rows the symbol of row (t, j) has.
  function Position(frame: seq<Day>, t: nat, j: nat): nat
    requires t < |frame| && j < |frame[t].rows|
  {
    |SymbolRows(frame[..t], frame[t].rows[j].symbol)|
  }

  lemma PositionInHistory(frame: seq<Day>, t: nat, j: nat)
    requires WellFormed(frame) && t < |frame| && j < |frame[t].rows|
    ensures
      var row, p := frame[t].rows[j], Position(frame, t, j);
      && p < |SymbolRows(frame, row.symbol)|
      && SymbolRows(frame, row.symbol)[..p] == SymbolRows(frame[..t], row.symbol)
      && SymbolRows(frame, row.symbol)[..p + 1] == SymbolRows(frame[..t + 1], row.symbol)
      && SymbolRows(frame, row.symbol)[p] == row
      && SymbolRows(frame[..t + 1], row.symbol) == SymbolRows(frame[..t], row.symbol) + [row]
  {
    var symbol := frame[t].rows[j].symbol;
    SymbolRowsPrefix(frame, t, symbol);
    SymbolRowsPrefix(frame, t + 1, symbol);
    assert frame[..t + 1][..t] == frame[..t];
    LookupFindsRow(frame[t].rows, j);
  }

  // The share of the day's rows that closed above their previous close.
  function RisingCount(frame: seq<Day>, t: nat, n: nat): nat
    requires t < |frame| && n <= |frame[t].rows|
  {
    if n == 0 then 0
    else
      var row := frame[t].rows[n - 1];
      var previous := LastOf(SymbolRows(frame[..t], row.symbol));
      RisingCount(frame, t, n - 1) + if previous.Some? && row.close > previous.value.close then 1 else 0
  }

  function MarketHeat(frame: seq<Day>, t: nat): Value
    requires t < |frame|
  {
    var n := |frame[t].rows|;
    if n == 0 then Num(0.0) else Num(RisingCount(frame, t, n) as real / n as real)
  }

  // The value a column gets at row (t, j) when it is computed over the whole frame.
  function ColumnAt(frame: seq<Day>, t: nat, j: nat, column: Column): Value
    requires t < |frame| && j < |frame[t].rows|
  {
    if column == MarketRisingRatio then MarketHeat(frame, t)
    else
      var series := Series(SymbolRows(frame, frame[t].rows[j].symbol), column);
      var p := Position(frame, t, j);
      if p < |series| then series[p] else Missing
  }

  function EnrichRow(frame: seq<Day>, t: nat, j: nat, columns: set<Column>): Row
    requires t < |frame| && j < |frame[t].rows|
  {
    var row := frame[t].rows[j];
    row.(cells := row.cells + map c | c in columns :: ColumnAt(frame, t, j, c))
  }

  function EnrichDay(frame: seq<Day>, t: nat, columns: set<Column>): Day
    requires t < |frame|
  {
    Day(frame[t].date, seq(|frame[t].rows|, j requires 0 <= j < |frame[t].rows| => EnrichRow(frame, t, j, columns)))
  }

  // The whole frame with the given indicator columns added.
  function Enrich(frame: seq<Day>, columns: set<Column>): (r: seq<Day>)
    ensures |r| == |frame|
  {
    seq(|frame|, t requires 0 <= t < |frame| => EnrichDay(frame, t, columns))
  }

  lemma {:induction false} RisingCountPrefix(frame: seq<Day>, k: nat, t: nat, n: nat)
    requires t < k <= |frame| && n <= |frame[t].rows|
    ensures RisingCount(frame[..k], t, n) == RisingCount(frame, t, n)
  {
    if n > 0 {
      RisingCountPrefix(frame, k, t, n - 1);
      assert frame[..k][..t] == frame[..t];
    }
  }

  lemma ColumnIsCausal(frame: seq<Day>, k: nat, t: nat, j: nat, column: Column)
    requires WellFormed(frame) && t < k <= |frame| && j < |frame[t].rows|
    ensures ColumnAt(frame[..k], t, j, column) == ColumnAt(frame, t, j, column)
  {
    hide Series, SymbolRows;
    assert frame[..k][..t] == frame[..t];
    if column == MarketRisingRatio {
      RisingCountPrefix(frame, k, t, |frame[t].rows|);
    } else {
      var symbol := frame[t].rows[j].symbol;
      var rows := SymbolRows(frame, symbol);
      var cut := SymbolRows(frame[..k], symbol);
      SymbolRowsPrefix(frame, k, symbol);
      SeriesIsCausal(rows, |cut|, column);
      PositionInHistory(frame, t, j);
      SortedPrefix(frame, k);
      PositionInHistory(frame[..k], t, j);
    }
  }

  // Adding indicator columns and cutting off the future commute.
  lemma EnrichmentIsCausal(frame: seq<Day>, k: nat, columns: set<Column>)
    requires WellFormed(frame) && k <= |frame|
    ensures Enrich(frame[..k], columns) == Enrich(frame, columns)[..k]
  {
    forall t | 0 <= t < k
      ensures EnrichDay(frame[..k], t, columns) == EnrichDay(frame, t, columns)
    {
      forall j | 0 <= j < |frame[t].rows|
        ensures EnrichRow(frame[..k], t, j, columns) == EnrichRow(frame, t, j, columns)
      {
        forall c | c in columns
          ensures ColumnAt(frame[..k], t, j, c) == ColumnAt(frame, t, j, c)
        {
          ColumnIsCausal(frame, k, t, j, c);
        }
      }
    }
  }
}
