/**
  The evaluators prefer a precomputed column and otherwise scan the history of
  the symbol. On a frame that holds the whole history the two paths agree for
  the positive-flow count and the prior high and low. For the flow sum they
  agree exactly when the window has no missing flow: a rolling sum is missing
  over a gap while the scanned sum skips it.
 */
module Precomputed {
  import opened Options
  import opened Market
  import opened Conditions
  import opened Indicators

  // Where the histories of row (t, j) lie in its symbol's rows.
  lemma HistoriesArePrefixes(frame: seq<Day>, t: nat, j: nat)
    requires WellFormed(frame) && t < |frame| && j < |frame[t].rows|
    ensures
      var row, p := frame[t].rows[j], Position(frame, t, j);
      && p < |SymbolRows(frame, row.symbol)|
      && HistoryBefore(frame, row) == SymbolRows(frame, row.symbol)[..p]
      && HistoryUpTo(frame, row) == SymbolRows(frame, row.symbol)[..p + 1]
  {
    hide SymbolRows, Before;
    PositionInHistory(frame, t, j);
    BeforeIsPrefix(frame, frame[t].date, t);
    BeforeIsPrefix(frame, frame[t].date + 1, t + 1);
  }

  lemma {:induction false} TotalOfFlows(rows: seq<Row>)
    ensures Total(RawCells(rows, MainNetInflow)) == SumFlows(rows)
  {
    if rows != [] {
      TotalOfFlows(rows[..|rows| - 1]);
      assert RawCells(rows, MainNetInflow)[..|rows| - 1] == RawCells(rows[..|rows| - 1], MainNetInflow);
    }
  }

  lemma {:induction false} TotalOfFlags(rows: seq<Row>)
    ensures Total(PositiveFlags(rows)) == CountPositiveFlows(rows) as real
  {
    if rows != [] {
      TotalOfFlags(rows[..|rows| - 1]);
      assert PositiveFlags(rows)[..|rows| - 1] == PositiveFlags(rows[..|rows| - 1]);
    }
  }

  lemma {:induction false} ExtremeOfPrices(rows: seq<Row>)
    requires rows != []
    ensures Extreme(Highs(rows), true) == MaxHigh(rows)
    ensures Extreme(Lows(rows), false) == MinLow(rows)
  {
    if |rows| > 1 {
      ExtremeOfPrices(rows[..|rows| - 1]);
      assert Highs(rows)[..|rows| - 1] == Highs(rows[..|rows| - 1]);
      assert Lows(rows)[..|rows| - 1] == Lows(rows[..|rows| - 1]);
    }
  }

  // The rows a window ending at row (t, j) covers.
  function WindowRows(frame: seq<Day>, t: nat, j: nat, w: Window): Option<seq<Row>>
    requires t < |frame| && j < |frame[t].rows|
  {
    Tail(HistoryUpTo(frame, frame[t].rows[j]), w)
  }

  predicate HasFlowGap(rows: seq<Row>) {
    exists i :: 0 <= i < |rows| && Cell(rows[i], MainNetInflow).Missing?
  }

  // ----- slices of columns

  lemma FlagsOfSlice(rows: seq<Row>, a: nat, b: nat)
    requires a <= b <= |rows|
    ensures PositiveFlags(rows)[a..b] == PositiveFlags(rows[a..b])
  {
  }

  lemma FlowsOfSlice(rows: seq<Row>, a: nat, b: nat)
    requires a <= b <= |rows|
    ensures RawCells(rows, MainNetInflow)[a..b] == RawCells(rows[a..b], MainNetInflow)
  {
  }

  lemma PricesOfSlice(rows: seq<Row>, a: nat, b: nat)
    requires a <= b <= |rows|
    ensures Highs(rows)[a..b] == Highs(rows[a..b]) && Lows(rows)[a..b] == Lows(rows[a..b])
  {
  }

  // ----- aggregates of one window

  lemma CountOfWindow(window: seq<Row>)
    requires window != []
    ensures AggregateOf(PositiveFlags(window), Sum) == Num(CountPositiveFlows(window) as real)
  {
    TotalOfFlags(window);
  }

  lemma FlowOfWindow(window: seq<Row>)
    requires window != []
    ensures AggregateOf(RawCells(window, MainNetInflow), Sum) ==
            if HasFlowGap(window) then Missing else Num(SumFlows(window))
  {
    var cells := RawCells(window, MainNetInflow);
    TotalOfFlows(window);
    if HasFlowGap(window) {
      var i :| 0 <= i < |window| && Cell(window[i], MainNetInflow).Missing?;
      assert cells[i].Missing?;
    }
  }

  lemma PricesOfWindow(window: seq<Row>)
    requires window != []
    ensures AggregateOf(Highs(window), Max) == Num(MaxHigh(window))
    ensures AggregateOf(Lows(window), Min) == Num(MinLow(window))
  {
    ExtremeOfPrices(window);
  }

  // ----- the columns at one position of a symbol's rows

  lemma CountSeriesAt(rows: seq<Row>, p: nat, w: Window)
    requires p < |rows|
    ensures Series(rows, FlowPositiveCount(w))[p] ==
            if p + 1 < w then Missing else Num(CountPositiveFlows(rows[p + 1 - w..p + 1]) as real)
  {
    hide PositiveFlags, Rolling, AggregateOf, CountPositiveFlows;
    RollingAt(PositiveFlags(rows), p, w, Sum);
    if w <= p + 1 {
      FlagsOfSlice(rows, p + 1 - w, p + 1);
      CountOfWindow(rows[p + 1 - w..p + 1]);
    }
  }

  lemma FlowSeriesAt(rows: seq<Row>, p: nat, w: Window)
    requires p < |rows|
    ensures Series(rows, FlowSum(w))[p] ==
            if p + 1 < w || HasFlowGap(rows[p + 1 - w..p + 1]) then Missing
            else Num(SumFlows(rows[p + 1 - w..p + 1]))
  {
    hide RawCells, Rolling, AggregateOf, SumFlows, HasFlowGap;
    RollingAt(RawCells(rows, MainNetInflow), p, w, Sum);
    if w <= p + 1 {
      FlowsOfSlice(rows, p + 1 - w, p + 1);
      FlowOfWindow(rows[p + 1 - w..p + 1]);
    }
  }

  lemma ShiftedWindow(s: seq<Value>, p: nat, w: Window)
    requires p < |s| && w <= p
    ensures Shift(s)[p + 1 - w..p + 1] == s[p - w..p]
  {
    assert Shift(s) == [Missing] + s[..|s| - 1];
  }

  // The window that reaches back to the first shifted value has a gap.
  lemma FirstWindowIsMissing(s: seq<Value>, p: nat, aggregate: Aggregate)
    requires p < |s|
    ensures AggregateOf(Shift(s)[0..p + 1], aggregate) == Missing
  {
    assert Shift(s)[0..p + 1][0] == Missing;
  }

  lemma PriorSeriesAt(rows: seq<Row>, p: nat, w: Window)
    requires p < |rows|
    ensures Series(rows, PriorHigh(w))[p] == if p < w then Missing else Num(MaxHigh(rows[p - w..p]))
    ensures Series(rows, PriorLow(w))[p] == if p < w then Missing else Num(MinLow(rows[p - w..p]))
  {
    hide Highs, Lows, Rolling, AggregateOf, MaxHigh, MinLow, Shift;
    RollingAt(Shift(Highs(rows)), p, w, Max);
    RollingAt(Shift(Lows(rows)), p, w, Min);
    if w <= p {
      ShiftedWindow(Highs(rows), p, w);
      ShiftedWindow(Lows(rows), p, w);
      PricesOfSlice(rows, p - w, p);
      PricesOfWindow(rows[p - w..p]);
    } else if w == p + 1 {
      FirstWindowIsMissing(Highs(rows), p, Max);
      FirstWindowIsMissing(Lows(rows), p, Min);
    }
  }

  // ----- the columns of the frame against the scans

  // A column value is the symbol's series at the row's position.
  lemma ColumnIsSeriesAtPosition(frame: seq<Day>, t: nat, j: nat, column: Column)
    requires WellFormed(frame) && t < |frame| && j < |frame[t].rows| && column != MarketRisingRatio
    ensures
      var rows, p := SymbolRows(frame, frame[t].rows[j].symbol), Position(frame, t, j);
      p < |rows| && ColumnAt(frame, t, j, column) == Series(rows, column)[p]
  {
    HistoriesArePrefixes(frame, t, j);
  }

  lemma WindowUpToRow(frame: seq<Day>, t: nat, j: nat, w: Window)
    requires WellFormed(frame) && t < |frame| && j < |frame[t].rows|
    ensures
      var row, p := frame[t].rows[j], Position(frame, t, j);
      var rows := SymbolRows(frame, row.symbol);
      && p < |rows|
      && Tail(HistoryUpTo(frame, row), w) == (if p + 1 < w then None else Some(rows[p + 1 - w..p + 1]))
      && Tail(HistoryBefore(frame, row), w) == (if p < w then None else Some(rows[p - w..p]))
  {
    hide SymbolRows, Position, HistoryBefore, HistoryUpTo, WellFormed;
    HistoriesArePrefixes(frame, t, j);
    var rows, p := SymbolRows(frame, frame[t].rows[j].symbol), Position(frame, t, j);
    if w <= p + 1 {
      assert rows[..p + 1][p + 1 - w..] == rows[p + 1 - w..p + 1];
    }
    if w <= p {
      assert rows[..p][p - w..] == rows[p - w..p];
    }
  }

  lemma PositiveCountAgrees(frame: seq<Day>, t: nat, j: nat, w: Window)
    requires WellFormed(frame) && t < |frame| && j < |frame[t].rows|
    ensures ColumnAt(frame, t, j, FlowPositiveCount(w)) == ScannedPositiveCount(frame, frame[t].rows[j], w)
  {
    hide Series, SymbolRows, ColumnAt, Position, HistoryBefore, HistoryUpTo, CountPositiveFlows, WellFormed;
    ColumnIsSeriesAtPosition(frame, t, j, FlowPositiveCount(w));
    WindowUpToRow(frame, t, j, w);
    CountSeriesAt(SymbolRows(frame, frame[t].rows[j].symbol), Position(frame, t, j), w);
  }

  lemma PriorHighAgrees(frame: seq<Day>, t: nat, j: nat, w: Window)
    requires WellFormed(frame) && t < |frame| && j < |frame[t].rows|
    ensures ColumnAt(frame, t, j, PriorHigh(w)) == ScannedPriorHigh(frame, frame[t].rows[j], w)
  {
    hide Series, SymbolRows, ColumnAt, Position, HistoryBefore, HistoryUpTo, MaxHigh, WellFormed;
    ColumnIsSeriesAtPosition(frame, t, j, PriorHigh(w));
    WindowUpToRow(frame, t, j, w);
    PriorSeriesAt(SymbolRows(frame, frame[t].rows[j].symbol), Position(frame, t, j), w);
  }

  lemma PriorLowAgrees(frame: seq<Day>, t: nat, j: nat, w: Window)
    requires WellFormed(frame) && t < |frame| && j < |frame[t].rows|
    ensures ColumnAt(frame, t, j, PriorLow(w)) == ScannedPriorLow(frame, frame[t].rows[j], w)
  {
    hide Series, SymbolRows, ColumnAt, Position, HistoryBefore, HistoryUpTo, MinLow, WellFormed;
    ColumnIsSeriesAtPosition(frame, t, j, PriorLow(w));
    WindowUpToRow(frame, t, j, w);
    PriorSeriesAt(SymbolRows(frame, frame[t].rows[j].symbol), Position(frame, t, j), w);
  }

  lemma FlowSumValue(frame: seq<Day>, t: nat, j: nat, w: Window)
    requires WellFormed(frame) && t < |frame| && j < |frame[t].rows|
    ensures
      var window := WindowRows(frame, t, j, w);
      ColumnAt(frame, t, j, FlowSum(w)) ==
      if window.Some? && !HasFlowGap(window.value) then ScannedFlowSum(frame, frame[t].rows[j], w) else Missing
  {
    hide Series, SymbolRows, ColumnAt, Position, HistoryBefore, HistoryUpTo, SumFlows, WellFormed;
    ColumnIsSeriesAtPosition(frame, t, j, FlowSum(w));
    WindowUpToRow(frame, t, j, w);
    FlowSeriesAt(SymbolRows(frame, frame[t].rows[j].symbol), Position(frame, t, j), w);
  }

  // ----- verdicts

  // The row as the enriched frame holds it, and as a frame without the column holds it.
  function WithColumn(frame: seq<Day>, t: nat, j: nat, column: Column): Row
    requires t < |frame| && j < |frame[t].rows|
  {
    var row := frame[t].rows[j];
    row.(cells := row.cells[column := ColumnAt(frame, t, j, column)])
  }

  // For count, high and low the precomputed verdict is the scanned verdict.
  lemma CountVerdictsAgree(frame: seq<Day>, t: nat, j: nat, w: Window, minCount: int)
    requires WellFormed(frame) && t < |frame| && j < |frame[t].rows|
    requires FlowPositiveCount(w) !in frame[t].rows[j].cells
    ensures Verdict(FlowPositiveCountAtLeast(w, minCount), WithColumn(frame, t, j, FlowPositiveCount(w)), frame)
            <==> Verdict(FlowPositiveCountAtLeast(w, minCount), frame[t].rows[j], frame)
  {
    PositiveCountAgrees(frame, t, j, w);
  }

  // Storing the scanned level in the row's own column does not change the verdict.
  lemma StoredLevelGivesScannedVerdict(row: Row, data: seq<Day>, w: Window)
    requires PriorHigh(w) !in row.cells && PriorLow(w) !in row.cells
    ensures
      var high, low := ScannedPriorHigh(data, row, w), ScannedPriorLow(data, row, w);
      && (Verdict(BreakoutAboveHigh(w), row.(cells := row.cells[PriorHigh(w) := high]), data)
          <==> Verdict(BreakoutAboveHigh(w), row, data))
      && (Verdict(BreakdownBelowLow(w), row.(cells := row.cells[PriorLow(w) := low]), data)
          <==> Verdict(BreakdownBelowLow(w), row, data))
  {
  }

  lemma PriorExtremeVerdictsAgree(frame: seq<Day>, t: nat, j: nat, w: Window)
    requires WellFormed(frame) && t < |frame| && j < |frame[t].rows|
    requires PriorHigh(w) !in frame[t].rows[j].cells && PriorLow(w) !in frame[t].rows[j].cells
    ensures Verdict(BreakoutAboveHigh(w), WithColumn(frame, t, j, PriorHigh(w)), frame)
            <==> Verdict(BreakoutAboveHigh(w), frame[t].rows[j], frame)
    ensures Verdict(BreakdownBelowLow(w), WithColumn(frame, t, j, PriorLow(w)), frame)
            <==> Verdict(BreakdownBelowLow(w), frame[t].rows[j], frame)
  {
    PriorHighAgrees(frame, t, j, w);
    PriorLowAgrees(frame, t, j, w);
    StoredLevelGivesScannedVerdict(frame[t].rows[j], frame, w);
  }

  // The two flow-sum paths agree under every bound, for both directions of the
  // comparison, exactly when a full window has no missing flow.
  lemma FlowSumVerdictsAgreeIffNoGap(frame: seq<Day>, t: nat, j: nat, w: Window)
    requires WellFormed(frame) && t < |frame| && j < |frame[t].rows|
    requires FlowSum(w) !in frame[t].rows[j].cells
    ensures
      var row, enriched := frame[t].rows[j], WithColumn(frame, t, j, FlowSum(w));
      var window := WindowRows(frame, t, j, w);
      var agreeing := window.Some? ==> !HasFlowGap(window.value);
      && ((forall min :: Verdict(FlowSumAtLeast(w, min), enriched, frame)
                         <==> Verdict(FlowSumAtLeast(w, min), row, frame)) <==> agreeing)
      && ((forall max :: Verdict(FlowSumAtMost(w, max), enriched, frame)
                         <==> Verdict(FlowSumAtMost(w, max), row, frame)) <==> agreeing)
  {
    hide SymbolRows;
    FlowSumValue(frame, t, j, w);
    var row, enriched := frame[t].rows[j], WithColumn(frame, t, j, FlowSum(w));
    var window := WindowRows(frame, t, j, w);
    var scanned := ScannedFlowSum(frame, row, w);
    if window.Some? && HasFlowGap(window.value) {
      assert scanned.Num?;
      assert !Verdict(FlowSumAtLeast(w, scanned.value), enriched, frame);
      assert Verdict(FlowSumAtLeast(w, scanned.value), row, frame);
      assert !Verdict(FlowSumAtMost(w, scanned.value), enriched, frame);
      assert Verdict(FlowSumAtMost(w, scanned.value), row, frame);
    }
  }
}
