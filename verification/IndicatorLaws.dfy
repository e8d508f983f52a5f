/**
  What the indicator columns hold: closed forms of the exponential means and of
  MACD, and the equations that a moving average, a return, a volume ratio, a flow
  column, a prior level and the market heat satisfy.
 */
module IndicatorLaws {
  import opened Options
  import opened Market
  import opened Conditions
  import opened Indicators
  import opened ConditionLaws
  import Precomputed

  // ----- exponential means

  function Power(x: real, n: nat): real {
    if n == 0 then 1.0 else x * Power(x, n - 1)
  }

  // The terms 1 to i of the mean at p: a * (1 - a)^(p - m) * s[m].
  function Terms(s: seq<real>, a: real, p: nat, i: nat): real
    requires i <= p < |s|
  {
    if i == 0 then 0.0 else Terms(s, a, p, i - 1) + a * Power(1.0 - a, p - i) * s[i]
  }

  function Smoothing(span: Window): real {
    2.0 / (span as real + 1.0)
  }

  // The mean in closed form: the first value weighs (1 - a)^p, every later value
  // a * (1 - a)^(p - m).
  function WeightedMean(s: seq<real>, span: Window, p: nat): real
    requires p < |s|
  {
    Power(1.0 - Smoothing(span), p) * s[0] + Terms(s, Smoothing(span), p, p)
  }

  lemma {:induction false} MeanStep(s: seq<real>, span: Window, p: nat)
    requires p < |s|
    ensures ExponentialMean(s, span)[p] ==
            if p == 0 then s[0]
            else (1.0 - Smoothing(span)) * ExponentialMean(s, span)[p - 1] + Smoothing(span) * s[p]
  {
    var cut := s[..p + 1];
    ExponentialMeanPrefix(s, p + 1, span);
    if p > 0 {
      ExponentialMeanPrefix(s, p, span);
      assert cut[..p] == s[..p];
    } else {
      assert cut[..0] == [];
    }
  }

  lemma Regroup(x: real, a: real, power: real, v: real)
    ensures a * (x * power) * v == x * (a * power * v)
  {
    assert a * (x * power) == x * (a * power);
  }

  // One day later every term weighs (1 - a) times what it did.
  lemma {:induction false} TermsFade(s: seq<real>, a: real, p: nat, i: nat)
    requires i <= p && p + 1 < |s|
    ensures Terms(s, a, p + 1, i) == (1.0 - a) * Terms(s, a, p, i)
  {
    if i > 0 {
      TermsFade(s, a, p, i - 1);
      Regroup(1.0 - a, a, Power(1.0 - a, p - i), s[i]);
      Distribute(1.0 - a, Terms(s, a, p, i - 1), a * Power(1.0 - a, p - i) * s[i]);
    }
  }

  lemma Distribute(x: real, u: real, v: real)
    ensures x * (u + v) == x * u + x * v
  {
  }

  lemma FirstWeightFades(x: real, p: nat, v: real)
    ensures Power(x, p + 1) * v == x * (Power(x, p) * v)
  {
    var power := Power(x, p);
    assert Power(x, p + 1) == x * power;
    assert x * power * v == x * (power * v);
  }

  // The recursive mean of the source equals the closed form.
  lemma {:induction false} MeanInClosedForm(s: seq<real>, span: Window, p: nat)
    requires p < |s|
    ensures ExponentialMean(s, span)[p] == WeightedMean(s, span, p)
  {
    var a := Smoothing(span);
    hide Smoothing, ExponentialMean;
    MeanStep(s, span, p);
    if p == 0 {
      assert Power(1.0 - a, 0) * s[0] == s[0];
    } else {
      MeanInClosedForm(s, span, p - 1);
      MeanFades(s, a, p);
    }
  }

  lemma MeanFades(s: seq<real>, a: real, p: nat)
    requires 0 < p < |s|
    ensures Power(1.0 - a, p) * s[0] + Terms(s, a, p, p)
         == (1.0 - a) * (Power(1.0 - a, p - 1) * s[0] + Terms(s, a, p - 1, p - 1)) + a * s[p]
  {
    LastTerm(s, a, p);
    FirstWeightFades(1.0 - a, p - 1, s[0]);
    TermsFade(s, a, p - 1, p - 1);
    hide Power, Terms;
    Distribute(1.0 - a, Power(1.0 - a, p - 1) * s[0], Terms(s, a, p - 1, p - 1));
  }

  lemma LastTerm(s: seq<real>, a: real, p: nat)
    requires 0 < p < |s|
    ensures Terms(s, a, p, p) == Terms(s, a, p, p - 1) + a * s[p]
  {
    assert Power(1.0 - a, 0) == 1.0;
    assert a * 1.0 * s[p] == a * s[p];
  }

  // ----- MACD

  // The difference line is the 12-day mean less the 26-day mean of the closes, the
  // signal line the 9-day mean of the difference line, the histogram twice their
  // difference.
  lemma MacdInClosedForm(rows: seq<Row>, p: nat)
    requires p < |rows|
    ensures
      var closes := Closes(rows);
      var dif := seq(|rows|, k requires 0 <= k < |rows| => WeightedMean(closes, 12, k) - WeightedMean(closes, 26, k));
      && Series(rows, MacdDif)[p] == Num(dif[p])
      && Series(rows, MacdDea)[p] == Num(WeightedMean(dif, 9, p))
      && Series(rows, MacdHist)[p] == Num(2.0 * (dif[p] - WeightedMean(dif, 9, p)))
  {
    hide ExponentialMean, WeightedMean;
    var closes := Closes(rows);
    var dif := seq(|rows|, k requires 0 <= k < |rows| => WeightedMean(closes, 12, k) - WeightedMean(closes, 26, k));
    forall k | 0 <= k < |rows| ensures Dif(rows)[k] == dif[k] {
      MeanInClosedForm(closes, 12, k);
      MeanInClosedForm(closes, 26, k);
    }
    assert Dif(rows) == dif;
    MeanInClosedForm(dif, 9, p);
  }

  // On closes that never fall, the faster mean is never below the slower one and
  // never above the close.
  lemma {:induction false} FasterMeanIsHigher(s: seq<real>, fast: Window, slow: Window, p: nat)
    requires fast <= slow && p < |s| && forall k :: 0 < k < |s| ==> s[k - 1] <= s[k]
    ensures ExponentialMean(s, slow)[p] <= ExponentialMean(s, fast)[p] <= s[p]
  {
    hide ExponentialMean, Smoothing;
    MeanStep(s, fast, p);
    MeanStep(s, slow, p);
    if p > 0 {
      FasterMeanIsHigher(s, fast, slow, p - 1);
      SmoothingFalls(fast, slow);
      MixIsOrdered(ExponentialMean(s, slow)[p - 1], ExponentialMean(s, fast)[p - 1], s[p],
                   Smoothing(slow), Smoothing(fast));
    }
  }

  lemma SmoothingFalls(fast: Window, slow: Window)
    requires fast <= slow
    ensures 0.0 < Smoothing(slow) <= Smoothing(fast) <= 1.0
  {
    var f, g := fast as real + 1.0, slow as real + 1.0;
    LargerDivisor(f, g);
    LargerDivisor(2.0, f);
  }

  lemma LargerDivisor(f: real, g: real)
    requires 0.0 < f <= g
    ensures 0.0 < 2.0 / g <= 2.0 / f
  {
    var x, y := 2.0 / f, 2.0 / g;
    assert x * f == 2.0 && y * g == 2.0;
    ProductOrder(x, g - f);
    assert (x - y) * g >= 0.0;
  }

  lemma ProductOrder(a: real, b: real)
    requires a >= 0.0 && b >= 0.0
    ensures a * b >= 0.0
  {
  }

  lemma MixIsOrdered(low: real, high: real, x: real, a: real, b: real)
    requires low <= high <= x && 0.0 <= a <= b <= 1.0
    ensures (1.0 - a) * low + a * x <= (1.0 - b) * high + b * x <= x
  {
    ProductOrder(1.0 - b, high - low);
    ProductOrder(b - a, x - low);
    ProductOrder(1.0 - b, x - high);
  }

  // So the difference line is never negative on them.
  lemma DifIsNonNegativeOnRisingCloses(rows: seq<Row>, p: nat)
    requires p < |rows| && forall k :: 0 < k < |rows| ==> rows[k - 1].close <= rows[k].close
    ensures Series(rows, MacdDif)[p].Num? && Series(rows, MacdDif)[p].value >= 0.0
  {
    hide ExponentialMean;
    FasterMeanIsHigher(Closes(rows), 12, 26, p);
  }

  // ----- sums of a window

  function CloseTotal(rows: seq<Row>): real {
    if rows == [] then 0.0 else rows[0].close + CloseTotal(rows[1..])
  }

  function VolumeTotal(rows: seq<Row>): real {
    if rows == [] then 0.0 else rows[0].volume + VolumeTotal(rows[1..])
  }

  lemma {:induction false} TotalsOfAppend(rows: seq<Row>, r: Row)
    ensures CloseTotal(rows + [r]) == CloseTotal(rows) + r.close
    ensures VolumeTotal(rows + [r]) == VolumeTotal(rows) + r.volume
  {
    if rows == [] {
      assert (rows + [r])[1..] == [];
    } else {
      assert (rows + [r])[1..] == rows[1..] + [r];
      TotalsOfAppend(rows[1..], r);
    }
  }

  lemma {:induction false} TotalsOfColumns(rows: seq<Row>)
    ensures Total(Boxed(Closes(rows))) == CloseTotal(rows)
    ensures Total(Volumes(rows)) == VolumeTotal(rows)
  {
    if rows != [] {
      var rest, last := rows[..|rows| - 1], rows[|rows| - 1];
      TotalsOfColumns(rest);
      TotalsOfAppend(rest, last);
      assert rest + [last] == rows;
      assert Boxed(Closes(rows))[..|rest|] == Boxed(Closes(rest));
      assert Volumes(rows)[..|rest|] == Volumes(rest);
    }
  }

  lemma ColumnsOfSlice(rows: seq<Row>, a: nat, b: nat)
    requires a <= b <= |rows|
    ensures Boxed(Closes(rows))[a..b] == Boxed(Closes(rows[a..b]))
    ensures Volumes(rows)[a..b] == Volumes(rows[a..b])
  {
  }

  lemma MeanOfWindow(window: seq<Row>)
    requires window != []
    ensures AggregateOf(Boxed(Closes(window)), Mean) == Num(CloseTotal(window) / |window| as real)
    ensures AggregateOf(Volumes(window), Mean) == Num(VolumeTotal(window) / |window| as real)
  {
    hide AggregateOf, Total;
    TotalsOfColumns(window);
    MeanOfNumbers(Boxed(Closes(window)));
    MeanOfNumbers(Volumes(window));
  }

  lemma MeanOfNumbers(values: seq<Value>)
    requires values != [] && forall k :: 0 <= k < |values| ==> values[k].Num?
    ensures AggregateOf(values, Mean) == Num(Total(values) / |values| as real)
  {
  }

  // ----- columns of a symbol's rows

  // The average times its window is the sum of the window's closes.
  lemma MovingAverageLaw(rows: seq<Row>, p: nat, w: Window)
    requires p < |rows|
    ensures
      var v := Series(rows, MovingAverage(w))[p];
      if p + 1 < w then v.Missing?
      else v.Num? && v.value * w as real == CloseTotal(rows[p + 1 - w..p + 1])
  {
    hide Rolling, Boxed, Closes, CloseTotal, AggregateOf;
    RollingAt(Boxed(Closes(rows)), p, w, Mean);
    if w <= p + 1 {
      ColumnsOfSlice(rows, p + 1 - w, p + 1);
      MeanOfWindow(rows[p + 1 - w..p + 1]);
    }
  }

  // The close is one plus the return times the close w rows earlier.
  lemma PastReturnLaw(rows: seq<Row>, p: nat, w: Window)
    requires p < |rows|
    ensures
      var v := Series(rows, PastReturn(w))[p];
      if p < w || rows[p - w].close == 0.0 then v.Missing?
      else v.Num? && rows[p].close == (1.0 + v.value) * rows[p - w].close
  {
    if p >= w && rows[p - w].close != 0.0 {
      var q := rows[p].close / rows[p - w].close;
      assert q * rows[p - w].close == rows[p].close;
      assert Series(rows, PastReturn(w))[p] == Num(q - 1.0);
    }
  }

  lemma QuotientOfMean(volume: real, total: real, w: Window)
    ensures
      var v := Quotient(Num(volume), Num(total / w as real));
      if total == 0.0 then v.Missing? else v.Num? && v.value * total == volume * w as real
  {
    var mean := total / w as real;
    assert mean * w as real == total;
    if total != 0.0 {
      var q := volume / mean;
      assert q * mean == volume;
      assert q * (mean * w as real) == q * mean * w as real;
    }
  }

  // The ratio times the volumes of the w previous rows is w times the volume.
  lemma VolumeRatioLaw(rows: seq<Row>, p: nat, w: Window)
    requires p < |rows|
    ensures
      var v := Series(rows, VolumeRatio(w))[p];
      if p < w || VolumeTotal(rows[p - w..p]) == 0.0 then v.Missing?
      else v.Num? && v.value * VolumeTotal(rows[p - w..p]) == rows[p].volume * w as real
  {
    hide Rolling, Shift, VolumeTotal, AggregateOf, Quotient;
    RollingAt(Shift(Volumes(rows)), p, w, Mean);
    var prior := Rolling(Shift(Volumes(rows)), w, Mean)[p];
    assert Series(rows, VolumeRatio(w))[p] == Quotient(Num(rows[p].volume), prior);
    if w <= p {
      Precomputed.ShiftedWindow(Volumes(rows), p, w);
      ColumnsOfSlice(rows, p - w, p);
      MeanOfWindow(rows[p - w..p]);
      QuotientOfMean(rows[p].volume, VolumeTotal(rows[p - w..p]), w);
    } else {
      if w == p + 1 {
        Precomputed.FirstWindowIsMissing(Volumes(rows), p, Mean);
      }
      NoQuotientOfMissing(Num(rows[p].volume));
    }
  }

  lemma NoQuotientOfMissing(v: Value)
    ensures Quotient(v, Missing).Missing?
  {
  }

  // The flow columns hold the sum and the number of positive days of their window.
  lemma FlowColumnsLaw(rows: seq<Row>, p: nat, w: Window)
    requires p < |rows|
    ensures
      var sum, count := Series(rows, FlowSum(w))[p], Series(rows, FlowPositiveCount(w))[p];
      if p + 1 < w then sum.Missing? && count.Missing?
      else
        var window := rows[p + 1 - w..p + 1];
        && count == Num(|PositiveDays(window)| as real)
        && sum == if forall k :: 0 <= k < w ==> Holds(window[k], MainNetInflow) then Num(FlowTotal(window)) else Missing
  {
    hide Series, SumFlows, CountPositiveFlows, FlowTotal, PositiveDays;
    Precomputed.CountSeriesAt(rows, p, w);
    Precomputed.FlowSeriesAt(rows, p, w);
    if w <= p + 1 {
      SumIsFlowTotal(rows[p + 1 - w..p + 1]);
      CountIsPositiveDays(rows[p + 1 - w..p + 1]);
    }
  }

  lemma {:induction false} HighestAndLowest(rows: seq<Row>)
    requires rows != []
    ensures forall k :: 0 <= k < |rows| ==> MinLow(rows) <= rows[k].low && rows[k].high <= MaxHigh(rows)
    ensures exists k :: 0 <= k < |rows| && MaxHigh(rows) == rows[k].high
    ensures exists k :: 0 <= k < |rows| && MinLow(rows) == rows[k].low
  {
    if |rows| == 1 {
      assert MaxHigh(rows) == rows[0].high && MinLow(rows) == rows[0].low;
    } else {
      var rest, last := rows[..|rows| - 1], |rows| - 1;
      HighestAndLowest(rest);
      assert forall k :: 0 <= k < last ==> rest[k] == rows[k];
      var i :| 0 <= i < last && MaxHigh(rest) == rest[i].high;
      var j :| 0 <= j < last && MinLow(rest) == rest[j].low;
      assert MaxHigh(rows) == rows[if rows[last].high > MaxHigh(rest) then last else i].high;
      assert MinLow(rows) == rows[if rows[last].low < MinLow(rest) then last else j].low;
    }
  }

  // The prior levels are the highest high and the lowest low of the w rows before.
  lemma PriorLevelsLaw(rows: seq<Row>, p: nat, w: Window)
    requires p < |rows|
    ensures
      var high, low := Series(rows, PriorHigh(w))[p], Series(rows, PriorLow(w))[p];
      if p < w then high.Missing? && low.Missing?
      else
        && high.Num? && low.Num?
        && (forall k :: p - w <= k < p ==> low.value <= rows[k].low && rows[k].high <= high.value)
        && (exists k :: p - w <= k < p && high.value == rows[k].high)
        && (exists k :: p - w <= k < p && low.value == rows[k].low)
  {
    hide Series, MaxHigh, MinLow;
    Precomputed.PriorSeriesAt(rows, p, w);
    if w <= p {
      var window := rows[p - w..p];
      HighestAndLowest(window);
      var i :| 0 <= i < w && MaxHigh(window) == window[i].high;
      var j :| 0 <= j < w && MinLow(window) == window[j].low;
      assert rows[p - w + i] == window[i] && rows[p - w + j] == window[j];
      forall k | p - w <= k < p ensures MinLow(window) <= rows[k].low && rows[k].high <= MaxHigh(window) {
        assert window[k - (p - w)] == rows[k];
      }
    }
  }

  // ----- columns of the frame

  // The rows of the day that closed above the latest earlier close of their symbol.
  ghost function RisingRows(frame: seq<Day>, t: nat, n: nat): set<int>
    requires t < |frame| && n <= |frame[t].rows|
  {
    set j | 0 <= j < n && Rises(frame, frame[t].rows[j])
  }

  ghost predicate Rises(frame: seq<Day>, row: Row) {
    exists r :: NthLatest(frame, row.symbol, row.date, 1, r) && row.close > r.close
  }

  lemma RisesOnHistory(frame: seq<Day>, t: nat, j: nat)
    requires WellFormed(frame) && t < |frame| && j < |frame[t].rows|
    ensures
      var row, previous := frame[t].rows[j], LastOf(SymbolRows(frame[..t], frame[t].rows[j].symbol));
      Rises(frame, row) <==> previous.Some? && row.close > previous.value.close
  {
    hide SymbolRows, Before, NthLatest;
    var row := frame[t].rows[j];
    BeforeIsPrefix(frame, row.date, t);
    var h := SymbolRows(frame[..t], row.symbol);
    if h != [] {
      NthLatestIsPlace(frame, row.symbol, row.date, 1, h[|h| - 1]);
    }
    forall r | NthLatest(frame, row.symbol, row.date, 1, r) ensures h != [] && h[|h| - 1] == r {
      NthLatestIsPlace(frame, row.symbol, row.date, 1, r);
    }
  }

  lemma {:induction false} RisingRowsAreCounted(frame: seq<Day>, t: nat, n: nat)
    requires WellFormed(frame) && t < |frame| && n <= |frame[t].rows|
    ensures RisingCount(frame, t, n) == |RisingRows(frame, t, n)|
  {
    hide SymbolRows, Rises, WellFormed;
    if n == 0 {
      assert RisingRows(frame, t, n) == {};
    } else {
      RisingRowsAreCounted(frame, t, n - 1);
      RisesOnHistory(frame, t, n - 1);
      if Rises(frame, frame[t].rows[n - 1]) {
        assert RisingRows(frame, t, n) == RisingRows(frame, t, n - 1) + {n - 1};
      } else {
        assert RisingRows(frame, t, n) == RisingRows(frame, t, n - 1);
      }
    }
  }

  // The market heat times the number of rows counts the rows that rose.
  lemma MarketHeatLaw(frame: seq<Day>, t: nat, j: nat)
    requires WellFormed(frame) && t < |frame| && j < |frame[t].rows|
    ensures
      var v, n := ColumnAt(frame, t, j, MarketRisingRatio), |frame[t].rows|;
      v.Num? && v.value * n as real == |RisingRows(frame, t, n)| as real
  {
    hide RisingCount, RisingRows;
    RisingRowsAreCounted(frame, t, |frame[t].rows|);
  }

  // A column of the frame reads the symbol's rows up to the row: their windows are
  // the windows told by dates.
  lemma ColumnReadsRowsUpToDate(frame: seq<Day>, t: nat, j: nat, column: Column)
    requires WellFormed(frame) && t < |frame| && j < |frame[t].rows| && column != MarketRisingRatio
    ensures
      var row, rows := frame[t].rows[j], SymbolRows(frame, frame[t].rows[j].symbol);
      var p := Position(frame, t, j);
      && p < |rows| && rows[p] == row
      && ColumnAt(frame, t, j, column) == Series(rows, column)[p]
      && (forall k :: 0 <= k < p ==> NthLatest(frame, row.symbol, row.date, p - k, rows[k]))
      && (forall n, r :: n > p ==> !NthLatest(frame, row.symbol, row.date, n, r))
  {
    hide SymbolRows, Before, NthLatest, Series, Position;
    Precomputed.ColumnIsSeriesAtPosition(frame, t, j, column);
    Precomputed.HistoriesArePrefixes(frame, t, j);
    PositionInHistory(frame, t, j);
    var row, rows := frame[t].rows[j], SymbolRows(frame, frame[t].rows[j].symbol);
    var p := Position(frame, t, j);
    forall k | 0 <= k < p ensures NthLatest(frame, row.symbol, row.date, p - k, rows[k]) {
      NthLatestIsPlace(frame, row.symbol, row.date, p - k, rows[k]);
    }
    forall n: nat, r | n > p ensures !NthLatest(frame, row.symbol, row.date, n, r) {
      NthLatestIsPlace(frame, row.symbol, row.date, n, r);
    }
  }

  // Enriching adds the asked columns to every row and changes nothing else.
  lemma EnrichedRow(frame: seq<Day>, columns: set<Column>, t: nat, j: nat)
    requires t < |frame| && j < |frame[t].rows|
    ensures
      var day := Enrich(frame, columns)[t];
      && day.date == frame[t].date && |day.rows| == |frame[t].rows|
      && var row, was := day.rows[j], frame[t].rows[j];
         && row == was.(cells := row.cells)
         && row.cells.Keys == was.cells.Keys + columns
         && (forall c :: c in columns ==> row.cells[c] == ColumnAt(frame, t, j, c))
         && (forall c :: c in was.cells && c !in columns ==> row.cells[c] == was.cells[c])
  {
    hide ColumnAt;
  }
}
