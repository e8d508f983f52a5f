/**
  The market frame the backtester reads: one row per symbol and trading day,
  grouped by day. A numeric cell that pandas would hold as NaN is `Missing`.
 */
module Market {
  import opened Options

  datatype Value = Missing | Num(value: real)

  // A rolling window as it occurs in condition parameters.
  type Window = n: nat | 1 <= n witness 1

  // The columns a condition may read, apart from the price bars themselves.
  datatype Column =
    | FloatMarketCap
    | MainNetInflow
    | TurnoverRate
    | MarketRisingRatio
    | MacdDif
    | MacdDea
    | MacdHist
    | MovingAverage(window: Window)
    | PastReturn(window: Window)
    | VolumeRatio(window: Window)
    | FlowSum(window: Window)
    | FlowPositiveCount(window: Window)
    | PriorHigh(window: Window)
    | PriorLow(window: Window)

  datatype Row = Row(
    symbol: string,
    date: int,
    open: real,
    high: real,
    low: real,
    close: real,
    volume: real,
    suspended: bool,
    st: bool,
    listingDays: int,
    preClose: Value,
    cells: map<Column, Value>)

  datatype Day = Day(date: int, rows: seq<Row>)

  // The content of a cell; a column the frame does not have reads as missing.
  function Cell(row: Row, column: Column): Value {
    if column in row.cells then row.cells[column] else Missing
  }

  ghost predicate DistinctSymbols(rows: seq<Row>) {
    forall i, j :: 0 <= i < j < |rows| ==> rows[i].symbol != rows[j].symbol
  }

  ghost predicate SortedDays(days: seq<Day>) {
    forall i, j :: 0 <= i < j < |days| ==> days[i].date < days[j].date
  }

  // A frame sorted by trade date with at most one row per (symbol, date).
  ghost predicate WellFormed(days: seq<Day>) {
    && SortedDays(days)
    && (forall i :: 0 <= i < |days| ==> DistinctSymbols(days[i].rows))
    && (forall i, j :: 0 <= i < |days| && 0 <= j < |days[i].rows| ==> days[i].rows[j].date == days[i].date)
  }

  // The row of a symbol on one day: the later row wins, as in a dictionary
  // filled in frame order.
  function Lookup(rows: seq<Row>, symbol: string): (r: Option<Row>)
    ensures r.Some? ==> r.value in rows && r.value.symbol == symbol
    ensures r.None? ==> forall i :: 0 <= i < |rows| ==> rows[i].symbol != symbol
  {
    if rows == [] then None
    else if rows[|rows| - 1].symbol == symbol then Some(rows[|rows| - 1])
    else Lookup(rows[..|rows| - 1], symbol)
  }

  // All rows of one symbol, oldest first.
  function SymbolRows(days: seq<Day>, symbol: string): (r: seq<Row>)
    ensures forall i :: 0 <= i < |r| ==> r[i].symbol == symbol
  {
    if days == [] then []
    else
      var earlier := SymbolRows(days[..|days| - 1], symbol);
      match Lookup(days[|days| - 1].rows, symbol)
      case Some(row) => earlier + [row]
      case None => earlier
  }

  // The part of the frame strictly before a date.
  function Before(days: seq<Day>, date: int): seq<Day> {
    if days == [] then []
    else if days[|days| - 1].date < date then Before(days[..|days| - 1], date) + [days[|days| - 1]]
    else Before(days[..|days| - 1], date)
  }

  // The part of the frame up to and including a date.
  function UpTo(days: seq<Day>, date: int): seq<Day> {
    Before(days, date + 1)
  }

  // ----- facts about sorted frames

  lemma SortedPrefix(days: seq<Day>, k: nat)
    requires k <= |days| && WellFormed(days)
    ensures WellFormed(days[..k])
  {
  }

  // In a sorted frame "before a date" is a prefix.
  lemma {:induction false} BeforeIsPrefix(days: seq<Day>, date: int, k: nat)
    requires SortedDays(days) && k <= |days|
    requires forall i :: 0 <= i < k ==> days[i].date < date
    requires k < |days| ==> date <= days[k].date
    ensures Before(days, date) == days[..k]
  {
    if days != [] {
      var rest := days[..|days| - 1];
      if k == |days| {
        BeforeIsPrefix(rest, date, k - 1);
        assert rest[..k - 1] + [days[k - 1]] == days;
      } else {
        BeforeIsPrefix(rest, date, k);
        assert rest[..k] == days[..k];
      }
    }
  }

  // A later part of the frame never changes what lies before a date.
  lemma BeforeIgnoresLaterDays(days: seq<Day>, k: nat, date: int)
    requires SortedDays(days) && k <= |days|
    requires k < |days| ==> date <= days[k].date
    ensures Before(days[..k], date) == Before(days, date)
  {
    var n := CountBefore(days, k, date);
    BeforeIsPrefix(days, date, n);
    BeforeIsPrefix(days[..k], date, n);
    assert days[..k][..n] == days[..n];
  }

  lemma {:induction false} CountBefore(days: seq<Day>, k: nat, date: int) returns (n: nat)
    requires SortedDays(days) && k <= |days|
    ensures n <= k
    ensures forall i :: 0 <= i < n ==> days[i].date < date
    ensures n < k ==> date <= days[n].date
  {
    n := 0;
    while n < k && days[n].date < date
      invariant n <= k
      invariant forall i :: 0 <= i < n ==> days[i].date < date
    {
      n := n + 1;
    }
  }

  // The row found for a symbol that has exactly one row on the day is that row.
  lemma {:induction false} LookupFindsRow(rows: seq<Row>, j: nat)
    requires j < |rows| && DistinctSymbols(rows)
    ensures Lookup(rows, rows[j].symbol) == Some(rows[j])
  {
    if j < |rows| - 1 {
      LookupFindsRow(rows[..|rows| - 1], j);
    }
  }
}
