/**
  The condition language: what a node means for one row (the evaluators), and
  what the vectorised mask of the same node says for that row.
 */
module Conditions {
  import opened Options
  import opened Market

  // The registered conditions with the parameters they read.
  datatype Condition =
    | MarketCapBetween(min: real, max: real)
    | FlowSumAtLeast(window: Window, min: real)
    | FlowSumAtMost(window: Window, max: real)
    | FlowTodayAtLeast(min: real)
    | FlowTodayAtMost(max: real)
    | FlowPositiveCountAtLeast(window: Window, minCount: int)
    | MarketRisingAtLeast(min: real)
    | CloseAboveMa(window: Window)
    | CloseBelowMa(window: Window)
    | TurnoverBetween(min: real, max: real)
    | PastReturnAtMost(window: Window, max: real)
    | PastReturnBetween(window: Window, min: real, max: real)
    | VolumeRatioBetween(window: Window, min: real, max: real)
    | MacdHistogramAtLeast(min: real)
    | MacdDeadCross
    | BreakoutAboveHigh(window: Window)
    | BreakdownBelowLow(window: Window)

  datatype Node = Node(condition: Condition, enabled: bool, lag: nat, weight: real)

  datatype Operator = And | Or | Score

  datatype Group = Group(operator: Operator, nodes: seq<Node>)

  datatype Strategy = Strategy(
    marketFilters: seq<Node>,
    entryGroups: seq<Group>,
    exitRules: seq<Node>,
    scoreThreshold: real)

  // ----- comparisons on cells: a missing value never satisfies a bound

  predicate AtLeast(v: Value, bound: real) {
    v.Num? && v.value >= bound
  }

  predicate AtMost(v: Value, bound: real) {
    v.Num? && v.value <= bound
  }

  predicate Between(v: Value, min: real, max: real) {
    AtLeast(v, min) && AtMost(v, max)
  }

  // The evaluators subtract the level from the price and look at the sign.
  predicate Above(price: real, level: Value) {
    level.Num? && price - level.value > 0.0
  }

  predicate Below(price: real, level: Value) {
    level.Num? && price - level.value < 0.0
  }

  // The evaluator reads a turnover above one as a percentage.
  function RescaledTurnover(v: Value): Value {
    if v.Num? && v.value > 1.0 then Num(v.value / 100.0) else v
  }

  // ----- what the history-scanning branches compute

  function SumFlows(rows: seq<Row>): real {
    if rows == [] then 0.0
    else
      SumFlows(rows[..|rows| - 1])
      + (match Cell(rows[|rows| - 1], MainNetInflow) case Num(v) => v case Missing => 0.0)
  }

  function CountPositiveFlows(rows: seq<Row>): nat {
    if rows == [] then 0
    else
      CountPositiveFlows(rows[..|rows| - 1])
      + (match Cell(rows[|rows| - 1], MainNetInflow) case Num(v) => if v > 0.0 then 1 else 0 case Missing => 0)
  }

  function MaxHigh(rows: seq<Row>): real
    requires rows != []
  {
    if |rows| == 1 then rows[0].high
    else
      var m := MaxHigh(rows[..|rows| - 1]);
      if rows[|rows| - 1].high > m then rows[|rows| - 1].high else m
  }

  function MinLow(rows: seq<Row>): real
    requires rows != []
  {
    if |rows| == 1 then rows[0].low
    else
      var m := MinLow(rows[..|rows| - 1]);
      if rows[|rows| - 1].low < m then rows[|rows| - 1].low else m
  }

  // The last `window` rows, or nothing when the history is too short.
  function Tail(rows: seq<Row>, window: Window): Option<seq<Row>> {
    if |rows| < window then None else Some(rows[|rows| - window..])
  }

  function HistoryUpTo(data: seq<Day>, row: Row): seq<Row> {
    SymbolRows(UpTo(data, row.date), row.symbol)
  }

  function HistoryBefore(data: seq<Day>, row: Row): seq<Row> {
    SymbolRows(Before(data, row.date), row.symbol)
  }

  function ScannedFlowSum(data: seq<Day>, row: Row, window: Window): Value {
    match Tail(HistoryUpTo(data, row), window)
    case Some(rows) => Num(SumFlows(rows))
    case None => Missing
  }

  function ScannedPositiveCount(data: seq<Day>, row: Row, window: Window): Value {
    match Tail(HistoryUpTo(data, row), window)
    case Some(rows) => Num(CountPositiveFlows(rows) as real)
    case None => Missing
  }

  function ScannedPriorHigh(data: seq<Day>, row: Row, window: Window): Value {
    match Tail(HistoryBefore(data, row), window)
    case Some(rows) => Num(MaxHigh(rows))
    case None => Missing
  }

  function ScannedPriorLow(data: seq<Day>, row: Row, window: Window): Value {
    match Tail(HistoryBefore(data, row), window)
    case Some(rows) => Num(MinLow(rows))
    case None => Missing
  }

  // A precomputed column wins over scanning the history.
  function Observed(row: Row, column: Column, scanned: Value): Value {
    if column in row.cells then row.cells[column] else scanned
  }

  // Crossing from "fast line not below" to "fast line below".
  predicate DeadCross(previous: Option<Row>, row: Row) {
    && previous.Some?
    && Cell(row, MacdDif).Num? && Cell(row, MacdDea).Num?
    && Cell(previous.value, MacdDif).Num? && Cell(previous.value, MacdDea).Num?
    && Cell(previous.value, MacdDif).value >= Cell(previous.value, MacdDea).value
    && Cell(row, MacdDif).value < Cell(row, MacdDea).value
  }

  function LastOf(rows: seq<Row>): Option<Row> {
    if rows == [] then None else Some(rows[|rows| - 1])
  }

  // ----- the evaluators

  // Does the condition hold for the row, given the frame?
  predicate Verdict(c: Condition, row: Row, data: seq<Day>) {
    match c
    case MarketCapBetween(min, max) => Between(Cell(row, FloatMarketCap), min, max)
    case FlowSumAtLeast(w, min) => AtLeast(Observed(row, FlowSum(w), ScannedFlowSum(data, row, w)), min)
    case FlowSumAtMost(w, max) => AtMost(Observed(row, FlowSum(w), ScannedFlowSum(data, row, w)), max)
    case FlowTodayAtLeast(min) => AtLeast(Cell(row, MainNetInflow), min)
    case FlowTodayAtMost(max) => AtMost(Cell(row, MainNetInflow), max)
    case FlowPositiveCountAtLeast(w, n) =>
      AtLeast(Observed(row, FlowPositiveCount(w), ScannedPositiveCount(data, row, w)), n as real)
    case MarketRisingAtLeast(min) => AtLeast(Cell(row, MarketRisingRatio), min)
    case CloseAboveMa(w) => Above(row.close, Cell(row, MovingAverage(w)))
    case CloseBelowMa(w) => Below(row.close, Cell(row, MovingAverage(w)))
    case TurnoverBetween(min, max) => Between(RescaledTurnover(Cell(row, TurnoverRate)), min, max)
    case PastReturnAtMost(w, max) => AtMost(Cell(row, PastReturn(w)), max)
    case PastReturnBetween(w, min, max) => Between(Cell(row, PastReturn(w)), min, max)
    case VolumeRatioBetween(w, min, max) => Between(Cell(row, VolumeRatio(w)), min, max)
    case MacdHistogramAtLeast(min) => AtLeast(Cell(row, MacdHist), min)
    case MacdDeadCross => DeadCross(LastOf(HistoryBefore(data, row)), row)
    case BreakoutAboveHigh(w) => Above(row.close, Observed(row, PriorHigh(w), ScannedPriorHigh(data, row, w)))
    case BreakdownBelowLow(w) => Below(row.close, Observed(row, PriorLow(w), ScannedPriorLow(data, row, w)))
  }

  // A disabled node passes; a lagged node is judged on the symbol's row that
  // many rows earlier and fails when there is none.
  predicate Evaluate(node: Node, row: Row, data: seq<Day>) {
    if !node.enabled then true
    else if node.lag == 0 then Verdict(node.condition, row, data)
    else
      var history := HistoryBefore(data, row);
      |history| >= node.lag && Verdict(node.condition, history[|history| - node.lag], data)
  }

  function ScoreOf(nodes: seq<Node>, row: Row, data: seq<Day>): real {
    if nodes == [] then 0.0
    else
      ScoreOf(nodes[..|nodes| - 1], row, data)
      + if Evaluate(nodes[|nodes| - 1], row, data) then nodes[|nodes| - 1].weight else 0.0
  }

  ghost predicate GroupPasses(g: Group, row: Row, data: seq<Day>, threshold: real) {
    match g.operator
    case And => forall n :: n in g.nodes ==> Evaluate(n, row, data)
    case Or => exists n :: n in g.nodes && Evaluate(n, row, data)
    case Score => ScoreOf(g.nodes, row, data) >= threshold
  }

  ghost predicate EntryPasses(s: Strategy, row: Row, data: seq<Day>) {
    forall g :: g in s.entryGroups ==> GroupPasses(g, row, data, s.scoreThreshold)
  }

  ghost predicate MarketPasses(s: Strategy, row: Row, data: seq<Day>) {
    forall n :: n in s.marketFilters ==> Evaluate(n, row, data)
  }

  // ----- the vectorised masks

  // The row of the same symbol directly above row j of day t in the frame,
  // which is what a grouped shift by one reads.
  function Shifted(data: seq<Day>, t: nat, j: nat): Option<Row>
    requires t < |data| && j < |data[t].rows|
  {
    match Lookup(data[t].rows[..j], data[t].rows[j].symbol)
    case Some(row) => Some(row)
    case None => LastOf(SymbolRows(data[..t], data[t].rows[j].symbol))
  }

  // The mask of a condition at row j of day t.
  predicate ConditionMask(c: Condition, data: seq<Day>, t: nat, j: nat)
    requires t < |data| && j < |data[t].rows|
  {
    var row := data[t].rows[j];
    match c
    case MarketCapBetween(min, max) => Between(Cell(row, FloatMarketCap), min, max)
    case FlowSumAtLeast(w, min) => FlowSum(w) in row.cells ==> AtLeast(Cell(row, FlowSum(w)), min)
    case FlowSumAtMost(w, max) => FlowSum(w) in row.cells ==> AtMost(Cell(row, FlowSum(w)), max)
    case FlowTodayAtLeast(min) => AtLeast(Cell(row, MainNetInflow), min)
    case FlowTodayAtMost(max) => AtMost(Cell(row, MainNetInflow), max)
    case FlowPositiveCountAtLeast(w, n) =>
      FlowPositiveCount(w) in row.cells ==> AtLeast(Cell(row, FlowPositiveCount(w)), n as real)
    case MarketRisingAtLeast(min) => AtLeast(Cell(row, MarketRisingRatio), min)
    case CloseAboveMa(w) => Cell(row, MovingAverage(w)).Num? && row.close > Cell(row, MovingAverage(w)).value
    case CloseBelowMa(w) => Cell(row, MovingAverage(w)).Num? && row.close < Cell(row, MovingAverage(w)).value
    case TurnoverBetween(min, max) => Between(Cell(row, TurnoverRate), min, max)
    case PastReturnAtMost(w, max) => AtMost(Cell(row, PastReturn(w)), max)
    case PastReturnBetween(w, min, max) => Between(Cell(row, PastReturn(w)), min, max)
    case VolumeRatioBetween(w, min, max) => Between(Cell(row, VolumeRatio(w)), min, max)
    case MacdHistogramAtLeast(min) => AtLeast(Cell(row, MacdHist), min)
    case MacdDeadCross => DeadCross(Shifted(data, t, j), row)
    case BreakoutAboveHigh(w) =>
      PriorHigh(w) in row.cells ==> Cell(row, PriorHigh(w)).Num? && row.close > Cell(row, PriorHigh(w)).value
    case BreakdownBelowLow(w) =>
      PriorLow(w) in row.cells ==> Cell(row, PriorLow(w)).Num? && row.close < Cell(row, PriorLow(w)).value
  }

  // Disabled and lagged nodes do not restrict the prefilter.
  predicate NodeMask(node: Node, data: seq<Day>, t: nat, j: nat)
    requires t < |data| && j < |data[t].rows|
  {
    !node.enabled || node.lag > 0 || ConditionMask(node.condition, data, t, j)
  }

  // Score groups and empty groups do not restrict the prefilter.
  ghost predicate GroupMask(g: Group, data: seq<Day>, t: nat, j: nat)
    requires t < |data| && j < |data[t].rows|
  {
    if g.nodes == [] then true
    else
      match g.operator
      case And => forall n :: n in g.nodes ==> NodeMask(n, data, t, j)
      case Or => exists n :: n in g.nodes && NodeMask(n, data, t, j)
      case Score => true
  }

  ghost predicate KeptByPrefilter(s: Strategy, data: seq<Day>, t: nat, j: nat)
    requires t < |data| && j < |data[t].rows|
  {
    && (forall n :: n in s.marketFilters ==> NodeMask(n, data, t, j))
    && (forall g :: g in s.entryGroups ==> GroupMask(g, data, t, j))
  }

  // ----- the loops of the source, proved against the definitions above

  // Evaluating a group, including the score accumulation.
  method EvaluateGroup(g: Group, row: Row, data: seq<Day>, threshold: real) returns (passed: bool, score: real)
    ensures passed <==> GroupPasses(g, row, data, threshold)
    ensures g.operator == Score ==> score == ScoreOf(g.nodes, row, data)
  {
    var all, any := true, false;
    score := 0.0;
    for i := 0 to |g.nodes|
      invariant all <==> forall n :: n in g.nodes[..i] ==> Evaluate(n, row, data)
      invariant any <==> exists n :: n in g.nodes[..i] && Evaluate(n, row, data)
      invariant score == ScoreOf(g.nodes[..i], row, data)
    {
      assert g.nodes[..i + 1] == g.nodes[..i] + [g.nodes[i]];
      assert g.nodes[..i + 1][..i] == g.nodes[..i];
      var ok := Evaluate(g.nodes[i], row, data);
      if ok {
        assert g.nodes[i] in g.nodes[..i + 1];
        any := true;
        score := score + g.nodes[i].weight;
      } else {
        assert g.nodes[i] in g.nodes[..i + 1];
        all := false;
      }
    }
    assert g.nodes[..|g.nodes|] == g.nodes;
    match g.operator {
      case And => passed := all;
      case Or => passed := any;
      case Score => passed := score >= threshold;
    }
  }

  // The candidate mask of one row, built by and-ing and or-ing node masks.
  method CandidatePrefilterMask(s: Strategy, data: seq<Day>, t: nat, j: nat) returns (mask: bool)
    requires t < |data| && j < |data[t].rows|
    ensures mask <==> KeptByPrefilter(s, data, t, j)
  {
    mask := true;
    for i := 0 to |s.marketFilters|
      invariant mask <==> forall n :: n in s.marketFilters[..i] ==> NodeMask(n, data, t, j)
    {
      assert s.marketFilters[..i + 1] == s.marketFilters[..i] + [s.marketFilters[i]];
      assert s.marketFilters[i] in s.marketFilters[..i + 1];
      mask := mask && NodeMask(s.marketFilters[i], data, t, j);
    }
    assert s.marketFilters[..|s.marketFilters|] == s.marketFilters;
    ghost var market := mask;
    for i := 0 to |s.entryGroups|
      invariant mask <==> market && forall g :: g in s.entryGroups[..i] ==> GroupMask(g, data, t, j)
    {
      var g := s.entryGroups[i];
      assert s.entryGroups[..i + 1] == s.entryGroups[..i] + [g];
      assert g in s.entryGroups[..i + 1];
      if g.operator != Score && g.nodes != [] {
        var groupMask := FoldNodeMasks(g, data, t, j);
        mask := mask && groupMask;
      }
    }
    assert s.entryGroups[..|s.entryGroups|] == s.entryGroups;
  }

  method FoldNodeMasks(g: Group, data: seq<Day>, t: nat, j: nat) returns (mask: bool)
    requires t < |data| && j < |data[t].rows|
    requires g.operator != Score && g.nodes != []
    ensures mask <==> GroupMask(g, data, t, j)
  {
    mask := NodeMask(g.nodes[0], data, t, j);
    for i := 1 to |g.nodes|
      invariant g.operator == And ==> (mask <==> forall n :: n in g.nodes[..i] ==> NodeMask(n, data, t, j))
      invariant g.operator == Or ==> (mask <==> exists n :: n in g.nodes[..i] && NodeMask(n, data, t, j))
    {
      assert g.nodes[..i + 1] == g.nodes[..i] + [g.nodes[i]];
      assert g.nodes[i] in g.nodes[..i + 1];
      var nodeMask := NodeMask(g.nodes[i], data, t, j);
      if g.operator == Or {
        mask := mask || nodeMask;
      } else {
        mask := mask && nodeMask;
      }
    }
    assert g.nodes[..|g.nodes|] == g.nodes;
  }
}
