/**
  Scanning only the prefiltered rows of a day gives the same candidates as
  scanning all of them - exactly when no eligible row carries a turnover above
  one, because the evaluator rescales such a turnover and the mask does not.
 */
module Prefilter {
  import opened Options
  import opened Market
  import opened Conditions

  datatype ScanSettings = ScanSettings(excludeSt: bool, minListingDays: int)

  predicate Eligible(row: Row, settings: ScanSettings) {
    !row.suspended && !(settings.excludeSt && row.st) && row.listingDays >= settings.minListingDays
  }

  ghost predicate IsCandidate(s: Strategy, row: Row, data: seq<Day>, settings: ScanSettings) {
    Eligible(row, settings) && MarketPasses(s, row, data) && EntryPasses(s, row, data)
  }

  // The first n rows of day t that are candidates, without the prefilter.
  ghost function FullScan(s: Strategy, data: seq<Day>, t: nat, n: nat, settings: ScanSettings): seq<Row>
    requires t < |data| && n <= |data[t].rows|
  {
    if n == 0 then []
    else
      FullScan(s, data, t, n - 1, settings)
      + if IsCandidate(s, data[t].rows[n - 1], data, settings) then [data[t].rows[n - 1]] else []
  }

  // The same, looking only at rows the prefilter keeps.
  ghost function Scan(s: Strategy, data: seq<Day>, t: nat, n: nat, settings: ScanSettings): seq<Row>
    requires t < |data| && n <= |data[t].rows|
  {
    if n == 0 then []
    else
      Scan(s, data, t, n - 1, settings)
      + if KeptByPrefilter(s, data, t, n - 1) && IsCandidate(s, data[t].rows[n - 1], data, settings)
        then [data[t].rows[n - 1]] else []
  }

  ghost function DayCandidates(s: Strategy, data: seq<Day>, t: nat, settings: ScanSettings): seq<Row>
    requires t < |data|
  {
    Scan(s, data, t, |data[t].rows|, settings)
  }

  predicate PlainTurnover(row: Row) {
    Cell(row, TurnoverRate).Num? ==> Cell(row, TurnoverRate).value <= 1.0
  }

  // ----- one node

  // The mask keeps every row whose verdict is positive.
  lemma VerdictImpliesMask(c: Condition, data: seq<Day>, t: nat, j: nat)
    requires WellFormed(data) && t < |data| && j < |data[t].rows|
    requires c.TurnoverBetween? ==> PlainTurnover(data[t].rows[j])
    ensures Verdict(c, data[t].rows[j], data) ==> ConditionMask(c, data, t, j)
  {
    if c.MacdDeadCross? {
      ShiftReadsPreviousTradingRow(data, t, j);
    }
  }

  // The grouped shift and the "strictly earlier trade date" query find the same row.
  lemma ShiftReadsPreviousTradingRow(data: seq<Day>, t: nat, j: nat)
    requires WellFormed(data) && t < |data| && j < |data[t].rows|
    ensures Shifted(data, t, j) == LastOf(HistoryBefore(data, data[t].rows[j]))
  {
    BeforeIsPrefix(data, data[t].date, t);
    assert Lookup(data[t].rows[..j], data[t].rows[j].symbol).None?;
  }

  // For one turnover cell, evaluator and mask give the same answer under all
  // bounds exactly when the cell is missing or not rescaled; otherwise the mask
  // even turns away what the evaluator accepts.
  lemma TurnoverMaskIsSafeExactlyUpToOne(v: Value)
    ensures (forall min, max :: Between(RescaledTurnover(v), min, max) <==> Between(v, min, max))
            <==> (v.Num? ==> v.value <= 1.0)
    ensures (forall min, max :: Between(RescaledTurnover(v), min, max) ==> Between(v, min, max))
            <==> (v.Num? ==> v.value <= 1.0)
  {
    if v.Num? && v.value > 1.0 {
      var p := v.value / 100.0;
      assert Between(RescaledTurnover(v), p, p) && !Between(v, p, p);
    }
  }

  // The node's mask reads the turnover: it is enabled, has no lag, and asks for one.
  predicate MasksByTurnover(node: Node) {
    node.enabled && node.lag == 0 && node.condition.TurnoverBetween?
  }

  // Some mask of the strategy reads the turnover; score groups have no mask.
  ghost predicate UsesTurnoverMask(s: Strategy) {
    || (exists n :: n in s.marketFilters && MasksByTurnover(n))
    || (exists g, n :: g in s.entryGroups && g.operator != Score && n in g.nodes && MasksByTurnover(n))
  }

  lemma EvaluateImpliesNodeMask(node: Node, data: seq<Day>, t: nat, j: nat)
    requires WellFormed(data) && t < |data| && j < |data[t].rows|
    requires MasksByTurnover(node) ==> PlainTurnover(data[t].rows[j])
    ensures Evaluate(node, data[t].rows[j], data) ==> NodeMask(node, data, t, j)
  {
    if node.enabled && node.lag == 0 {
      VerdictImpliesMask(node.condition, data, t, j);
    }
  }

  // ----- one row

  lemma GroupSurvivesPrefilter(s: Strategy, g: Group, data: seq<Day>, t: nat, j: nat)
    requires WellFormed(data) && t < |data| && j < |data[t].rows| && g in s.entryGroups
    requires UsesTurnoverMask(s) ==> PlainTurnover(data[t].rows[j])
    ensures GroupPasses(g, data[t].rows[j], data, s.scoreThreshold) ==> GroupMask(g, data, t, j)
  {
    if g.operator != Score {
      forall n | n in g.nodes && Evaluate(n, data[t].rows[j], data)
        ensures NodeMask(n, data, t, j)
      {
        EvaluateImpliesNodeMask(n, data, t, j);
      }
    }
  }

  lemma CandidateSurvivesPrefilter(s: Strategy, data: seq<Day>, t: nat, j: nat, settings: ScanSettings)
    requires WellFormed(data) && t < |data| && j < |data[t].rows|
    requires UsesTurnoverMask(s) ==> PlainTurnover(data[t].rows[j])
    ensures IsCandidate(s, data[t].rows[j], data, settings) ==> KeptByPrefilter(s, data, t, j)
  {
    var row := data[t].rows[j];
    forall n | n in s.marketFilters && Evaluate(n, row, data)
      ensures NodeMask(n, data, t, j)
    {
      EvaluateImpliesNodeMask(n, data, t, j);
    }
    forall g | g in s.entryGroups && GroupPasses(g, row, data, s.scoreThreshold)
      ensures GroupMask(g, data, t, j)
    {
      GroupSurvivesPrefilter(s, g, data, t, j);
    }
  }

  // ----- one day

  // A row the prefilter may judge by its turnover has a plain one.
  ghost predicate PlainWhereMasked(s: Strategy, data: seq<Day>, t: nat, n: nat, settings: ScanSettings)
    requires t < |data| && n <= |data[t].rows|
  {
    UsesTurnoverMask(s) ==>
      forall j :: 0 <= j < n && Eligible(data[t].rows[j], settings) ==> PlainTurnover(data[t].rows[j])
  }

  lemma {:induction false} ScanAgreesUpTo(s: Strategy, data: seq<Day>, t: nat, n: nat, settings: ScanSettings)
    requires WellFormed(data) && t < |data| && n <= |data[t].rows|
    requires PlainWhereMasked(s, data, t, n, settings)
    ensures Scan(s, data, t, n, settings) == FullScan(s, data, t, n, settings)
  {
    if n > 0 {
      ScanAgreesUpTo(s, data, t, n - 1, settings);
      if Eligible(data[t].rows[n - 1], settings) {
        CandidateSurvivesPrefilter(s, data, t, n - 1, settings);
      }
    }
  }

  // A strategy without a turnover mask is prefiltered exactly, on every frame.
  lemma PrefilterIsExactWithoutTurnover(s: Strategy, data: seq<Day>, t: nat, settings: ScanSettings)
    requires WellFormed(data) && t < |data| && !UsesTurnoverMask(s)
    ensures DayCandidates(s, data, t, settings) == FullScan(s, data, t, |data[t].rows|, settings)
  {
    ScanAgreesUpTo(s, data, t, |data[t].rows|, settings);
  }

  // The strategy that asks for exactly the rescaled turnover of a row.
  function ExactTurnoverStrategy(v: real): Strategy {
    var node := Node(TurnoverBetween(v / 100.0, v / 100.0), true, 0, 0.0);
    Strategy([], [Group(And, [node])], [], 0.0)
  }

  lemma {:induction false} FullScanContains(
    s: Strategy, data: seq<Day>, t: nat, n: nat, j: nat, settings: ScanSettings)
    requires t < |data| && j < n <= |data[t].rows|
    requires IsCandidate(s, data[t].rows[j], data, settings)
    ensures data[t].rows[j] in FullScan(s, data, t, n, settings)
  {
    if j < n - 1 {
      FullScanContains(s, data, t, n - 1, j, settings);
    }
  }

  lemma {:induction false} MaskedRowIsNotScanned(
    s: Strategy, data: seq<Day>, t: nat, n: nat, row: Row, settings: ScanSettings)
    requires t < |data| && n <= |data[t].rows|
    requires forall j :: 0 <= j < n && data[t].rows[j] == row ==> !KeptByPrefilter(s, data, t, j)
    ensures row !in Scan(s, data, t, n, settings)
  {
    if n > 0 {
      MaskedRowIsNotScanned(s, data, t, n - 1, row, settings);
    }
  }

  // A rescaled turnover on an eligible row makes the prefilter lose a candidate.
  lemma RescaledTurnoverIsLost(data: seq<Day>, t: nat, j: nat, settings: ScanSettings)
    requires t < |data| && j < |data[t].rows|
    requires Eligible(data[t].rows[j], settings) && !PlainTurnover(data[t].rows[j])
    ensures
      var s := ExactTurnoverStrategy(Cell(data[t].rows[j], TurnoverRate).value);
      && data[t].rows[j] in FullScan(s, data, t, |data[t].rows|, settings)
      && data[t].rows[j] !in Scan(s, data, t, |data[t].rows|, settings)
  {
    var row := data[t].rows[j];
    var v := Cell(row, TurnoverRate).value;
    var s := ExactTurnoverStrategy(v);
    var group := s.entryGroups[0];
    var node := group.nodes[0];
    assert Evaluate(node, row, data);
    assert GroupPasses(group, row, data, s.scoreThreshold);
    FullScanContains(s, data, t, |data[t].rows|, j, settings);
    forall i | 0 <= i < |data[t].rows| && data[t].rows[i] == row
      ensures !KeptByPrefilter(s, data, t, i)
    {
      assert group in s.entryGroups && node in group.nodes;
      assert !NodeMask(node, data, t, i);
    }
    MaskedRowIsNotScanned(s, data, t, |data[t].rows|, row, settings);
  }

  // The prefilter loses no candidate of any strategy exactly when no eligible
  // row of the day has a turnover above one.
  lemma PrefilterIsExactIffTurnoverPlain(data: seq<Day>, t: nat, settings: ScanSettings)
    requires WellFormed(data) && t < |data|
    ensures
      (forall s :: DayCandidates(s, data, t, settings) == FullScan(s, data, t, |data[t].rows|, settings))
      <==>
      (forall j :: 0 <= j < |data[t].rows| && Eligible(data[t].rows[j], settings) ==> PlainTurnover(data[t].rows[j]))
  {
    var n := |data[t].rows|;
    if forall j :: 0 <= j < n && Eligible(data[t].rows[j], settings) ==> PlainTurnover(data[t].rows[j]) {
      forall s ensures DayCandidates(s, data, t, settings) == FullScan(s, data, t, n, settings) {
        ScanAgreesUpTo(s, data, t, n, settings);
      }
    } else {
      var j :| 0 <= j < n && Eligible(data[t].rows[j], settings) && !PlainTurnover(data[t].rows[j]);
      RescaledTurnoverIsLost(data, t, j, settings);
      var s := ExactTurnoverStrategy(Cell(data[t].rows[j], TurnoverRate).value);
      assert DayCandidates(s, data, t, settings) != FullScan(s, data, t, n, settings);
    }
  }

  // Exactly the rows that satisfy the scan are candidates, in frame order.
  lemma {:induction false} ScanMembersAreCandidates(
    s: Strategy, data: seq<Day>, t: nat, n: nat, row: Row, settings: ScanSettings)
    requires t < |data| && n <= |data[t].rows|
    requires row in Scan(s, data, t, n, settings)
    ensures row in data[t].rows[..n] && IsCandidate(s, row, data, settings)
  {
    if row in Scan(s, data, t, n - 1, settings) {
      ScanMembersAreCandidates(s, data, t, n - 1, row, settings);
      assert data[t].rows[..n - 1] == data[t].rows[..n][..n - 1];
    } else {
      assert row == data[t].rows[..n][n - 1];
    }
  }
}
