/**
  Fills. Where a same-day exit fills, how many lots a purchase takes, what costs
  do to a round trip; and over whole runs: every purchase and every sale is one
  that the market of its day allowed, at a price of that day.
 */
module Fills {
  import opened Options
  import opened Market
  import opened Conditions
  import opened Prefilter
  import opened Engine
  import Ledger

  // The day trades at or beyond a level that the position waits for.
  predicate ReachesProfit(t: Trade, row: Row, s: Settings) {
    s.takeProfitPct.Some? && row.high >= ProfitLevel(t, s)
  }

  predicate ReachesStop(t: Trade, row: Row, s: Settings) {
    s.stopLossPct.Some? && row.low <= StopLevel(t, s)
  }

  function ProfitLevel(t: Trade, s: Settings): real
    requires s.takeProfitPct.Some?
  {
    t.buyPrice * (1.0 + s.takeProfitPct.value)
  }

  function StopLevel(t: Trade, s: Settings): real
    requires s.stopLossPct.Some?
  {
    t.buyPrice * (1.0 + s.stopLossPct.value)
  }

  predicate ReachesBothFromBetween(t: Trade, row: Row, s: Settings) {
    && ReachesProfit(t, row, s)
    && ReachesStop(t, row, s)
    && StopLevel(t, s) < row.open < ProfitLevel(t, s)
  }

  // A same-day exit happens exactly when the day's range reaches a level. It fills
  // at a price of that day, never short of the level that fired, at the open if
  // the open is already beyond a level, and at the stop if the day reaches both.
  lemma ExitFillsExactlyWhenRangeReachesLevel(t: Trade, row: Row, s: Settings)
    requires row.low <= row.open <= row.high
    ensures
      var exit := IntradayExit(t, row, s);
      && (exit.Some? <==> ReachesProfit(t, row, s) || ReachesStop(t, row, s))
      && (exit.Some? ==> row.low <= exit.value <= row.high)
      && (exit.Some? ==>
            || (ReachesProfit(t, row, s) && exit.value >= ProfitLevel(t, s))
            || (ReachesStop(t, row, s) && exit.value <= StopLevel(t, s)))
      && (exit.Some? && exit.value != row.open ==>
            && (s.takeProfitPct.Some? ==> row.open < ProfitLevel(t, s))
            && (s.stopLossPct.Some? ==> row.open > StopLevel(t, s)))
      && (ReachesBothFromBetween(t, row, s) ==> exit == Some(StopLevel(t, s)))
  {
  }

  // The planned amount is the largest one within cash, within the position cap
  // and, with equal slots, within an equal share of the cash per free slot.
  lemma PlanIsLargestWithinLimits(s: Settings, cash: real, openCount: nat, equity: real, amount: real)
    ensures
      var slots := if s.maxPositions > openCount then s.maxPositions - openCount else 1;
      amount <= PlannedEntryAmount(s, cash, openCount, equity) <==>
      && amount <= cash
      && amount <= equity * s.positionSizePct
      && (s.sizing == EqualSlots ==> amount * slots as real <= cash)
  {
    var slots := if s.maxPositions > openCount then s.maxPositions - openCount else 1;
    ShareOfCash(amount, cash, slots as real);
  }

  lemma ShareOfCash(amount: real, cash: real, slots: real)
    requires slots > 0.0
    ensures amount <= cash / slots <==> amount * slots <= cash
  {
    var share := cash / slots;
    assert share * slots == cash;
    if amount > share {
      ScaleStrictly(share, amount, slots);
    } else if amount < share {
      ScaleStrictly(amount, share, slots);
    }
  }

  // No open is near both price limits, so a day blocks at most one side.
  lemma LimitsDoNotMeet(row: Row)
    ensures !(OpensNearLimitUp(row) && OpensNearLimitDown(row))
  {
    var pct := LimitPct(row);
    if pct.Some? && row.preClose.Num? {
      ScaleStrictly((1.0 - pct.value) * (1.0 + LIMIT_TOLERANCE), (1.0 + pct.value) * (1.0 - LIMIT_TOLERANCE),
                    row.preClose.value);
    }
  }

  // A purchase takes every whole lot the plan pays for: one more would exceed it.
  lemma LotsAreMaximal(planned: real, cost: real)
    requires cost > 0.0
    ensures (LotShares(planned, cost) + BOARD_LOT_SIZE) as real * cost > planned
  {
    var more := LotShares(planned, cost) + BOARD_LOT_SIZE;
    var q := (planned / cost).Floor;
    assert more >= q + 1;
    assert more as real > planned / cost;
    ScaleStrictly(planned / cost, more as real, cost);
  }

  lemma ScaleStrictly(a: real, b: real, c: real)
    requires a < b && c > 0.0
    ensures a * c < b * c
  {
  }

  // ----- costs

  function Times(a: real, f: real): real {
    a * f
  }

  lemma TimesSign(a: real, f: real)
    requires a > 0.0
    ensures f > 0.0 ==> Times(a, f) > 0.0
    ensures f == 0.0 ==> Times(a, f) == 0.0
    ensures f < 0.0 ==> Times(a, f) < 0.0
  {
  }

  lemma TimesOneMore(a: real, f: real)
    ensures Times(a, f) == a + Times(a, f - 1.0)
  {
  }

  lemma OneFactor(a: real, f: real)
    requires a > 0.0
    ensures f >= 1.0 ==> Times(a, f) >= a
    ensures f <= 1.0 ==> Times(a, f) <= a
    ensures Times(a, f) == a <==> f == 1.0
  {
    hide Times;
    TimesSign(a, f - 1.0);
    TimesOneMore(a, f);
  }

  lemma NothingTimes(f: real)
    ensures Times(0.0, f) == 0.0
  {
  }

  function Scaled(a: real, f: real, g: real): real {
    Times(Times(a, f), g)
  }

  // Two factors of at least one only enlarge, two of at most one only shrink.
  lemma TwoFactors(a: real, f: real, g: real)
    requires a > 0.0
    ensures f >= 1.0 && g >= 1.0 ==> Scaled(a, f, g) >= a && (Scaled(a, f, g) == a <==> f == 1.0 && g == 1.0)
    ensures 0.0 <= f <= 1.0 && 0.0 <= g <= 1.0 ==>
      Scaled(a, f, g) <= a && (Scaled(a, f, g) == a <==> f == 1.0 && g == 1.0)
  {
    hide Times;
    OneFactor(a, f);
    TimesSign(a, f);
    if f > 0.0 {
      OneFactor(Times(a, f), g);
    } else if f == 0.0 {
      assert Times(0.0, g) == 0.0 by { NothingTimes(g); }
    }
  }

  predicate Frictionless(s: Settings) {
    s.feeRate == 0.0 && s.stampTaxRate == 0.0 && (s.conservativeExecution ==> s.slippageRate == 0.0)
  }

  function Slip(s: Settings): real {
    if s.conservativeExecution then s.slippageRate else 0.0
  }

  // Bought at an open and sold at a raw price, a trade gains at most the raw
  // difference, and exactly that when no fee, tax or slippage applies.
  lemma CostsOnlyCost(t: Trade, row: Row, raw: real, s: Settings)
    requires s.Valid() && t.shares > 0 && row.open > 0.0 && raw > 0.0
    ensures
      var paid := t.shares as real * CostPerShare(row, s);
      var gain := Proceeds(t, raw, s) - paid;
      var difference := t.shares as real * raw - t.shares as real * row.open;
      gain <= difference && (gain == difference <==> Frictionless(s))
  {
    hide Proceeds, CostPerShare;
    PaidAtLeast(t.shares as real, row, s);
    ReceivedAtMost(t, raw, s);
  }

  lemma PaidAtLeast(n: real, row: Row, s: Settings)
    requires s.Valid() && n > 0.0 && row.open > 0.0
    ensures n * CostPerShare(row, s) >= n * row.open
    ensures n * CostPerShare(row, s) == n * row.open <==> Slip(s) == 0.0 && s.feeRate == 0.0
  {
    hide Scaled, CostPerShare;
    Ledger.ProductPositive(n, row.open);
    PaidIsScaled(n, row, s);
    TwoFactors(n * row.open, 1.0 + Slip(s), 1.0 + s.feeRate);
  }

  lemma PaidIsScaled(n: real, row: Row, s: Settings)
    ensures n * CostPerShare(row, s) == Scaled(n * row.open, 1.0 + Slip(s), 1.0 + s.feeRate)
  {
    var f, g := 1.0 + Slip(s), 1.0 + s.feeRate;
    assert BuyExecutionPrice(row, s) == row.open * f;
    Regroup(n, row.open, f, g);
  }

  lemma ReceivedAtMost(t: Trade, raw: real, s: Settings)
    requires s.Valid() && t.shares > 0 && raw > 0.0
    ensures Proceeds(t, raw, s) <= t.shares as real * raw
    ensures Proceeds(t, raw, s) == t.shares as real * raw
            <==> Slip(s) == 0.0 && s.feeRate == 0.0 && s.stampTaxRate == 0.0
  {
    hide Scaled, Proceeds;
    Ledger.ProductPositive(t.shares as real, raw);
    ReceivedIsScaled(t, raw, s);
    TwoFactors(t.shares as real * raw, 1.0 - Slip(s), 1.0 - s.feeRate - s.stampTaxRate);
  }

  lemma ReceivedIsScaled(t: Trade, raw: real, s: Settings)
    ensures Proceeds(t, raw, s)
         == Scaled(t.shares as real * raw, 1.0 - Slip(s), 1.0 - s.feeRate - s.stampTaxRate)
  {
    var f, g := 1.0 - Slip(s), 1.0 - s.feeRate - s.stampTaxRate;
    assert SellExecutionPrice(raw, s) == raw * f;
    Regroup(t.shares as real, raw, f, g);
  }

  lemma Regroup(n: real, p: real, f: real, g: real)
    ensures n * (p * f * g) == n * p * f * g
    ensures p * f * n * g == n * p * f * g
  {
  }

  // ----- whole runs

  // Day i raised the signal and the next trading day, i + 1, allowed the purchase.
  ghost predicate PurchaseIsReal(strategy: Strategy, s: Settings, data: seq<Day>, t: Trade, i: nat) {
    && i + 1 < |data|
    && data[i].date == t.buySignalDate && data[i + 1].date == t.buyDate
    && IsCandidate(DayCandidates(strategy, data, i, s.scan), t.symbol)
    && Lookup(data[i + 1].rows, t.symbol).Some?
    && var row := Lookup(data[i + 1].rows, t.symbol).value;
       && !row.suspended
       && !(s.limitUpBlocksBuy && OpensNearLimitUp(row))
       && t.buyPrice == BuyExecutionPrice(row, s)
  }

  ghost predicate IsCandidate(candidates: seq<Row>, symbol: string) {
    exists r :: r in candidates && r.symbol == symbol
  }

  // Day i allowed the sale, at a raw price that traded that day.
  ghost predicate SaleIsReal(s: Settings, data: seq<Day>, t: Trade, i: nat) {
    && i < |data|
    && t.sale.Some? && data[i].date == t.sale.value.date > t.buyDate
    && Lookup(data[i].rows, t.symbol).Some?
    && var row := Lookup(data[i].rows, t.symbol).value;
       && !row.suspended
       && !SellBlocked(row, s)
       && exists raw :: SoldAt(t, raw, s) && row.low <= raw <= row.high
  }

  ghost predicate SoldAt(t: Trade, raw: real, s: Settings) {
    && t.sale.Some?
    && t.sale.value.price == SellExecutionPrice(raw, s)
    && t.sale.value.amount == Proceeds(t, raw, s)
  }

  ghost predicate OpenIsReal(strategy: Strategy, s: Settings, data: seq<Day>, t: Trade) {
    t.sale.None? && exists i :: PurchaseIsReal(strategy, s, data, t, i)
  }

  ghost predicate ClosedIsReal(strategy: Strategy, s: Settings, data: seq<Day>, t: Trade) {
    (exists i :: PurchaseIsReal(strategy, s, data, t, i)) && (exists i :: SaleIsReal(s, data, t, i))
  }

  ghost predicate AllReal(strategy: Strategy, s: Settings, data: seq<Day>, open: seq<Trade>, closed: seq<Trade>) {
    && (forall k :: 0 <= k < |open| ==> OpenIsReal(strategy, s, data, open[k]))
    && (forall k :: 0 <= k < |closed| ==> ClosedIsReal(strategy, s, data, closed[k]))
  }

  lemma SaleOfOne(strategy: Strategy, s: Settings, data: seq<Day>, i: nat, t: Trade)
    requires i < |data| && OpenIsReal(strategy, s, data, t)
    requires forall j :: 0 <= j < |data[i].rows| ==> PositivePrices(data[i].rows[j])
    ensures
      var after := AfterSellPhase(strategy, s, data, data[i], t);
      if after.sale.Some? then ClosedIsReal(strategy, s, data, after) else OpenIsReal(strategy, s, data, after)
  {
    hide DayCandidates, IntradayExit, ExitSignal, HeldDays, Evaluate;
    var after := AfterSellPhase(strategy, s, data, data[i], t);
    var b :| PurchaseIsReal(strategy, s, data, t, b);
    assert PurchaseIsReal(strategy, s, data, after, b);
    if after.sale.Some? {
      var row := Lookup(data[i].rows, t.symbol).value;
      ExitFillsExactlyWhenRangeReachesLevel(t, row, s);
      var raw := ExitPrice(t, data, data[i], row, s).value;
      assert SoldAt(after, raw, s);
      assert SaleIsReal(s, data, after, i);
    }
  }

  lemma {:induction false} SellPhaseKeepsReal(
    strategy: Strategy, s: Settings, data: seq<Day>, i: nat, cash: real, open: seq<Trade>, closed: seq<Trade>)
    requires i < |data| && AllReal(strategy, s, data, open, closed)
    requires forall j :: 0 <= j < |data[i].rows| ==> PositivePrices(data[i].rows[j])
    ensures
      var b := SellPhase(strategy, s, data, data[i], cash, open, closed);
      AllReal(strategy, s, data, b.open, b.closed)
  {
    hide AfterSellPhase, OpenIsReal, ClosedIsReal, PositivePrices;
    if open != [] {
      SellPhaseKeepsReal(strategy, s, data, i, cash, open[..|open| - 1], closed);
      SaleOfOne(strategy, s, data, i, open[|open| - 1]);
    }
  }

  lemma PurchaseOfOne(strategy: Strategy, s: Settings, data: seq<Day>, i: nat, b: Buying, candidate: Row)
    requires i + 1 < |data| && candidate in DayCandidates(strategy, data, i, s.scan)
    requires AllReal(strategy, s, data, b.open, [])
    ensures AllReal(strategy, s, data, BuyOne(s, data[i].date, data[i + 1], b, candidate).open, [])
  {
    hide DayCandidates, PlannedEntryAmount, LotShares, CostPerShare, BuyExecutionPrice, OpensNearLimitUp, Holds;
    var after := BuyOne(s, data[i].date, data[i + 1], b, candidate);
    if |after.open| > |b.open| {
      var t := after.open[|b.open|];
      assert IsCandidate(DayCandidates(strategy, data, i, s.scan), t.symbol);
      assert PurchaseIsReal(strategy, s, data, t, i);
      assert OpenIsReal(strategy, s, data, t);
      assert forall k :: 0 <= k < |b.open| ==> after.open[k] == b.open[k];
    }
  }

  lemma {:induction false} BuyPhaseKeepsReal(
    strategy: Strategy, s: Settings, data: seq<Day>, i: nat, b: Buying, candidates: seq<Row>)
    requires i + 1 < |data| && AllReal(strategy, s, data, b.open, [])
    requires forall r :: r in candidates ==> r in DayCandidates(strategy, data, i, s.scan)
    ensures AllReal(strategy, s, data, BuyPhase(s, data[i].date, data[i + 1], b, candidates).open, [])
  {
    hide AllReal, BuyOne, DayCandidates;
    if candidates != [] {
      BuyPhaseKeepsReal(strategy, s, data, i, b, candidates[..|candidates| - 1]);
      PurchaseOfOne(strategy, s, data, i, BuyPhase(s, data[i].date, data[i + 1], b, candidates[..|candidates| - 1]),
                    candidates[|candidates| - 1]);
    }
  }

  // A ranking reorders or drops candidates and invents none.
  ghost predicate RanksOnly(rank: Ranking) {
    forall rows, r :: r in rank(rows) ==> r in rows
  }

  lemma PricedDay(data: seq<Day>, t: nat)
    requires PricedFrame(data) && t < |data|
    ensures forall j :: 0 <= j < |data[t].rows| ==> PositivePrices(data[t].rows[j])
  {
  }

  lemma OpenAndClosedApart(strategy: Strategy, s: Settings, data: seq<Day>, open: seq<Trade>, closed: seq<Trade>)
    ensures AllReal(strategy, s, data, open, closed) <==>
            AllReal(strategy, s, data, open, []) && AllReal(strategy, s, data, [], closed)
  {
  }

  lemma StepKeepsReal(strategy: Strategy, s: Settings, rank: Ranking, data: seq<Day>, t: nat, st: State)
    requires SortedDays(data) && PricedFrame(data) && RanksOnly(rank) && t < |data|
    requires AllReal(strategy, s, data, st.open, st.closed)
    ensures
      var end := Step(strategy, s, rank, data, t, st);
      AllReal(strategy, s, data, end.open, end.closed)
  {
    hide SellPhase, BuyPhase, DayCandidates, MarketValue, NextPoint, UpdateCloses, AllReal, PricedFrame, PositivePrices;
    PricedDay(data, t);
    SellPhaseKeepsReal(strategy, s, data, t, st.cash, st.open, st.closed);
    var book := SellDay(strategy, s, data, t, st);
    NextTradeIndexIsFirstLater(data, 0, t);
    OpenAndClosedApart(strategy, s, data, book.open, book.closed);
    if t + 1 < |data| && |book.open| < s.maxPositions {
      var value := MarketValue(book.open, data[t].rows, st.lastClose);
      BuyPhaseKeepsReal(strategy, s, data, t, Buying(book.cash, book.open, 0, value, book.cash + value),
                        rank(DayCandidates(strategy, data, t, s.scan)));
    }
    var end := Step(strategy, s, rank, data, t, st);
    OpenAndClosedApart(strategy, s, data, end.open, end.closed);
  }

  // Over every run: each position was bought on the trading day right after a day
  // that had its symbol among the candidates, at that day's open and where that
  // day allowed it; each closed trade was sold on a later day that allowed it, at
  // a price inside that day's range.
  lemma {:induction false} EveryFillIsReal(strategy: Strategy, s: Settings, rank: Ranking, data: seq<Day>, n: nat)
    requires SortedDays(data) && PricedFrame(data) && RanksOnly(rank) && n <= |data|
    ensures
      var st := Run(strategy, s, rank, data, n);
      AllReal(strategy, s, data, st.open, st.closed)
  {
    hide Run, Step, AllReal, PricedFrame, RanksOnly;
    if n == 0 {
      RunStart(strategy, s, rank, data);
      assert AllReal(strategy, s, data, [], []) by { EmptyIsReal(strategy, s, data); }
    } else {
      EveryFillIsReal(strategy, s, rank, data, n - 1);
      StepKeepsReal(strategy, s, rank, data, n - 1, Run(strategy, s, rank, data, n - 1));
      RunStep(strategy, s, rank, data, n);
    }
  }

  lemma EmptyIsReal(strategy: Strategy, s: Settings, data: seq<Day>)
    ensures AllReal(strategy, s, data, [], [])
  {
  }
}
