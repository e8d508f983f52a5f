/**
  How long a position can stay open. It outlives its holding limit, or a pending
  exit signal, only through days on which its symbol had no row, was suspended
  or opened near the lower limit; without such days it is closed no later than
  the day its inclusive trading-day count reaches max(fixedHoldingDays, 2).
 */
module Holding {
  import opened Options
  import opened Market
  import opened Conditions
  import opened Prefilter
  import opened Engine
  import opened DisabledNodes
  import Discipline
  import Marking

  // The position cannot be sold on this day whatever its signals say.
  predicate Obstructed(t: Trade, d: Day, s: Settings) {
    match Lookup(d.rows, t.symbol)
    case None => true
    case Some(row) => row.suspended || SellBlocked(row, s)
  }

  lemma {:induction false} OpenComesFromSellPhase(
    strategy: Strategy, s: Settings, data: seq<Day>, d: Day, cash: real, open: seq<Trade>, closed: seq<Trade>, x: Trade)
    requires x in SellPhase(strategy, s, data, d, cash, open, closed).open
    ensures exists p :: p in open && x == AfterSellPhase(strategy, s, data, d, p) && x.sale.None?
  {
    hide AfterSellPhase;
    var rest, last := open[..|open| - 1], open[|open| - 1];
    if x in SellPhase(strategy, s, data, d, cash, rest, closed).open {
      OpenComesFromSellPhase(strategy, s, data, d, cash, rest, closed, x);
    } else {
      assert last in open;
    }
  }

  lemma {:induction false} ClosedComesFromSellPhase(
    strategy: Strategy, s: Settings, data: seq<Day>, d: Day, cash: real, open: seq<Trade>, closed: seq<Trade>, x: Trade)
    requires x in SellPhase(strategy, s, data, d, cash, open, closed).closed && x !in closed
    ensures exists p :: p in open && x == AfterSellPhase(strategy, s, data, d, p) && x.sale.Some?
  {
    hide AfterSellPhase;
    var rest, last := open[..|open| - 1], open[|open| - 1];
    if x in SellPhase(strategy, s, data, d, cash, rest, closed).closed {
      ClosedComesFromSellPhase(strategy, s, data, d, cash, rest, closed, x);
    } else {
      assert last in open;
    }
  }

  lemma IntradayExitIgnoresSignal(p: Trade, signal: Option<int>, row: Row, s: Settings)
    ensures IntradayExit(p.(sellSignalDate := signal), row, s) == IntradayExit(p, row, s)
  {
    hide LevelAt;
  }

  // The position stays on day d although it was bought earlier: the sale was
  // obstructed, or it was not due.
  ghost predicate ObstructedOrNotDue(x: Trade, data: seq<Day>, d: Day, s: Settings) {
    || Obstructed(x, d, s)
    || (&& HeldDays(data, x.buyDate, d.date) < s.fixedHoldingDays
        && IntradayExit(x, Lookup(d.rows, x.symbol).value, s).None?
        && (x.sellSignalDate.Some? ==> x.sellSignalDate.value == d.date))
  }

  lemma UnsoldOnlyWhenObstructedOrNotDue(strategy: Strategy, s: Settings, data: seq<Day>, d: Day, p: Trade)
    requires p.buyDate < d.date && AfterSellPhase(strategy, s, data, d, p).sale.None?
    ensures ObstructedOrNotDue(AfterSellPhase(strategy, s, data, d, p), data, d, s)
  {
    hide IntradayExit, SellBlocked, ExitSignal, HeldDays;
    if Sellable(p, d) {
      IntradayExitIgnoresSignal(p, Some(d.date), Lookup(d.rows, p.symbol).value, s);
    }
  }

  // Why a position bought earlier is still open after a day's sell phase:
  // either the day obstructed its sale, or it has not reached its holding limit,
  // touched no price level, and carries no exit signal older than today's.
  lemma OpenOnlyWhenObstructedOrNotDue(
    strategy: Strategy, s: Settings, rank: Ranking, data: seq<Day>, t: nat, x: Trade)
    requires t < |data|
    requires x in Midday(strategy, s, rank, data, t).open && x.buyDate < data[t].date
    ensures ObstructedOrNotDue(x, data, data[t], s)
  {
    hide Run, SellPhase, AfterSellPhase, ObstructedOrNotDue;
    var st := Run(strategy, s, rank, data, t);
    OpenComesFromSellPhase(strategy, s, data, data[t], st.cash, st.open, st.closed, x);
    var p :| p in st.open && x == AfterSellPhase(strategy, s, data, data[t], p) && x.sale.None?;
    KeepsBuyDate(strategy, s, data, data[t], p);
    UnsoldOnlyWhenObstructedOrNotDue(strategy, s, data, data[t], p);
  }

  lemma KeepsBuyDate(strategy: Strategy, s: Settings, data: seq<Day>, d: Day, p: Trade)
    ensures AfterSellPhase(strategy, s, data, d, p).buyDate == p.buyDate
    ensures AfterSellPhase(strategy, s, data, d, p).symbol == p.symbol
  {
    hide ExitPrice, SellBlocked, ExitSignal;
  }

  // ----- positions without obstructions

  // No day after the purchase and before the given date obstructs the position.
  ghost predicate FreeBefore(x: Trade, data: seq<Day>, s: Settings, until: int) {
    forall k :: 0 <= k < |data| && x.buyDate < data[k].date < until ==> !Obstructed(x, data[k], s)
  }

  function HoldingLimit(s: Settings): int {
    if s.fixedHoldingDays >= 2 then s.fixedHoldingDays else 2
  }

  // A disabled exit rule signals on the first day the position can be sold.
  function ClosingLimit(strategy: Strategy, s: Settings): int {
    if AllEnabled(strategy.exitRules) || HoldingLimit(s) <= 3 then HoldingLimit(s) else 3
  }

  lemma {:induction false} HeldOnBuyDate(data: seq<Day>, i: nat)
    requires SortedDays(data) && i < |data|
    ensures HeldDays(data, data[i].date, data[i].date) <= 1
  {
    HeldBetween(data, i, i);
  }

  // From day i to day k there are k - i + 1 trading days.
  lemma {:induction false} HeldBetween(data: seq<Day>, i: nat, k: nat)
    requires SortedDays(data) && i <= k < |data|
    ensures HeldDays(data, data[i].date, data[k].date) == k - i + 1
  {
    var n := |data| - 1;
    if k < n {
      HeldBetween(data[..n], i, k);
    } else if i < k {
      HeldBetween(data[..n], i, k - 1);
      SameCount(data[..n], data[i].date, data[k - 1].date, data[k].date);
    } else {
      NoneHeld(data[..n], data[i].date, data[k].date);
    }
  }

  lemma {:induction false} SameCount(data: seq<Day>, from: int, to: int, later: int)
    requires to <= later && forall i :: 0 <= i < |data| ==> data[i].date <= to
    ensures HeldDays(data, from, to) == HeldDays(data, from, later)
  {
    if data != [] {
      SameCount(data[..|data| - 1], from, to, later);
    }
  }

  lemma {:induction false} NoneHeld(data: seq<Day>, from: int, to: int)
    requires forall i :: 0 <= i < |data| ==> data[i].date < from
    ensures HeldDays(data, from, to) == 0
  {
    if data != [] {
      NoneHeld(data[..|data| - 1], from, to);
    }
  }

  // ----- a disabled exit rule closes everything on the third day

  // A disabled node counts as passed, so among the exit rules it raises a
  // signal for every position on every day.
  lemma DisabledExitRuleAlwaysSignals(rules: seq<Node>, row: Row, data: seq<Day>, i: nat)
    requires i < |rules| && !rules[i].enabled
    ensures ExitSignal(rules, row, data)
  {
    assert rules[i] in rules && Evaluate(rules[i], row, data);
  }

  lemma UnsoldIsSignalled(strategy: Strategy, s: Settings, data: seq<Day>, d: Day, p: Trade)
    requires !AllEnabled(strategy.exitRules)
    requires p.buyDate < d.date && !Obstructed(p, d, s) && AfterSellPhase(strategy, s, data, d, p).sale.None?
    ensures p.sellSignalDate.None? && AfterSellPhase(strategy, s, data, d, p).sellSignalDate.Some?
  {
    hide IntradayExit, SellBlocked, HeldDays, Evaluate;
    var i :| 0 <= i < |strategy.exitRules| && !strategy.exitRules[i].enabled;
    DisabledExitRuleAlwaysSignals(strategy.exitRules, Lookup(d.rows, p.symbol).value, data, i);
  }

  // A position open at midday, as it entered the day.
  lemma EnteredAs(strategy: Strategy, s: Settings, rank: Ranking, data: seq<Day>, t: nat, x: Trade) returns (p: Trade)
    requires t < |data| && x in Midday(strategy, s, rank, data, t).open
    ensures p in Run(strategy, s, rank, data, t).open
    ensures x == AfterSellPhase(strategy, s, data, data[t], p) && x.sale.None?
    ensures p.buyDate == x.buyDate && p.symbol == x.symbol
  {
    hide Run, SellPhase, AfterSellPhase;
    var st := Run(strategy, s, rank, data, t);
    OpenComesFromSellPhase(strategy, s, data, data[t], st.cash, st.open, st.closed, x);
    p :| p in st.open && x == AfterSellPhase(strategy, s, data, data[t], p) && x.sale.None?;
    KeepsBuyDate(strategy, s, data, data[t], p);
  }

  // A position that entered the day was open at midday before, or is new today.
  lemma HeldOrNew(strategy: Strategy, s: Settings, rank: Ranking, data: seq<Day>, t: nat, p: Trade)
    requires SortedDays(data) && 0 < t < |data| && p in Run(strategy, s, rank, data, t).open
    ensures p in Midday(strategy, s, rank, data, t - 1).open || p.buyDate == data[t].date
  {
    hide Run, Midday, Step, SellDay;
    RunStep(strategy, s, rank, data, t);
    OpenAfterStep(strategy, s, rank, data, t - 1, Run(strategy, s, rank, data, t - 1), p);
    MiddayIs(strategy, s, rank, data, t - 1);
  }

  // No position stays open to a third unobstructed day.
  lemma {:induction false} DisabledRuleLeavesTwoDays(
    strategy: Strategy, s: Settings, rank: Ranking, data: seq<Day>, t: nat, x: Trade, i: nat)
    requires WellFormed(data) && i + 2 <= t < |data| && data[i].date == x.buyDate
    requires !AllEnabled(strategy.exitRules) && FreeBefore(x, data, s, data[t].date + 1)
    ensures x !in Midday(strategy, s, rank, data, t).open
  {
    hide Run, Midday, AfterSellPhase, Obstructed;
    if x in Midday(strategy, s, rank, data, t).open {
      var p := EnteredAs(strategy, s, rank, data, t, x);
      SameSymbolSameObstacle(p, x, data, s);
      UnsoldIsSignalled(strategy, s, data, data[t], p);
      HeldOrNew(strategy, s, rank, data, t, p);
      var q := EnteredAs(strategy, s, rank, data, t - 1, p);
      SameSymbolSameObstacle(q, x, data, s);
      UnsoldIsSignalled(strategy, s, data, data[t - 1], q);
    }
  }

  lemma SameSymbolSameObstacle(p: Trade, x: Trade, data: seq<Day>, s: Settings)
    requires p.symbol == x.symbol
    ensures forall k :: 0 <= k < |data| ==> (Obstructed(p, data[k], s) <==> Obstructed(x, data[k], s))
  {
    hide SellBlocked;
  }

  // ----- the holding bound

  // A position still open at midday, on an unobstructed day, is below the limit.
  lemma {:induction false} OpenIsBelowLimit(
    strategy: Strategy, s: Settings, rank: Ranking, data: seq<Day>, t: nat, x: Trade)
    requires s.Valid() && WellFormed(data) && t < |data|
    requires x in Midday(strategy, s, rank, data, t).open && FreeBefore(x, data, s, data[t].date + 1)
    ensures HeldDays(data, x.buyDate, data[t].date) < ClosingLimit(strategy, s)
  {
    hide Run, Midday, HeldDays, Obstructed, Lookup;
    Marking.OriginsOfRun(strategy, s, rank, data, t);
    assert Marking.BoughtBy(x, data, t);
    var i :| 0 <= i <= t && i < |data| && data[i].date == x.buyDate && Lookup(data[i].rows, x.symbol).Some?;
    HeldBetween(data, i, t);
    if i < t {
      assert !Obstructed(x, data[t], s);
      OpenOnlyWhenObstructedOrNotDue(strategy, s, rank, data, t, x);
      if i + 2 <= t && !AllEnabled(strategy.exitRules) {
        DisabledRuleLeavesTwoDays(strategy, s, rank, data, t, x, i);
      }
    }
  }

  // A position that enters day t is at most at the limit on that day.
  lemma {:induction false} EnteringDayAtMostAtLimit(
    strategy: Strategy, s: Settings, rank: Ranking, data: seq<Day>, t: nat, x: Trade)
    requires s.Valid() && WellFormed(data) && t < |data|
    requires x in Run(strategy, s, rank, data, t).open && FreeBefore(x, data, s, data[t].date)
    ensures HeldDays(data, x.buyDate, data[t].date) <= ClosingLimit(strategy, s)
  {
    hide Run, Midday, HeldDays, Obstructed, Lookup;
    if t == 0 {
      RunStart(strategy, s, rank, data);
    } else {
      HeldOrNew(strategy, s, rank, data, t, x);
      if x.buyDate == data[t].date {
        HeldOnBuyDate(data, t);
      } else {
        assert data[t - 1].date < data[t].date;
        OpenIsBelowLimit(strategy, s, rank, data, t - 1, x);
        Marking.OriginsOfRun(strategy, s, rank, data, t - 1);
        assert Marking.BoughtBy(x, data, t - 1);
        var i :| 0 <= i <= t - 1 && i < |data| && data[i].date == x.buyDate && Lookup(data[i].rows, x.symbol).Some?;
        HeldBetween(data, i, t - 1);
        HeldBetween(data, i, t);
      }
    }
  }

  lemma MiddayIs(strategy: Strategy, s: Settings, rank: Ranking, data: seq<Day>, t: nat)
    requires t < |data|
    ensures Midday(strategy, s, rank, data, t) == SellDay(strategy, s, data, t, Run(strategy, s, rank, data, t))
  {
    hide Run, SellDay;
  }

  lemma {:induction false} BoughtOrHeld(s: Settings, today: int, next: Day, b: Buying, candidates: seq<Row>, x: Trade)
    requires x in BuyPhase(s, today, next, b, candidates).open
    ensures x in b.open || x.buyDate == next.date
  {
    hide PlannedEntryAmount, LotShares, BuyRow, Holds;
    if candidates != [] && x in BuyPhase(s, today, next, b, candidates[..|candidates| - 1]).open {
      BoughtOrHeld(s, today, next, b, candidates[..|candidates| - 1], x);
    }
  }

  // A position open after a day was open at midday, or is bought for the next day.
  lemma OpenAfterStep(strategy: Strategy, s: Settings, rank: Ranking, data: seq<Day>, t: nat, st: State, x: Trade)
    requires SortedDays(data) && t < |data| && x in Step(strategy, s, rank, data, t, st).open
    ensures x in SellDay(strategy, s, data, t, st).open || (t + 1 < |data| && x.buyDate == data[t + 1].date)
  {
    hide SellDay, BuyPhase, Scan, MarketValue, NextPoint;
    NextTradeIndexIsFirstLater(data, 0, t);
    var book := SellDay(strategy, s, data, t, st);
    if x !in book.open {
      var value := MarketValue(book.open, data[t].rows, st.lastClose);
      BoughtOrHeld(s, data[t].date, data[t + 1], Buying(book.cash, book.open, 0, value, book.cash + value),
                   rank(DayCandidates(strategy, data, t, s.scan)), x);
    }
  }

  lemma SoldToday(strategy: Strategy, s: Settings, data: seq<Day>, d: Day, p: Trade)
    requires p.sale.None?
    ensures
      var x := AfterSellPhase(strategy, s, data, d, p);
      x.buyDate == p.buyDate && x.symbol == p.symbol && (x.sale.Some? ==> x.sale.value.date == d.date)
  {
    hide ExitPrice, SellBlocked, ExitSignal;
  }

  // A trade that no day obstructed between purchase and sale is closed no later
  // than the day its inclusive trading-day count reaches the limit; with a
  // disabled exit rule that is the third day at the latest.
  lemma {:induction false} ClosedWithinLimit(
    strategy: Strategy, s: Settings, rank: Ranking, data: seq<Day>, n: nat, x: Trade)
    requires s.Valid() && WellFormed(data) && n <= |data|
    requires x in Run(strategy, s, rank, data, n).closed
    ensures x.sale.Some?
    ensures FreeBefore(x, data, s, x.sale.value.date) ==>
      HeldDays(data, x.buyDate, x.sale.value.date) <= ClosingLimit(strategy, s)
  {
    hide Run, HeldDays, SellPhase, AfterSellPhase, BuyDay, NextPoint, Obstructed, ClosingLimit;
    if n == 0 {
      RunStart(strategy, s, rank, data);
    } else {
      RunStep(strategy, s, rank, data, n);
      var t, st := n - 1, Run(strategy, s, rank, data, n - 1);
      if x in st.closed {
        ClosedWithinLimit(strategy, s, rank, data, t, x);
      } else {
        ClosedComesFromSellPhase(strategy, s, data, data[t], st.cash, st.open, st.closed, x);
        var p :| p in st.open && x == AfterSellPhase(strategy, s, data, data[t], p) && x.sale.Some?;
        Discipline.EveryRunIsDisciplined(strategy, s, rank, data, t, data[t].date);
        assert Discipline.OpenInOrder(p, data[t].date);
        SoldToday(strategy, s, data, data[t], p);
        if FreeBefore(x, data, s, data[t].date) {
          SameSymbolSameObstacle(p, x, data, s);
          EnteringDayAtMostAtLimit(strategy, s, rank, data, t, p);
        }
      }
    }
  }
}
