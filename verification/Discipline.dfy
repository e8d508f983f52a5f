/**
  Position discipline over whole runs: slots, distinct symbols, daily purchase
  limit, the order of the four dates of a trade, and holding periods of one
  symbol that never overlap.
 */
module Discipline {
  import opened Options
  import opened Market
  import opened Conditions
  import opened Prefilter
  import opened Engine

  // ----- single trades; all dates but the purchase lie before the bound

  ghost predicate OpenInOrder(t: Trade, bound: int) {
    && t.sale.None?
    && t.buySignalDate < t.buyDate && t.buySignalDate < bound
    && (t.sellSignalDate.Some? ==> t.buyDate < t.sellSignalDate.value < bound)
  }

  ghost predicate ClosedInOrder(t: Trade, bound: int) {
    && t.sale.Some? && t.sellSignalDate.Some?
    && t.buySignalDate < t.buyDate < t.sellSignalDate.value <= t.sale.value.date < bound
  }

  // ----- holding periods

  ghost predicate EndsBefore(a: Trade, b: Trade) {
    a.sale.Some? && a.sale.value.date < b.buyDate
  }

  ghost predicate Apart(a: Trade, b: Trade) {
    a.symbol == b.symbol ==> EndsBefore(a, b) || EndsBefore(b, a)
  }

  ghost predicate ApartFromAll(ts: seq<Trade>, t: Trade) {
    forall x :: x in ts ==> Apart(x, t)
  }

  // No two holding periods of one symbol overlap; two open positions, having
  // no end, can then not share a symbol.
  ghost predicate NoOverlap(open: seq<Trade>, closed: seq<Trade>) {
    && (forall i, j :: 0 <= i < j < |open| ==> Apart(open[i], open[j]))
    && (forall i, j :: 0 <= i < j < |closed| ==> Apart(closed[i], closed[j]))
    && (forall x :: x in open ==> ApartFromAll(closed, x))
  }

  // How many trades were bought on a signal of the given date.
  function SignalCount(ts: seq<Trade>, date: int): nat {
    if ts == [] then 0
    else SignalCount(ts[..|ts| - 1], date) + if ts[|ts| - 1].buySignalDate == date then 1 else 0
  }

  lemma SignalCountOfAppend(ts: seq<Trade>, t: Trade, date: int)
    ensures SignalCount(ts + [t], date) == SignalCount(ts, date) + if t.buySignalDate == date then 1 else 0
  {
    assert (ts + [t])[..|ts|] == ts;
  }

  lemma {:induction false} NoSignalsAtBound(ts: seq<Trade>, date: int)
    requires forall t :: t in ts ==> t.buySignalDate < date
    ensures SignalCount(ts, date) == 0
  {
    if ts != [] {
      NoSignalsAtBound(ts[..|ts| - 1], date);
    }
  }

  ghost predicate Ordered(open: seq<Trade>, closed: seq<Trade>, bound: int) {
    && (forall t :: t in open ==> OpenInOrder(t, bound))
    && (forall t :: t in closed ==> ClosedInOrder(t, bound))
  }

  ghost predicate WithinDailyLimit(open: seq<Trade>, closed: seq<Trade>, s: Settings) {
    forall d :: SignalCount(open, d) + SignalCount(closed, d) <= s.maxDailyBuys
  }

  ghost predicate Disciplined(open: seq<Trade>, closed: seq<Trade>, s: Settings, bound: int) {
    && |open| <= s.maxPositions
    && Ordered(open, closed, bound)
    && NoOverlap(open, closed)
    && WithinDailyLimit(open, closed, s)
  }

  // ----- selling

  lemma SellingKeepsOrder(strategy: Strategy, s: Settings, data: seq<Day>, d: Day, t: Trade)
    requires OpenInOrder(t, d.date)
    ensures
      var after := AfterSellPhase(strategy, s, data, d, t);
      && after.symbol == t.symbol && after.buySignalDate == t.buySignalDate && after.buyDate == t.buyDate
      && (if after.sale.Some? then ClosedInOrder(after, d.date + 1) else OpenInOrder(after, d.date + 1))
  {
    hide IntradayExit, SellBlocked, ExitSignal, HeldDays;
  }

  // A trade apart from the book before selling is apart from it afterwards.
  lemma {:induction false} SellPhaseKeepsApart(
    strategy: Strategy, s: Settings, data: seq<Day>, d: Day,
    cash: real, open: seq<Trade>, closed: seq<Trade>, x: Trade)
    requires forall t :: t in open ==> OpenInOrder(t, d.date)
    requires ApartFromAll(open, x) && ApartFromAll(closed, x)
    ensures
      var b := SellPhase(strategy, s, data, d, cash, open, closed);
      ApartFromAll(b.open, x) && ApartFromAll(b.closed, x)
  {
    hide AfterSellPhase;
    if open != [] {
      var last := open[|open| - 1];
      SellPhaseKeepsApart(strategy, s, data, d, cash, open[..|open| - 1], closed, x);
      SellingKeepsOrder(strategy, s, data, d, last);
      assert Apart(last, x);
    }
  }

  // The same, when the trade itself goes through the sell phase.
  lemma ApartSurvivesOwnSale(strategy: Strategy, s: Settings, data: seq<Day>, d: Day, ts: seq<Trade>, t: Trade)
    requires OpenInOrder(t, d.date) && ApartFromAll(ts, t)
    ensures ApartFromAll(ts, AfterSellPhase(strategy, s, data, d, t))
  {
    hide AfterSellPhase;
    SellingKeepsOrder(strategy, s, data, d, t);
    forall x | x in ts
      ensures Apart(x, AfterSellPhase(strategy, s, data, d, t))
    {
      assert Apart(x, t);
    }
  }

  lemma {:induction false} SellPhaseKeepsDiscipline(
    strategy: Strategy, s: Settings, data: seq<Day>, d: Day, cash: real, open: seq<Trade>, closed: seq<Trade>)
    requires Ordered(open, closed, d.date) && NoOverlap(open, closed)
    ensures
      var b := SellPhase(strategy, s, data, d, cash, open, closed);
      && |b.open| <= |open|
      && Ordered(b.open, b.closed, d.date + 1)
      && NoOverlap(b.open, b.closed)
  {
    hide AfterSellPhase;
    if open != [] {
      var rest, last := open[..|open| - 1], open[|open| - 1];
      SellPhaseKeepsDiscipline(strategy, s, data, d, cash, rest, closed);
      SellingKeepsOrder(strategy, s, data, d, last);
      assert last in open;
      assert ApartFromAll(rest, last);
      SellPhaseKeepsApart(strategy, s, data, d, cash, rest, closed, last);
      var b := SellPhase(strategy, s, data, d, cash, rest, closed);
      ApartSurvivesOwnSale(strategy, s, data, d, b.open, last);
      ApartSurvivesOwnSale(strategy, s, data, d, b.closed, last);
    }
  }

  lemma {:induction false} SellPhaseKeepsSignalCount(
    strategy: Strategy, s: Settings, data: seq<Day>, d: Day,
    cash: real, open: seq<Trade>, closed: seq<Trade>, date: int)
    requires forall t :: t in open ==> OpenInOrder(t, d.date)
    ensures
      var b := SellPhase(strategy, s, data, d, cash, open, closed);
      SignalCount(b.open, date) + SignalCount(b.closed, date) == SignalCount(open, date) + SignalCount(closed, date)
  {
    hide AfterSellPhase;
    if open != [] {
      var rest, last := open[..|open| - 1], open[|open| - 1];
      SellPhaseKeepsSignalCount(strategy, s, data, d, cash, rest, closed, date);
      SellingKeepsOrder(strategy, s, data, d, last);
      var b := SellPhase(strategy, s, data, d, cash, rest, closed);
      SignalCountOfAppend(b.open, AfterSellPhase(strategy, s, data, d, last), date);
      SignalCountOfAppend(b.closed, AfterSellPhase(strategy, s, data, d, last), date);
    }
  }

  // ----- buying

  // What the buy phase keeps: b.count purchases on today's signal so far.
  ghost predicate BuyingDisciplined(b: Buying, closed: seq<Trade>, s: Settings, today: int) {
    && |b.open| <= s.maxPositions
    && Ordered(b.open, closed, today + 1)
    && NoOverlap(b.open, closed)
    && SignalCount(b.open, today) == b.count <= s.maxDailyBuys
  }

  // Adding a purchase that starts after every sale, in a symbol not held.
  lemma PurchaseKeepsOrder(open: seq<Trade>, closed: seq<Trade>, t: Trade, today: int)
    requires Ordered(open, closed, today + 1) && NoOverlap(open, closed)
    requires t.sale.None? && t.sellSignalDate.None? && t.buySignalDate == today < t.buyDate
    requires !Holds(open, t.symbol)
    ensures Ordered(open + [t], closed, today + 1) && NoOverlap(open + [t], closed)
  {
    forall x | x in closed
      ensures Apart(x, t)
    {
      assert ClosedInOrder(x, today + 1);
      assert EndsBefore(x, t);
    }
    forall i | 0 <= i < |open|
      ensures Apart(open[i], t)
    {
      assert open[i].symbol != t.symbol;
    }
  }

  // What one candidate adds to the book: nothing, or one new trade.
  lemma BuyOneAddsAtMostOneTrade(s: Settings, today: int, next: Day, b: Buying, candidate: Row)
    ensures
      var r := BuyOne(s, today, next, b, candidate);
      || (r.open == b.open && r.count == b.count)
      || (&& |b.open| < s.maxPositions && b.count < s.maxDailyBuys
          && |r.open| == |b.open| + 1 && r.open == b.open + [r.open[|b.open|]] && r.count == b.count + 1
          && var t := r.open[|b.open|];
             && t.sale.None? && t.sellSignalDate.None? && t.buySignalDate == today && t.buyDate == next.date
             && t.symbol == candidate.symbol && !Holds(b.open, t.symbol))
  {
    hide PlannedEntryAmount, LotShares, BuyExecutionPrice, OpensNearLimitUp, Holds;
  }

  lemma BuyOneKeepsDiscipline(s: Settings, today: int, next: Day, b: Buying, candidate: Row, closed: seq<Trade>)
    requires today < next.date && BuyingDisciplined(b, closed, s, today)
    ensures
      var r := BuyOne(s, today, next, b, candidate);
      && BuyingDisciplined(r, closed, s, today)
      && (forall d :: d != today ==> SignalCount(r.open, d) == SignalCount(b.open, d))
  {
    hide BuyOne, Ordered, NoOverlap, Holds;
    BuyOneAddsAtMostOneTrade(s, today, next, b, candidate);
    var r := BuyOne(s, today, next, b, candidate);
    if r.open != b.open {
      var bought := r.open[|b.open|];
      forall d
        ensures SignalCount(r.open, d) == SignalCount(b.open, d) + if d == today then 1 else 0
      {
        SignalCountOfAppend(b.open, bought, d);
      }
      PurchaseKeepsOrder(b.open, closed, bought, today);
    }
  }

  lemma {:induction false} BuyPhaseKeepsDiscipline(
    s: Settings, today: int, next: Day, b: Buying, candidates: seq<Row>, closed: seq<Trade>)
    requires today < next.date && BuyingDisciplined(b, closed, s, today)
    ensures
      var r := BuyPhase(s, today, next, b, candidates);
      && BuyingDisciplined(r, closed, s, today)
      && (forall d :: d != today ==> SignalCount(r.open, d) == SignalCount(b.open, d))
  {
    hide BuyOne, BuyingDisciplined;
    if candidates != [] {
      var rest := candidates[..|candidates| - 1];
      BuyPhaseKeepsDiscipline(s, today, next, b, rest, closed);
      BuyOneKeepsDiscipline(s, today, next, BuyPhase(s, today, next, b, rest), candidates[|candidates| - 1], closed);
    }
  }

  // ----- whole runs

  lemma SellDayKeepsDiscipline(strategy: Strategy, s: Settings, data: seq<Day>, t: nat, st: State)
    requires t < |data| && Disciplined(st.open, st.closed, s, data[t].date)
    ensures
      var book := SellDay(strategy, s, data, t, st);
      && Disciplined(book.open, book.closed, s, data[t].date + 1)
      && SignalCount(book.open, data[t].date) == SignalCount(book.closed, data[t].date) == 0
  {
    hide SellPhase, NoOverlap, Ordered;
    var today := data[t].date;
    var book := SellDay(strategy, s, data, t, st);
    SellPhaseKeepsDiscipline(strategy, s, data, data[t], st.cash, st.open, st.closed);
    assert Ordered(st.open, st.closed, today);
    forall d
      ensures SignalCount(book.open, d) + SignalCount(book.closed, d)
              == SignalCount(st.open, d) + SignalCount(st.closed, d)
    {
      OpenPart(st.open, st.closed, today);
      SellPhaseKeepsSignalCount(strategy, s, data, data[t], st.cash, st.open, st.closed, d);
    }
    OpenPart(st.open, st.closed, today);
    NoSignalsAtBound(st.open, today);
    NoSignalsAtBound(st.closed, today);
  }

  lemma OpenPart(open: seq<Trade>, closed: seq<Trade>, bound: int)
    requires Ordered(open, closed, bound)
    ensures forall t :: t in open ==> OpenInOrder(t, bound) && t.buySignalDate < bound
    ensures forall t :: t in closed ==> ClosedInOrder(t, bound)
    ensures bound <= bound && forall t :: t in closed ==> t.buySignalDate < bound
  {
  }

  lemma DayKeepsDiscipline(strategy: Strategy, s: Settings, rank: Ranking, data: seq<Day>, t: nat, st: State)
    requires s.Valid() && SortedDays(data) && t < |data|
    requires Disciplined(st.open, st.closed, s, data[t].date)
    ensures
      var end := Step(strategy, s, rank, data, t, st);
      Disciplined(end.open, end.closed, s, data[t].date + 1)
  {
    hide SellDay, BuyPhase, SignalCount, NoOverlap, Ordered;
    var today := data[t].date;
    var book := SellDay(strategy, s, data, t, st);
    SellDayKeepsDiscipline(strategy, s, data, t, st);
    NextTradeIndexIsFirstLater(data, 0, t);
    if t + 1 < |data| {
      var value := MarketValue(book.open, data[t].rows, st.lastClose);
      var start := Buying(book.cash, book.open, 0, value, book.cash + value);
      BuyPhaseKeepsDiscipline(s, today, data[t + 1], start,
                              rank(DayCandidates(strategy, data, t, s.scan)), book.closed);
    }
  }

  lemma LaterBound(open: seq<Trade>, closed: seq<Trade>, s: Settings, bound: int, later: int)
    requires Disciplined(open, closed, s, bound) && bound <= later
    ensures Disciplined(open, closed, s, later)
  {
    hide NoOverlap, WithinDailyLimit;
  }

  // Discipline on every day of every run.
  lemma {:induction false} EveryRunIsDisciplined(
    strategy: Strategy, s: Settings, rank: Ranking, data: seq<Day>, n: nat, bound: int)
    requires s.Valid() && SortedDays(data) && n <= |data|
    requires forall i :: 0 <= i < n ==> data[i].date < bound
    ensures
      var st := Run(strategy, s, rank, data, n);
      Disciplined(st.open, st.closed, s, bound)
  {
    hide Step, NoOverlap;
    if n > 0 {
      EveryRunIsDisciplined(strategy, s, rank, data, n - 1, data[n - 1].date);
      var before := Run(strategy, s, rank, data, n - 1);
      DayKeepsDiscipline(strategy, s, rank, data, n - 1, before);
      var end := Step(strategy, s, rank, data, n - 1, before);
      LaterBound(end.open, end.closed, s, data[n - 1].date + 1, bound);
    } else {
      EmptyBookIsDisciplined(s, bound);
    }
  }

  lemma EmptyBookIsDisciplined(s: Settings, bound: int)
    requires s.Valid()
    ensures Disciplined([], [], s, bound)
  {
  }

  // Two open positions never share a symbol.
  lemma OpenSymbolsAreDistinct(open: seq<Trade>, closed: seq<Trade>, s: Settings, bound: int, i: nat, j: nat)
    requires Disciplined(open, closed, s, bound) && i < j < |open|
    ensures open[i].symbol != open[j].symbol
  {
    assert OpenInOrder(open[i], bound) && OpenInOrder(open[j], bound);
    assert Apart(open[i], open[j]);
  }
}
