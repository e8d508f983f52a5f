/**
  Marking and drawdown. Every valued position is priced at its symbol's latest
  close on or after its buy date, so the purchase-price fallback is never used;
  equity is never negative; and the running-peak drawdown equals its definition.
 */
module Marking {
  import opened Options
  import opened Market
  import opened Conditions
  import opened Prefilter
  import opened Engine
  import Ledger

  // ----- the last-close table

  ghost predicate LastClosesAre(lastClose: map<string, real>, days: seq<Day>) {
    forall symbol ::
      && (symbol in lastClose <==> SymbolRows(days, symbol) != [])
      && (symbol in lastClose ==> lastClose[symbol] == LastOf(SymbolRows(days, symbol)).value.close)
  }

  lemma {:induction false} UpdateClosesByLookup(lastClose: map<string, real>, rows: seq<Row>, symbol: string)
    ensures
      var updated := UpdateCloses(lastClose, rows);
      match Lookup(rows, symbol)
      case Some(row) => symbol in updated && updated[symbol] == row.close
      case None => (symbol in updated <==> symbol in lastClose)
                   && (symbol in lastClose ==> updated[symbol] == lastClose[symbol])
  {
    if rows != [] {
      UpdateClosesByLookup(lastClose, rows[..|rows| - 1], symbol);
    }
  }

  lemma DayKeepsLastCloses(lastClose: map<string, real>, days: seq<Day>, t: nat)
    requires t < |days| && LastClosesAre(lastClose, days[..t])
    ensures LastClosesAre(UpdateCloses(lastClose, days[t].rows), days[..t + 1])
  {
    assert days[..t + 1][..t] == days[..t];
    forall symbol
      ensures
        var updated := UpdateCloses(lastClose, days[t].rows);
        && (symbol in updated <==> SymbolRows(days[..t + 1], symbol) != [])
        && (symbol in updated ==> updated[symbol] == LastOf(SymbolRows(days[..t + 1], symbol)).value.close)
    {
      UpdateClosesByLookup(lastClose, days[t].rows, symbol);
    }
  }

  lemma {:induction false} LastClosesOfRun(strategy: Strategy, s: Settings, rank: Ranking, data: seq<Day>, n: nat)
    requires n <= |data|
    ensures LastClosesAre(Run(strategy, s, rank, data, n).lastClose, data[..n])
  {
    hide SellDay, BuyDay, NextPoint, LastClosesAre, UpdateCloses;
    if n > 0 {
      LastClosesOfRun(strategy, s, rank, data, n - 1);
      DayKeepsLastCloses(Run(strategy, s, rank, data, n - 1).lastClose, data, n - 1);
    } else {
      NoCloses(data);
    }
  }

  lemma NoCloses(data: seq<Day>)
    ensures LastClosesAre(map[], data[..0])
  {
  }

  // ----- where positions come from

  // The trade was bought on one of the first k + 1 days, on a row of its symbol.
  ghost predicate BoughtBy(t: Trade, data: seq<Day>, k: nat) {
    exists i :: 0 <= i <= k && i < |data| && data[i].date == t.buyDate && Lookup(data[i].rows, t.symbol).Some?
  }

  ghost predicate AllBoughtBy(ts: seq<Trade>, data: seq<Day>, k: nat) {
    forall t :: t in ts ==> BoughtBy(t, data, k)
  }

  lemma {:induction false} SellPhaseKeepsOrigins(
    strategy: Strategy, s: Settings, data: seq<Day>, d: Day, cash: real, open: seq<Trade>, closed: seq<Trade>, k: nat)
    requires AllBoughtBy(open, data, k)
    ensures AllBoughtBy(SellPhase(strategy, s, data, d, cash, open, closed).open, data, k)
  {
    hide Sellable, ExitPrice, SellBlocked, ExitSignal, Lookup;
    if open != [] {
      SellPhaseKeepsOrigins(strategy, s, data, d, cash, open[..|open| - 1], closed, k);
      assert BoughtBy(open[|open| - 1], data, k);
    }
  }

  lemma {:induction false} BuyPhaseKeepsOrigins(
    s: Settings, today: int, data: seq<Day>, next: nat, b: Buying, candidates: seq<Row>)
    requires next < |data| && AllBoughtBy(b.open, data, next)
    ensures AllBoughtBy(BuyPhase(s, today, data[next], b, candidates).open, data, next)
  {
    hide PlannedEntryAmount, LotShares, Holds, OpensNearLimitUp, BuyExecutionPrice;
    if candidates != [] {
      BuyPhaseKeepsOrigins(s, today, data, next, b, candidates[..|candidates| - 1]);
    }
  }

  lemma OriginsGrow(ts: seq<Trade>, data: seq<Day>, k: nat, m: nat)
    requires AllBoughtBy(ts, data, k) && k <= m
    ensures AllBoughtBy(ts, data, m)
  {
  }

  lemma StepKeepsOrigins(strategy: Strategy, s: Settings, rank: Ranking, data: seq<Day>, t: nat, st: State)
    requires SortedDays(data) && t < |data| && AllBoughtBy(st.open, data, t)
    ensures AllBoughtBy(SellDay(strategy, s, data, t, st).open, data, t)
    ensures AllBoughtBy(Step(strategy, s, rank, data, t, st).open, data, t + 1)
  {
    hide SellPhase, BuyPhase, Scan, MarketValue, AllBoughtBy, NextPoint;
    SellPhaseKeepsOrigins(strategy, s, data, data[t], st.cash, st.open, st.closed, t);
    var book := SellDay(strategy, s, data, t, st);
    OriginsGrow(book.open, data, t, t + 1);
    NextTradeIndexIsFirstLater(data, 0, t);
    if t + 1 < |data| {
      var value := MarketValue(book.open, data[t].rows, st.lastClose);
      BuyPhaseKeepsOrigins(s, data[t].date, data, t + 1, Buying(book.cash, book.open, 0, value, book.cash + value),
                           rank(DayCandidates(strategy, data, t, s.scan)));
    }
  }

  lemma {:induction false} OriginsOfRun(strategy: Strategy, s: Settings, rank: Ranking, data: seq<Day>, n: nat)
    requires SortedDays(data) && n <= |data|
    ensures AllBoughtBy(Run(strategy, s, rank, data, n).open, data, n)
    ensures n < |data| ==> AllBoughtBy(Midday(strategy, s, rank, data, n).open, data, n)
  {
    hide Step, SellDay;
    if n > 0 {
      OriginsOfRun(strategy, s, rank, data, n - 1);
      StepKeepsOrigins(strategy, s, rank, data, n - 1, Run(strategy, s, rank, data, n - 1));
    }
    if n < |data| {
      StepKeepsOrigins(strategy, s, rank, data, n, Run(strategy, s, rank, data, n));
    }
  }

  // ----- every mark is a real close

  // The latest row of a symbol that traded on day i is at least as late as day i.
  lemma {:induction false} LatestRowIsNotEarlier(days: seq<Day>, i: nat, symbol: string)
    requires WellFormed(days) && i < |days| && Lookup(days[i].rows, symbol).Some?
    ensures SymbolRows(days, symbol) != []
    ensures days[i].date <= LastOf(SymbolRows(days, symbol)).value.date
    ensures exists d, j :: 0 <= d < |days| && 0 <= j < |days[d].rows|
                           && days[d].rows[j] == LastOf(SymbolRows(days, symbol)).value
  {
    var n := |days| - 1;
    match Lookup(days[n].rows, symbol)
    case Some(row) =>
      var j :| 0 <= j < |days[n].rows| && days[n].rows[j] == row;
      assert row.date == days[n].date;
      assert i < n ==> days[i].date < days[n].date;
    case None =>
      SortedPrefix(days, n);
      LatestRowIsNotEarlier(days[..n], i, symbol);
      var d, j :| 0 <= d < n && 0 <= j < |days[..n][d].rows|
                  && days[..n][d].rows[j] == LastOf(SymbolRows(days[..n], symbol)).value;
      assert days[d].rows[j] == LastOf(SymbolRows(days, symbol)).value;
  }

  // A position valued on day t is priced at its symbol's latest close, and that
  // close is not older than the purchase.
  lemma PositionsAreMarkedAtLatestClose(
    strategy: Strategy, s: Settings, rank: Ranking, data: seq<Day>, t: nat, p: Trade)
    requires WellFormed(data) && t < |data| && p in Midday(strategy, s, rank, data, t).open
    ensures
      var latest := LastOf(SymbolRows(data[..t + 1], p.symbol));
      && latest.Some? && latest.value.symbol == p.symbol && p.buyDate <= latest.value.date
      && MarkPrice(p, data[t].rows, Run(strategy, s, rank, data, t).lastClose) == latest.value.close
      && (exists d, j :: 0 <= d <= t && 0 <= j < |data[d].rows| && data[d].rows[j] == latest.value)
  {
    hide Run, Midday, SymbolRows, WellFormed, MarkPrice, LastClosesAre, AllBoughtBy;
    OriginsOfRun(strategy, s, rank, data, t) by { SortedFrame(data); }
    LastClosesOfRun(strategy, s, rank, data, t);
    assert BoughtBy(p, data, t) by { BoughtMember(Midday(strategy, s, rank, data, t).open, data, t, p); }
    LatestIsFromTheFrame(data, t, p);
    MarkIsLatestClose(data, t, p, Run(strategy, s, rank, data, t).lastClose);
  }

  lemma SortedFrame(data: seq<Day>)
    requires WellFormed(data)
    ensures SortedDays(data)
  {
  }

  lemma BoughtMember(ts: seq<Trade>, data: seq<Day>, k: nat, p: Trade)
    requires AllBoughtBy(ts, data, k) && p in ts
    ensures BoughtBy(p, data, k)
  {
  }

  lemma LatestIsFromTheFrame(data: seq<Day>, t: nat, p: Trade)
    requires WellFormed(data) && t < |data| && BoughtBy(p, data, t)
    ensures
      var latest := LastOf(SymbolRows(data[..t + 1], p.symbol));
      && latest.Some? && latest.value.symbol == p.symbol && p.buyDate <= latest.value.date
      && (exists d, j :: 0 <= d <= t && 0 <= j < |data[d].rows| && data[d].rows[j] == latest.value)
  {
    hide SymbolRows, WellFormed;
    var i :| 0 <= i <= t && i < |data| && data[i].date == p.buyDate && Lookup(data[i].rows, p.symbol).Some?;
    var past := data[..t + 1];
    SortedPrefix(data, t + 1);
    assert past[i] == data[i];
    LatestRowIsNotEarlier(past, i, p.symbol);
    var d, j :| 0 <= d < |past| && 0 <= j < |past[d].rows|
                && past[d].rows[j] == LastOf(SymbolRows(past, p.symbol)).value;
    assert past[d] == data[d];
  }

  lemma MarkIsLatestClose(data: seq<Day>, t: nat, p: Trade, lastClose: map<string, real>)
    requires t < |data| && LastClosesAre(lastClose, data[..t])
    requires SymbolRows(data[..t + 1], p.symbol) != []
    ensures MarkPrice(p, data[t].rows, lastClose) == LastOf(SymbolRows(data[..t + 1], p.symbol)).value.close
  {
    assert data[..t + 1][..t] == data[..t];
  }

  // ----- equity and drawdown

  lemma {:induction false} ValueIsNonNegative(open: seq<Trade>, rows: seq<Row>, lastClose: map<string, real>)
    requires forall p :: p in open ==> p.shares > 0 && MarkPrice(p, rows, lastClose) > 0.0
    ensures MarketValue(open, rows, lastClose) >= 0.0
  {
    hide MarkPrice;
    if open != [] {
      ValueIsNonNegative(open[..|open| - 1], rows, lastClose);
      Ledger.ProductPositive(MarkPrice(open[|open| - 1], rows, lastClose), open[|open| - 1].shares as real);
    }
  }

  lemma EquityIsNonNegative(strategy: Strategy, s: Settings, rank: Ranking, data: seq<Day>, n: nat, t: nat)
    requires s.Valid() && WellFormed(data) && PricedFrame(data) && t < n <= |data|
    ensures |Run(strategy, s, rank, data, n).curve| == n && Run(strategy, s, rank, data, n).curve[t].equity >= 0.0
  {
    hide Run, Midday, MarkPrice, MarketValue;
    Ledger.CurveHasOnePointPerDay(strategy, s, rank, data, n);
    Ledger.LedgerBalancesOnEveryDay(strategy, s, rank, data, t);
    var open := Midday(strategy, s, rank, data, t).open;
    var lastClose := Run(strategy, s, rank, data, t).lastClose;
    forall p | p in open
      ensures p.shares > 0 && MarkPrice(p, data[t].rows, lastClose) > 0.0
    {
      PositionsAreMarkedAtLatestClose(strategy, s, rank, data, t, p);
      var d, j :| 0 <= d <= t && 0 <= j < |data[d].rows|
                  && data[d].rows[j] == LastOf(SymbolRows(data[..t + 1], p.symbol)).value;
      assert PositivePrices(data[d].rows[j]);
    }
    ValueIsNonNegative(open, data[t].rows, lastClose);
  }

  // The highest of the initial cash and all equities of a curve.
  function PeakOf(initial: real, curve: seq<EquityPoint>): (peak: real)
    ensures peak >= initial && forall i :: 0 <= i < |curve| ==> peak >= curve[i].equity
    ensures peak == initial || exists i :: 0 <= i < |curve| && peak == curve[i].equity
  {
    if curve == [] then initial
    else
      var peak := PeakOf(initial, curve[..|curve| - 1]);
      if curve[|curve| - 1].equity > peak then curve[|curve| - 1].equity else peak
  }

  lemma StepPeak(strategy: Strategy, s: Settings, rank: Ranking, data: seq<Day>, t: nat, st: State)
    requires t < |data|
    ensures
      var end := Step(strategy, s, rank, data, t, st);
      && |end.curve| == |st.curve| + 1 && end.curve[..|st.curve|] == st.curve
      && var point := end.curve[|st.curve|];
         && end.peak == (if point.equity > st.peak then point.equity else st.peak)
         && point.drawdown == FallFrom(end.peak, point.equity)
  {
    hide SellDay, BuyDay, MarketValue;
  }

  // Every drawdown of the curve is the fall from the highest equity so far.
  ghost predicate DrawdownsMatch(initial: real, curve: seq<EquityPoint>) {
    forall t :: 0 <= t < |curve| ==> PointMatches(initial, curve, t)
  }

  ghost predicate PointMatches(initial: real, curve: seq<EquityPoint>, t: nat)
    requires t < |curve|
  {
    curve[t].drawdown == FallFrom(PeakOf(initial, curve[..t + 1]), curve[t].equity)
  }

  lemma PeakOfAppend(initial: real, curve: seq<EquityPoint>, point: EquityPoint)
    ensures PeakOf(initial, curve + [point]) ==
            if point.equity > PeakOf(initial, curve) then point.equity else PeakOf(initial, curve)
  {
    assert (curve + [point])[..|curve|] == curve;
  }

  lemma AppendedPointMatches(initial: real, curve: seq<EquityPoint>, point: EquityPoint)
    requires DrawdownsMatch(initial, curve)
    requires
      var peak := PeakOf(initial, curve);
      point.drawdown == FallFrom(if point.equity > peak then point.equity else peak, point.equity)
    ensures DrawdownsMatch(initial, curve + [point])
    ensures PeakOf(initial, curve + [point]) ==
            if point.equity > PeakOf(initial, curve) then point.equity else PeakOf(initial, curve)
  {
    hide FallFrom, PeakOf;
    PeakOfAppend(initial, curve, point);
    forall t | 0 <= t < |curve + [point]| ensures PointMatches(initial, curve + [point], t) {
      if t < |curve| {
        assert PointMatches(initial, curve, t);
        EarlierPointMatches(initial, curve, point, t);
      } else {
        assert (curve + [point])[..t + 1] == curve + [point];
      }
    }
  }

  lemma EarlierPointMatches(initial: real, curve: seq<EquityPoint>, point: EquityPoint, t: nat)
    requires t < |curve| && PointMatches(initial, curve, t)
    ensures PointMatches(initial, curve + [point], t)
  {
    hide PeakOf, FallFrom;
    assert (curve + [point])[..t + 1] == curve[..t + 1];
  }

  lemma EmptyCurveMatches(initial: real)
    ensures PeakOf(initial, []) == initial && DrawdownsMatch(initial, [])
  {
  }

  // The streamed drawdown of each day equals its definition.
  lemma {:induction false} DrawdownMatchesDefinition(
    strategy: Strategy, s: Settings, rank: Ranking, data: seq<Day>, n: nat)
    requires s.Valid() && n <= |data|
    ensures
      var st := Run(strategy, s, rank, data, n);
      && |st.curve| == n && st.peak == PeakOf(s.initialCash, st.curve)
      && DrawdownsMatch(s.initialCash, st.curve)
  {
    hide Run, Step, FallFrom, DrawdownsMatch, PeakOf, PointMatches;
    if n == 0 {
      RunStart(strategy, s, rank, data);
      EmptyCurveMatches(s.initialCash);
    } else {
      DrawdownMatchesDefinition(strategy, s, rank, data, n - 1);
      var before := Run(strategy, s, rank, data, n - 1);
      RunStep(strategy, s, rank, data, n);
      StepPeak(strategy, s, rank, data, n - 1, before);
      var point := Run(strategy, s, rank, data, n).curve[n - 1];
      AppendedPointMatches(s.initialCash, before.curve, point);
      assert Run(strategy, s, rank, data, n).curve == before.curve + [point];
    }
  }

  // In the curve's own numbers: each drawdown times the highest of the initial cash
  // and the equities so far is the distance from that peak.
  lemma DrawdownInCurveFields(strategy: Strategy, s: Settings, rank: Ranking, data: seq<Day>, n: nat, t: nat)
    returns (peak: real)
    requires s.Valid() && t < n <= |data|
    ensures
      var curve := Run(strategy, s, rank, data, n).curve;
      && |curve| == n
      && peak >= s.initialCash && (forall j :: 0 <= j <= t ==> peak >= curve[j].equity)
      && (peak == s.initialCash || exists j :: 0 <= j <= t && peak == curve[j].equity)
      && curve[t].drawdown * peak == curve[t].equity - peak
  {
    hide Run, PeakOf;
    DrawdownMatchesDefinition(strategy, s, rank, data, n);
    var curve := Run(strategy, s, rank, data, n).curve;
    assert PointMatches(s.initialCash, curve, t);
    peak := PeakOf(s.initialCash, curve[..t + 1]);
    assert forall j :: 0 <= j <= t ==> curve[..t + 1][j] == curve[j];
    FallTimesPeak(peak, curve[t].equity);
  }

  lemma FallTimesPeak(peak: real, equity: real)
    requires peak > 0.0
    ensures FallFrom(peak, equity) * peak == equity - peak
  {
    var ratio := equity / peak;
    assert ratio * peak == equity;
    assert (ratio - 1.0) * peak == ratio * peak - peak;
  }

  // The reported maximum drawdown: the smallest drawdown of the curve.
  method MaxDrawdown(curve: seq<EquityPoint>) returns (worst: real)
    ensures curve == [] ==> worst == 0.0
    ensures forall i :: 0 <= i < |curve| ==> worst <= curve[i].drawdown
    ensures curve != [] ==> exists i :: 0 <= i < |curve| && worst == curve[i].drawdown
  {
    worst := 0.0;
    if curve != [] {
      worst := curve[0].drawdown;
      for k := 1 to |curve|
        invariant forall i :: 0 <= i < k ==> worst <= curve[i].drawdown
        invariant exists i :: 0 <= i < k && worst == curve[i].drawdown
      {
        if curve[k].drawdown < worst {
          worst := curve[k].drawdown;
        }
      }
    }
  }

  lemma QuotientInUnit(a: real, b: real)
    requires 0.0 <= a <= b && b > 0.0
    ensures 0.0 <= a / b <= 1.0
  {
  }

  // Every drawdown lies between a total loss and none.
  lemma DrawdownLiesInRange(strategy: Strategy, s: Settings, rank: Ranking, data: seq<Day>, n: nat, t: nat)
    requires s.Valid() && WellFormed(data) && PricedFrame(data) && t < n <= |data|
    ensures |Run(strategy, s, rank, data, n).curve| == n
    ensures -1.0 <= Run(strategy, s, rank, data, n).curve[t].drawdown <= 0.0
  {
    hide Run;
    DrawdownMatchesDefinition(strategy, s, rank, data, n);
    EquityIsNonNegative(strategy, s, rank, data, n, t);
    var curve := Run(strategy, s, rank, data, n).curve;
    assert PointMatches(s.initialCash, curve, t);
    assert curve[..t + 1][t] == curve[t];
    QuotientInUnit(curve[t].equity, PeakOf(s.initialCash, curve[..t + 1]));
  }
}
