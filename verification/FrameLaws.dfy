/**
  What a backtest looks at: the rows of the restricted frame and the candidates of
  a day, told in the fields of rows.
 */
module FrameLaws {
  import opened Options
  import opened Market
  import opened Conditions
  import opened Prefilter
  import opened Engine

  // Some day of the frame with the date holds the row.
  ghost predicate InFrame(frame: seq<Day>, date: int, row: Row) {
    exists i :: 0 <= i < |frame| && frame[i].date == date && row in frame[i].rows
  }

  lemma {:induction false} PoolRowsMembers(rows: seq<Row>, pool: string -> bool, row: Row)
    ensures row in PoolRows(rows, pool) <==> row in rows && pool(row.symbol)
  {
    if rows != [] {
      var rest, last := rows[..|rows| - 1], rows[|rows| - 1];
      PoolRowsMembers(rest, pool, row);
      assert rows == rest + [last];
    }
  }

  lemma InFrameOfAppend(frame: seq<Day>, day: Day, date: int, row: Row)
    ensures InFrame(frame + [day], date, row) <==> InFrame(frame, date, row) || (day.date == date && row in day.rows)
  {
    var longer := frame + [day];
    if InFrame(frame, date, row) {
      var i :| 0 <= i < |frame| && frame[i].date == date && row in frame[i].rows;
      assert longer[i] == frame[i];
    }
    assert longer[|frame|] == day;
  }

  lemma NothingInEmptyFrame(date: int, row: Row)
    ensures !InFrame([], date, row)
  {
  }

  // The backtest sees exactly the rows of the period whose symbol is in the pool.
  lemma {:induction false} RestrictedRows(
    frame: seq<Day>, start: int, end: int, pool: string -> bool, date: int, row: Row)
    ensures InFrame(Restrict(frame, start, end, pool), date, row) <==>
            InFrame(frame, date, row) && start <= date <= end && pool(row.symbol)
  {
    hide InFrame, PoolRows;
    if frame == [] {
      NothingInEmptyFrame(date, row);
    } else {
      var rest, day := frame[..|frame| - 1], frame[|frame| - 1];
      RestrictedRows(rest, start, end, pool, date, row);
      InFrameOfAppend(rest, day, date, row);
      assert rest + [day] == frame;
      var rows := PoolRows(day.rows, pool);
      PoolRowsMembers(day.rows, pool, row);
      InFrameOfAppend(Restrict(rest, start, end, pool), Day(day.date, rows), date, row);
      assert Restrict(rest, start, end, pool) + [] == Restrict(rest, start, end, pool);
    }
  }

  ghost predicate TradesWithin(data: seq<Day>, start: int, end: int) {
    forall k :: 0 <= k < |data| ==> data[k].rows != [] && start <= data[k].date <= end
  }

  // None of its days is empty or outside the period.
  lemma {:induction false} RestrictedDays(frame: seq<Day>, start: int, end: int, pool: string -> bool)
    ensures TradesWithin(Restrict(frame, start, end, pool), start, end)
  {
    hide PoolRows;
    if frame == [] {
      assert Restrict(frame, start, end, pool) == [];
    } else {
      var rest, day := frame[..|frame| - 1], frame[|frame| - 1];
      RestrictedDays(rest, start, end, pool);
      var before, rows := Restrict(rest, start, end, pool), PoolRows(day.rows, pool);
      var added := if start <= day.date <= end && rows != [] then [Day(day.date, rows)] else [];
      assert Restrict(frame, start, end, pool) == before + added;
      assert TradesWithin(before + added, start, end);
    }
  }

  lemma {:induction false} ScanMembers(s: Strategy, data: seq<Day>, t: nat, n: nat, settings: ScanSettings, row: Row)
    requires t < |data| && n <= |data[t].rows|
    ensures row in Scan(s, data, t, n, settings) <==>
            exists j :: 0 <= j < n && data[t].rows[j] == row && KeptByPrefilter(s, data, t, j)
                        && IsCandidate(s, row, data, settings)
  {
    hide KeptByPrefilter, IsCandidate;
    if n > 0 {
      ScanMembers(s, data, t, n - 1, settings, row);
    }
  }

  // A candidate is a row of the day that the prefilter keeps, that trades, is not
  // under special treatment where that is excluded, is listed long enough, and
  // passes every market filter and every entry group.
  lemma CandidatesInRowFields(s: Strategy, data: seq<Day>, t: nat, settings: ScanSettings, row: Row)
    requires t < |data|
    ensures row in DayCandidates(s, data, t, settings) <==>
            && (exists j :: 0 <= j < |data[t].rows| && data[t].rows[j] == row && KeptByPrefilter(s, data, t, j))
            && !row.suspended && (settings.excludeSt ==> !row.st) && row.listingDays >= settings.minListingDays
            && (forall i :: 0 <= i < |s.marketFilters| ==> Evaluate(s.marketFilters[i], row, data))
            && (forall i :: 0 <= i < |s.entryGroups| ==> GroupPasses(s.entryGroups[i], row, data, s.scoreThreshold))
  {
    hide KeptByPrefilter, Evaluate, GroupPasses;
    ScanMembers(s, data, t, |data[t].rows|, settings, row);
    CandidateInRowFields(s, data, settings, row);
  }

  lemma CandidateInRowFields(s: Strategy, data: seq<Day>, settings: ScanSettings, row: Row)
    ensures IsCandidate(s, row, data, settings) <==>
            && !row.suspended && (settings.excludeSt ==> !row.st) && row.listingDays >= settings.minListingDays
            && (forall i :: 0 <= i < |s.marketFilters| ==> Evaluate(s.marketFilters[i], row, data))
            && (forall i :: 0 <= i < |s.entryGroups| ==> GroupPasses(s.entryGroups[i], row, data, s.scoreThreshold))
  {
    hide Evaluate, GroupPasses;
    assert forall i :: 0 <= i < |s.marketFilters| ==> s.marketFilters[i] in s.marketFilters;
    assert forall i :: 0 <= i < |s.entryGroups| ==> s.entryGroups[i] in s.entryGroups;
  }

  // A group passes in the sense of its operator.
  lemma GroupInNodes(g: Group, row: Row, data: seq<Day>, threshold: real)
    ensures g.operator == And ==>
      (GroupPasses(g, row, data, threshold) <==> forall i :: 0 <= i < |g.nodes| ==> Evaluate(g.nodes[i], row, data))
    ensures g.operator == Or ==>
      (GroupPasses(g, row, data, threshold) <==> exists i :: 0 <= i < |g.nodes| && Evaluate(g.nodes[i], row, data))
    ensures g.operator == Score ==>
      (GroupPasses(g, row, data, threshold) <==> threshold <= ScoreOf(g.nodes, row, data))
  {
    hide Evaluate, ScoreOf;
    assert forall i :: 0 <= i < |g.nodes| ==> g.nodes[i] in g.nodes;
    if exists n :: n in g.nodes && Evaluate(n, row, data) {
      var n :| n in g.nodes && Evaluate(n, row, data);
      var i :| 0 <= i < |g.nodes| && g.nodes[i] == n;
    }
  }

  // The prefilter keeps a row by the masks of its unlagged, enabled nodes alone: all
  // market filters, all nodes of an and group, some node of an or group; an empty
  // group and a score group keep every row.
  lemma KeptInNodes(s: Strategy, data: seq<Day>, t: nat, j: nat)
    requires t < |data| && j < |data[t].rows|
    ensures KeptByPrefilter(s, data, t, j) <==>
            && (forall i :: 0 <= i < |s.marketFilters| ==> NodeMask(s.marketFilters[i], data, t, j))
            && (forall i :: 0 <= i < |s.entryGroups| ==> KeptByGroup(s.entryGroups[i], data, t, j))
  {
    hide NodeMask, GroupMask, KeptByGroup;
    forall g ensures GroupMask(g, data, t, j) <==> KeptByGroup(g, data, t, j) {
      GroupMaskInNodes(g, data, t, j);
    }
    assert forall i :: 0 <= i < |s.marketFilters| ==> s.marketFilters[i] in s.marketFilters;
    assert forall i :: 0 <= i < |s.entryGroups| ==> s.entryGroups[i] in s.entryGroups;
  }

  predicate KeptByGroup(g: Group, data: seq<Day>, t: nat, j: nat)
    requires t < |data| && j < |data[t].rows|
  {
    || g.nodes == []
    || g.operator == Score
    || (g.operator == And && forall i :: 0 <= i < |g.nodes| ==> NodeMask(g.nodes[i], data, t, j))
    || (g.operator == Or && exists i :: 0 <= i < |g.nodes| && NodeMask(g.nodes[i], data, t, j))
  }

  lemma GroupMaskInNodes(g: Group, data: seq<Day>, t: nat, j: nat)
    requires t < |data| && j < |data[t].rows|
    ensures GroupMask(g, data, t, j) <==> KeptByGroup(g, data, t, j)
  {
    hide NodeMask;
    assert forall i :: 0 <= i < |g.nodes| ==> g.nodes[i] in g.nodes;
    if exists n :: n in g.nodes && NodeMask(n, data, t, j) {
      var n :| n in g.nodes && NodeMask(n, data, t, j);
      var i :| 0 <= i < |g.nodes| && g.nodes[i] == n;
    }
  }

  // A node's mask is its condition's, unless the node is disabled or lagged.
  lemma NodeMaskInFields(n: Node, data: seq<Day>, t: nat, j: nat)
    requires t < |data| && j < |data[t].rows|
    ensures !n.enabled || n.lag > 0 ==> NodeMask(n, data, t, j)
    ensures n.enabled && n.lag == 0 ==> (NodeMask(n, data, t, j) <==> ConditionMask(n.condition, data, t, j))
  {
  }
}
