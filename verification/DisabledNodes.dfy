/**
  Disabled nodes. A disabled node counts as passed. Where all nodes must pass
  that makes it inert; where one is enough, or where weights are summed, it is
  not, and this module says exactly when it makes no difference.
 */
module DisabledNodes {
  import opened Options
  import opened Market
  import opened Conditions
  import opened Prefilter
  import opened Engine

  function EnabledOf(nodes: seq<Node>): (r: seq<Node>)
    ensures forall n :: n in r ==> n.enabled
  {
    if nodes == [] then []
    else
      EnabledOf(nodes[..|nodes| - 1]) + if nodes[|nodes| - 1].enabled then [nodes[|nodes| - 1]] else []
  }

  predicate AllEnabled(nodes: seq<Node>) {
    forall n :: n in nodes ==> n.enabled
  }

  // The summed weights of the disabled nodes.
  function DisabledWeight(nodes: seq<Node>): real {
    if nodes == [] then 0.0
    else
      DisabledWeight(nodes[..|nodes| - 1])
      + if nodes[|nodes| - 1].enabled then 0.0 else nodes[|nodes| - 1].weight
  }

  lemma {:induction false} EnabledMembers(nodes: seq<Node>, n: Node)
    ensures n in EnabledOf(nodes) <==> n in nodes && n.enabled
  {
    if nodes != [] {
      var rest, last := nodes[..|nodes| - 1], nodes[|nodes| - 1];
      EnabledMembers(rest, n);
      assert nodes == rest + [last];
    }
  }

  // ----- a row on which no enabled condition holds

  function BlankRow(): Row {
    Row("", 0, 0.0, 0.0, 0.0, 0.0, 0.0, false, false, 0, Missing, map[])
  }

  lemma NothingHoldsOnBlankRow(c: Condition)
    ensures !Verdict(c, BlankRow(), [])
  {
  }

  lemma BlankRowPassesDisabledOnly(n: Node)
    ensures Evaluate(n, BlankRow(), []) <==> !n.enabled
  {
    NothingHoldsOnBlankRow(n.condition);
  }

  // ----- one node is enough

  ghost predicate SomePasses(nodes: seq<Node>, row: Row, data: seq<Day>) {
    exists n :: n in nodes && Evaluate(n, row, data)
  }

  // On one row: a disabled node changes the answer exactly when no enabled one passes.
  lemma AnyOfWithDisabled(nodes: seq<Node>, row: Row, data: seq<Day>)
    ensures SomePasses(nodes, row, data) <==> !AllEnabled(nodes) || SomePasses(EnabledOf(nodes), row, data)
    ensures (SomePasses(nodes, row, data) <==> SomePasses(EnabledOf(nodes), row, data))
            <==> AllEnabled(nodes) || SomePasses(EnabledOf(nodes), row, data)
  {
    forall n ensures n in EnabledOf(nodes) <==> n in nodes && n.enabled {
      EnabledMembers(nodes, n);
    }
  }

  lemma BlankRowPassesNoEnabled(nodes: seq<Node>)
    ensures !SomePasses(EnabledOf(nodes), BlankRow(), [])
  {
    forall n | n in EnabledOf(nodes) ensures !Evaluate(n, BlankRow(), []) {
      BlankRowPassesDisabledOnly(n);
    }
  }

  // On every row: exactly when no node is disabled.
  lemma AnyOfIgnoresDisabledIffNone(nodes: seq<Node>)
    ensures (forall row, data :: SomePasses(nodes, row, data) <==> SomePasses(EnabledOf(nodes), row, data))
            <==> AllEnabled(nodes)
  {
    forall row, data
      ensures (SomePasses(nodes, row, data) <==> SomePasses(EnabledOf(nodes), row, data))
              <==> AllEnabled(nodes) || SomePasses(EnabledOf(nodes), row, data)
    {
      AnyOfWithDisabled(nodes, row, data);
    }
    BlankRowPassesNoEnabled(nodes);
  }

  // The exit rules signal as if the disabled ones were not there, on every row,
  // exactly when none is disabled; and on one row exactly when none is disabled or
  // an enabled one signals anyway.
  lemma ExitRulesIgnoreDisabledIffNone(rules: seq<Node>)
    ensures (forall row, data :: ExitSignal(rules, row, data) <==> ExitSignal(EnabledOf(rules), row, data))
            <==> AllEnabled(rules)
    ensures forall row, data ::
      (ExitSignal(rules, row, data) <==> ExitSignal(EnabledOf(rules), row, data))
      <==> AllEnabled(rules) || ExitSignal(EnabledOf(rules), row, data)
  {
    AnyOfIgnoresDisabledIffNone(rules);
    forall row, data
      ensures ExitSignal(rules, row, data) <==> SomePasses(rules, row, data)
      ensures ExitSignal(EnabledOf(rules), row, data) <==> SomePasses(EnabledOf(rules), row, data)
      ensures (SomePasses(rules, row, data) <==> SomePasses(EnabledOf(rules), row, data))
              <==> AllEnabled(rules) || SomePasses(EnabledOf(rules), row, data)
    {
      AnyOfWithDisabled(rules, row, data);
    }
  }

  // ----- weights are summed

  lemma {:induction false} ScoreWithDisabled(nodes: seq<Node>, row: Row, data: seq<Day>)
    ensures ScoreOf(nodes, row, data) == ScoreOf(EnabledOf(nodes), row, data) + DisabledWeight(nodes)
  {
    hide Verdict;
    if nodes != [] {
      var rest, last := nodes[..|nodes| - 1], nodes[|nodes| - 1];
      ScoreWithDisabled(rest, row, data);
      if last.enabled {
        ScoreOfAppend(EnabledOf(rest), last, row, data);
      } else {
        assert EnabledOf(nodes) == EnabledOf(rest);
      }
    }
  }

  lemma ScoreOfAppend(nodes: seq<Node>, n: Node, row: Row, data: seq<Day>)
    ensures ScoreOf(nodes + [n], row, data)
         == ScoreOf(nodes, row, data) + if Evaluate(n, row, data) then n.weight else 0.0
  {
    hide Evaluate;
    assert (nodes + [n])[..|nodes|] == nodes;
  }

  lemma {:induction false} BlankRowScoresNothing(nodes: seq<Node>)
    requires AllEnabled(nodes)
    ensures ScoreOf(nodes, BlankRow(), []) == 0.0
  {
    hide Evaluate;
    if nodes != [] {
      var last := nodes[|nodes| - 1];
      assert last in nodes;
      BlankRowScoresNothing(nodes[..|nodes| - 1]);
      BlankRowPassesDisabledOnly(last);
    }
  }

  // ----- groups

  function OnlyEnabled(g: Group): Group {
    Group(g.operator, EnabledOf(g.nodes))
  }

  // What a caller can read off a group: its disabled nodes make no difference.
  predicate Inert(g: Group) {
    match g.operator
    case And => true
    case Or => AllEnabled(g.nodes)
    case Score => DisabledWeight(g.nodes) == 0.0
  }

  lemma AllOfIgnoresDisabled(nodes: seq<Node>, row: Row, data: seq<Day>)
    ensures (forall n :: n in nodes ==> Evaluate(n, row, data))
            <==> (forall n :: n in EnabledOf(nodes) ==> Evaluate(n, row, data))
  {
    forall n ensures n in EnabledOf(nodes) <==> n in nodes && n.enabled {
      EnabledMembers(nodes, n);
    }
  }

  lemma InertGroupIgnoresDisabled(g: Group, row: Row, data: seq<Day>, threshold: real)
    requires Inert(g)
    ensures GroupPasses(g, row, data, threshold) <==> GroupPasses(OnlyEnabled(g), row, data, threshold)
  {
    hide Evaluate, ScoreOf;
    match g.operator
    case And => AllOfIgnoresDisabled(g.nodes, row, data);
    case Or =>
      AnyOfWithDisabled(g.nodes, row, data);
      assert SomePasses(g.nodes, row, data) <==> SomePasses(EnabledOf(g.nodes), row, data);
    case Score => ScoreWithDisabled(g.nodes, row, data);
  }

  // A group that is not inert answers differently on the blank row.
  lemma OtherGroupsDiffer(g: Group)
    requires !Inert(g)
    ensures exists threshold ::
      GroupPasses(g, BlankRow(), [], threshold) != GroupPasses(OnlyEnabled(g), BlankRow(), [], threshold)
  {
    hide Evaluate, ScoreOf;
    var row, data: seq<Day> := BlankRow(), [];
    var weight := DisabledWeight(g.nodes);
    var threshold := if weight > 0.0 then weight else 0.0;
    if g.operator == Or {
      AnyOfWithDisabled(g.nodes, row, data);
      BlankRowPassesNoEnabled(g.nodes);
      assert SomePasses(g.nodes, row, data) && !SomePasses(EnabledOf(g.nodes), row, data);
    } else {
      ScoreWithDisabled(g.nodes, row, data);
      BlankRowScoresNothing(EnabledOf(g.nodes));
    }
    assert GroupPasses(g, row, data, threshold) != GroupPasses(OnlyEnabled(g), row, data, threshold);
  }

  // A group passes exactly the rows it would pass without its disabled nodes if
  // and only if all must pass, or none is disabled, or their weights sum to zero.
  lemma GroupIgnoresDisabledIffInert(g: Group)
    ensures
      (forall row, data, threshold ::
         GroupPasses(g, row, data, threshold) <==> GroupPasses(OnlyEnabled(g), row, data, threshold))
      <==> Inert(g)
  {
    hide GroupPasses;
    if Inert(g) {
      forall row, data, threshold
        ensures GroupPasses(g, row, data, threshold) <==> GroupPasses(OnlyEnabled(g), row, data, threshold)
      {
        InertGroupIgnoresDisabled(g, row, data, threshold);
      }
    } else {
      OtherGroupsDiffer(g);
    }
  }
}
