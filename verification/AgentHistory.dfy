/**
  The message history of a chat session: the tool-call protocol and the repair
  of interrupted turns.
 */
module AgentHistory {
  datatype Call = Call(id: string, name: string, arguments: string)

  datatype Message =
    | User(content: string)
    | Assistant(content: string, calls: seq<Call>)
    | Tool(callId: string, content: string)

  predicate HasCalls(m: Message) {
    m.Assistant? && m.calls != []
  }

  // ----- ids

  function CallIds(calls: seq<Call>): set<string> {
    set c | c in calls :: c.id
  }

  function ToolIds(ms: seq<Message>): set<string> {
    set m | m in ms && m.Tool? :: m.callId
  }

  // ----- the protocol

  // How many tool results stand at the front.
  function LeadingTools(ms: seq<Message>): (n: nat)
    ensures n <= |ms|
    ensures forall i :: 0 <= i < n ==> ms[i].Tool?
    ensures n < |ms| ==> !ms[n].Tool?
  {
    if ms != [] && ms[0].Tool? then 1 + LeadingTools(ms[1..]) else 0
  }

  // The results directly after the first message, and what follows them.
  function RunOf(ms: seq<Message>): (run: seq<Message>)
    requires ms != []
    ensures |run| < |ms| && forall m :: m in run ==> m.Tool?
  {
    ms[1..][..LeadingTools(ms[1..])]
  }

  function RestOf(ms: seq<Message>): (rest: seq<Message>)
    requires ms != []
    ensures |rest| < |ms|
    ensures ms == [ms[0]] + RunOf(ms) + rest
    ensures rest != [] ==> !rest[0].Tool?
  {
    ms[1..][LeadingTools(ms[1..])..]
  }

  // Each message with calls is directly followed by results for all of them.
  predicate Answered(ms: seq<Message>)
    decreases |ms|
  {
    if ms == [] then true
    else if !HasCalls(ms[0]) then Answered(ms[1..])
    else CallIds(ms[0].calls) <= ToolIds(RunOf(ms)) && Answered(RestOf(ms))
  }

  // Each tool result belongs to a call of the message its run follows.
  predicate Belonging(ms: seq<Message>)
    decreases |ms|
  {
    if ms == [] then true
    else if !HasCalls(ms[0]) then !ms[0].Tool? && Belonging(ms[1..])
    else ToolIds(RunOf(ms)) <= CallIds(ms[0].calls) && Belonging(RestOf(ms))
  }

  predicate ProtocolValid(ms: seq<Message>) {
    Answered(ms) && Belonging(ms)
  }

  // No call that the results right after it leave unanswered carries an id that
  // occurs earlier, as a call or as a result.
  predicate UnansweredIdsAreFresh(ms: seq<Message>, seen: set<string>)
    decreases |ms|
  {
    if ms == [] then true
    else if !HasCalls(ms[0]) then UnansweredIdsAreFresh(ms[1..], seen + ToolIds([ms[0]]))
    else
      && (CallIds(ms[0].calls) - ToolIds(RunOf(ms))) !! seen
      && UnansweredIdsAreFresh(RestOf(ms), seen + ToolIds(RunOf(ms)) + CallIds(ms[0].calls))
  }

  // ----- repair

  function Placeholder(c: Call): Message {
    Tool(c.id, "interrupted: " + (if c.name == [] then "tool" else c.name))
  }

  // Placeholders for the calls whose id is not among the given ones.
  function Placeholders(calls: seq<Call>, answered: set<string>): (r: seq<Message>)
    ensures forall m :: m in r ==> m.Tool?
  {
    if calls == [] then []
    else
      Placeholders(calls[..|calls| - 1], answered)
      + if calls[|calls| - 1].id in answered then [] else [Placeholder(calls[|calls| - 1])]
  }

  // Repair a history, given the ids of all results so far. An id counts as
  // answered when any earlier result carries it.
  function RepairFrom(ms: seq<Message>, seen: set<string>): (r: seq<Message>)
    ensures ms == [] ==> r == []
    ensures ms != [] ==> r != [] && r[0] == ms[0]
    decreases |ms|
  {
    if ms == [] then []
    else if !HasCalls(ms[0]) then [ms[0]] + RepairFrom(ms[1..], seen + ToolIds([ms[0]]))
    else
      var missing := Missing(ms, seen);
      [ms[0]] + (RunOf(ms) + missing) + RepairFrom(RestOf(ms), SeenAfter(ms, seen))
  }

  function Missing(ms: seq<Message>, seen: set<string>): (r: seq<Message>)
    requires ms != [] && HasCalls(ms[0])
    ensures forall m :: m in r ==> m.Tool?
  {
    Placeholders(ms[0].calls, seen + ToolIds(RunOf(ms)))
  }

  function SeenAfter(ms: seq<Message>, seen: set<string>): set<string>
    requires ms != [] && HasCalls(ms[0])
  {
    seen + ToolIds(RunOf(ms)) + ToolIds(Missing(ms, seen))
  }

  function Repaired(ms: seq<Message>): seq<Message> {
    RepairFrom(ms, {})
  }

  // ----- pieces

  lemma ToolIdsOfConcat(a: seq<Message>, b: seq<Message>)
    ensures ToolIds(a + b) == ToolIds(a) + ToolIds(b)
  {
  }

  lemma CallIdsOfAppend(calls: seq<Call>, c: Call)
    ensures CallIds(calls + [c]) == CallIds(calls) + {c.id}
  {
  }

  lemma {:induction false} PlaceholderIds(calls: seq<Call>, answered: set<string>)
    ensures ToolIds(Placeholders(calls, answered)) == CallIds(calls) - answered
  {
    if calls != [] {
      var rest, last := calls[..|calls| - 1], calls[|calls| - 1];
      PlaceholderIds(rest, answered);
      assert calls == rest + [last];
      CallIdsOfAppend(rest, last);
      if last.id in answered {
        assert Placeholders(calls, answered) == Placeholders(rest, answered);
      } else {
        assert Placeholders(calls, answered) == Placeholders(rest, answered) + [Placeholder(last)];
        ToolIdsOfConcat(Placeholders(rest, answered), [Placeholder(last)]);
        OneToolId(Placeholder(last));
      }
    }
  }

  lemma OneToolId(m: Message)
    requires m.Tool?
    ensures ToolIds([m]) == {m.callId}
  {
    assert m in [m];
  }

  lemma {:induction false} NoPlaceholders(calls: seq<Call>, answered: set<string>)
    requires CallIds(calls) <= answered
    ensures Placeholders(calls, answered) == []
  {
    if calls != [] {
      assert CallIds(calls[..|calls| - 1]) <= CallIds(calls);
      assert calls[|calls| - 1] in calls;
      NoPlaceholders(calls[..|calls| - 1], answered);
    }
  }

  lemma {:induction false} LeadingToolsOfConcat(tools: seq<Message>, rest: seq<Message>)
    requires forall m :: m in tools ==> m.Tool?
    requires rest != [] ==> !rest[0].Tool?
    ensures LeadingTools(tools + rest) == |tools|
  {
    if tools == [] {
      assert tools + rest == rest;
    } else {
      assert (tools + rest)[1..] == tools[1..] + rest;
      LeadingToolsOfConcat(tools[1..], rest);
    }
  }

  // A message, a run of results, and a rest that starts with no result.
  lemma BlockOf(m: Message, tools: seq<Message>, rest: seq<Message>)
    requires forall x :: x in tools ==> x.Tool?
    requires rest != [] ==> !rest[0].Tool?
    ensures
      var ms := [m] + tools + rest;
      ms[0] == m && RunOf(ms) == tools && RestOf(ms) == rest
  {
    var ms := [m] + tools + rest;
    assert ms[1..] == tools + rest;
    LeadingToolsOfConcat(tools, rest);
  }

  // The ids seen after a block are those before it, its results and its calls.
  lemma SeenAfterBlock(ms: seq<Message>, seen: set<string>)
    requires ms != [] && HasCalls(ms[0])
    ensures SeenAfter(ms, seen) == seen + ToolIds(RunOf(ms)) + CallIds(ms[0].calls)
    ensures ToolIds(RunOf(ms) + Missing(ms, seen)) == ToolIds(RunOf(ms)) + (CallIds(ms[0].calls) - seen)
  {
    PlaceholderIds(ms[0].calls, seen + ToolIds(RunOf(ms)));
    ToolIdsOfConcat(RunOf(ms), Missing(ms, seen));
  }

  // The first block of a repaired history.
  lemma RepairedBlock(ms: seq<Message>, seen: set<string>)
    requires ms != [] && HasCalls(ms[0])
    ensures
      var out := RepairFrom(ms, seen);
      && out[0] == ms[0] && RunOf(out) == RunOf(ms) + Missing(ms, seen)
      && RestOf(out) == RepairFrom(RestOf(ms), SeenAfter(ms, seen))
  {
    BlockOf(ms[0], RunOf(ms) + Missing(ms, seen), RepairFrom(RestOf(ms), SeenAfter(ms, seen)));
  }

  // Placeholders follow the calls in order: each call without an answer gets a
  // result under its id that names its tool.
  lemma {:induction false} PlaceholdersInOrder(a: seq<Call>, b: seq<Call>, answered: set<string>)
    ensures Placeholders(a + b, answered) == Placeholders(a, answered) + Placeholders(b, answered)
    decreases |b|
  {
    if b == [] {
      assert a + b == a;
    } else {
      assert (a + b)[..|a + b| - 1] == a + b[..|b| - 1];
      PlaceholdersInOrder(a, b[..|b| - 1], answered);
    }
  }

  lemma PlaceholderOfOne(c: Call, answered: set<string>)
    ensures c.id in answered ==> Placeholders([c], answered) == []
    ensures c.id !in answered ==>
      && |Placeholders([c], answered)| == 1
      && Placeholders([c], answered)[0].Tool? && Placeholders([c], answered)[0].callId == c.id
      && "interrupted: " + (if c.name == "" then "tool" else c.name) == Placeholders([c], answered)[0].content
  {
    assert [c][..0] == [];
  }

  // ----- repair completes the history exactly when no unanswered id is reused

  lemma {:induction false} RepairAnswersIffFresh(ms: seq<Message>, seen: set<string>)
    ensures Answered(RepairFrom(ms, seen)) <==> UnansweredIdsAreFresh(ms, seen)
    decreases |ms|
  {
    hide LeadingTools, RunOf, RestOf, Placeholders, ToolIds, CallIds, Missing, SeenAfter;
    if ms != [] {
      if !HasCalls(ms[0]) {
        assert RepairFrom(ms, seen)[1..] == RepairFrom(ms[1..], seen + ToolIds([ms[0]]));
        RepairAnswersIffFresh(ms[1..], seen + ToolIds([ms[0]]));
      } else {
        RepairedBlock(ms, seen);
        SeenAfterBlock(ms, seen);
        RepairAnswersIffFresh(RestOf(ms), SeenAfter(ms, seen));
      }
    }
  }

  // The exact condition under which repair leaves no call unanswered. The source
  // collects answered ids over the whole prefix, so a reused id defeats it.
  lemma RepairIsCompleteIffUnansweredIdsFresh(ms: seq<Message>)
    ensures Answered(Repaired(ms)) <==> UnansweredIdsAreFresh(ms, {})
  {
    RepairAnswersIffFresh(ms, {});
  }

  lemma DanglingReuseIsNotFresh(c: Call, seen: set<string>)
    requires c.id in seen
    ensures !UnansweredIdsAreFresh([Assistant("", [c])], seen)
  {
    var ms := [Assistant("", [c])];
    assert ms == [ms[0]] + [] + [];
    BlockOf(ms[0], [], []);
    assert c in [c] && c.id in CallIds([c]);
  }

  // A reused id for which the condition fails: the second call stays unanswered.
  lemma ReusedIdIsNotRepaired()
    ensures
      var c := Call("a", "quote", "{}");
      !Answered(Repaired([Assistant("", [c]), Tool("a", "1"), Assistant("", [c])]))
  {
    hide LeadingTools, RunOf, RestOf, Answered, RepairFrom;
    var c := Call("a", "quote", "{}");
    var first, answer, second := Assistant("", [c]), Tool("a", "1"), [Assistant("", [c])];
    var ms := [first, answer] + second;
    assert ms == [first] + [answer] + second;
    BlockOf(first, [answer], second);
    OneToolId(answer);
    DanglingReuseIsNotFresh(c, {} + ToolIds([answer]) + CallIds([c]));
    assert HasCalls(ms[0]) && !UnansweredIdsAreFresh(ms, {});
    RepairIsCompleteIffUnansweredIdsFresh(ms);
    assert ms == [Assistant("", [c]), Tool("a", "1"), Assistant("", [c])];
  }

  // ----- repair is idempotent, keeps the messages, and creates no strays

  lemma {:induction false} RepairOfRepaired(ms: seq<Message>, seen: set<string>)
    ensures RepairFrom(RepairFrom(ms, seen), seen) == RepairFrom(ms, seen)
    decreases |ms|
  {
    hide LeadingTools, RunOf, RestOf, Placeholders, ToolIds, CallIds;
    if ms != [] {
      var out := RepairFrom(ms, seen);
      if !HasCalls(ms[0]) {
        assert out[1..] == RepairFrom(ms[1..], seen + ToolIds([ms[0]]));
        RepairOfRepaired(ms[1..], seen + ToolIds([ms[0]]));
      } else {
        RepairedBlock(ms, seen);
        SeenAfterBlock(ms, seen);
        NoPlaceholders(ms[0].calls, seen + ToolIds(RunOf(out)));
        assert Missing(out, seen) == [];
        SeenAfterBlock(out, seen);
        assert SeenAfter(out, seen) == SeenAfter(ms, seen);
        RepairOfRepaired(RestOf(ms), SeenAfter(ms, seen));
        assert RunOf(out) + [] == RunOf(out);
      }
    }
  }

  lemma RepairIsIdempotent(ms: seq<Message>)
    ensures Repaired(Repaired(ms)) == Repaired(ms)
  {
    RepairOfRepaired(ms, {});
  }

  // b with some messages left out.
  predicate Subsequence(a: seq<Message>, b: seq<Message>)
    decreases |b|
  {
    a == [] || (b != [] && ((a[0] == b[0] && Subsequence(a[1..], b[1..])) || Subsequence(a, b[1..])))
  }

  lemma EmptyIsSubsequence(b: seq<Message>)
    ensures Subsequence([], b)
  {
  }

  lemma {:induction false} SubsequenceAfterCommon(common: seq<Message>, a: seq<Message>, b: seq<Message>)
    requires Subsequence(a, b)
    ensures Subsequence(common + a, common + b)
  {
    if common == [] {
      assert common + a == a && common + b == b;
    } else {
      assert (common + a)[1..] == common[1..] + a && (common + b)[1..] == common[1..] + b;
      SubsequenceAfterCommon(common[1..], a, b);
    }
  }

  lemma {:induction false} SubsequenceWithPrefix(prefix: seq<Message>, a: seq<Message>, b: seq<Message>)
    requires Subsequence(a, b)
    ensures Subsequence(a, prefix + b)
  {
    if prefix == [] {
      assert prefix + b == b;
    } else {
      assert (prefix + b)[1..] == prefix[1..] + b;
      SubsequenceWithPrefix(prefix[1..], a, b);
    }
  }

  lemma {:induction false} RepairFromKeepsMessages(ms: seq<Message>, seen: set<string>)
    ensures Subsequence(ms, RepairFrom(ms, seen))
    decreases |ms|
  {
    hide LeadingTools, RunOf, RestOf, Placeholders, ToolIds, CallIds, Subsequence;
    if ms == [] {
      EmptyIsSubsequence(RepairFrom(ms, seen));
    } else if !HasCalls(ms[0]) {
      RepairFromKeepsMessages(ms[1..], seen + ToolIds([ms[0]]));
      SubsequenceAfterCommon([ms[0]], ms[1..], RepairFrom(ms[1..], seen + ToolIds([ms[0]])));
      assert [ms[0]] + ms[1..] == ms;
    } else {
      var tail := RepairFrom(RestOf(ms), SeenAfter(ms, seen));
      RepairFromKeepsMessages(RestOf(ms), SeenAfter(ms, seen));
      SubsequenceWithPrefix(Missing(ms, seen), RestOf(ms), tail);
      SubsequenceAfterCommon([ms[0]] + RunOf(ms), RestOf(ms), Missing(ms, seen) + tail);
      assert [ms[0]] + RunOf(ms) + (Missing(ms, seen) + tail) == RepairFrom(ms, seen);
    }
  }

  // Repair inserts messages and removes, changes or reorders none.
  lemma RepairKeepsMessages(ms: seq<Message>)
    ensures Subsequence(ms, Repaired(ms))
  {
    RepairFromKeepsMessages(ms, {});
  }

  lemma {:induction false} RepairFromKeepsBelonging(ms: seq<Message>, seen: set<string>)
    ensures Belonging(RepairFrom(ms, seen)) <==> Belonging(ms)
    decreases |ms|
  {
    hide LeadingTools, RunOf, RestOf, Placeholders, ToolIds, CallIds, Missing, SeenAfter;
    if ms != [] {
      if !HasCalls(ms[0]) {
        assert RepairFrom(ms, seen)[1..] == RepairFrom(ms[1..], seen + ToolIds([ms[0]]));
        RepairFromKeepsBelonging(ms[1..], seen + ToolIds([ms[0]]));
      } else {
        RepairedBlock(ms, seen);
        SeenAfterBlock(ms, seen);
        RepairFromKeepsBelonging(RestOf(ms), SeenAfter(ms, seen));
      }
    }
  }

  // Repair makes no result a stray and cures none.
  lemma RepairKeepsBelonging(ms: seq<Message>)
    ensures Belonging(Repaired(ms)) <==> Belonging(ms)
  {
    RepairFromKeepsBelonging(ms, {});
  }

  // ----- repair does nothing it need not do

  lemma {:induction false} AnsweredIsNotRepaired(ms: seq<Message>, seen: set<string>)
    requires Answered(ms)
    ensures RepairFrom(ms, seen) == ms
    decreases |ms|
  {
    hide LeadingTools, RunOf, RestOf, Placeholders, ToolIds, CallIds;
    if ms != [] {
      if !HasCalls(ms[0]) {
        AnsweredIsNotRepaired(ms[1..], seen + ToolIds([ms[0]]));
      } else {
        NoPlaceholders(ms[0].calls, seen + ToolIds(RunOf(ms)));
        AnsweredIsNotRepaired(RestOf(ms), SeenAfter(ms, seen));
        assert RunOf(ms) + Missing(ms, seen) == RunOf(ms);
      }
    }
  }

  // A history without unanswered calls is left as it is.
  lemma RepairLeavesAnsweredAlone(ms: seq<Message>)
    requires Answered(ms)
    ensures Repaired(ms) == ms
  {
    AnsweredIsNotRepaired(ms, {});
  }

  predicate DistinctIds(calls: seq<Call>) {
    forall i, j :: 0 <= i < j < |calls| ==> calls[i].id != calls[j].id
  }

  lemma LastIdIsNew(calls: seq<Call>)
    requires DistinctIds(calls) && calls != []
    ensures DistinctIds(calls[..|calls| - 1])
    ensures calls[|calls| - 1].id !in CallIds(calls[..|calls| - 1])
    ensures CallIds(calls) == CallIds(calls[..|calls| - 1]) + {calls[|calls| - 1].id}
  {
    assert calls == calls[..|calls| - 1] + [calls[|calls| - 1]];
    CallIdsOfAppend(calls[..|calls| - 1], calls[|calls| - 1]);
  }

  // Each unanswered id of a message gets one placeholder.
  lemma {:induction false} OnePlaceholderEach(calls: seq<Call>, answered: set<string>)
    requires DistinctIds(calls)
    ensures |Placeholders(calls, answered)| == |CallIds(calls) - answered|
  {
    if calls == [] {
      assert CallIds(calls) - answered == {};
    } else {
      hide CallIds, DistinctIds;
      var rest, id := calls[..|calls| - 1], calls[|calls| - 1].id;
      LastIdIsNew(calls);
      OnePlaceholderEach(rest, answered);
      if id in answered {
        assert CallIds(calls) - answered == CallIds(rest) - answered;
      } else {
        assert CallIds(calls) - answered == (CallIds(rest) - answered) + {id};
      }
    }
  }
}
