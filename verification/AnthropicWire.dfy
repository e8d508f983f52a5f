/**
  Translation of a history into the Anthropic message shape: blocks, merged so
  that roles alternate. Call and result pairing survives it.
 */
module AnthropicWire {
  import opened Options
  import opened AgentHistory
  import AgentRuns

  datatype Role = UserRole | AssistantRole

  // The decoded arguments of a call.
  datatype Input = EmptyObject | Decoded(json: string)

  // JSON decoding, which may fail.
  type Decoder = string -> Option<Input>

  datatype Block =
    | Text(text: string)
    | ToolUse(id: string, name: string, input: Input)
    | ToolResult(toolUseId: string, content: string)

  datatype Wire = Wire(role: Role, content: seq<Block>)

  // What a request holds: a system prompt or a message of the history.
  datatype Entry = System(text: string) | Chat(message: Message)

  // A block under the role it is sent with.
  datatype Tagged = Tagged(role: Role, block: Block)

  // ----- one message

  function RoleOf(m: Message): Role {
    if m.Assistant? then AssistantRole else UserRole
  }

  // Arguments that do not decode are sent as an empty object.
  function InputOf(d: Decoder, arguments: string): Input {
    match d(if arguments == "" then "{}" else arguments)
    case Some(input) => input
    case None => EmptyObject
  }

  function UseOf(d: Decoder, c: Call): Block {
    ToolUse(c.id, c.name, InputOf(d, c.arguments))
  }

  function Uses(d: Decoder, calls: seq<Call>): (r: seq<Block>)
    ensures |r| == |calls|
  {
    seq(|calls|, i requires 0 <= i < |calls| => UseOf(d, calls[i]))
  }

  function TextOf(content: string): seq<Block> {
    if content == "" then [] else [Text(content)]
  }

  function BlocksOf(d: Decoder, m: Message): seq<Block> {
    match m
    case Tool(id, content) => [ToolResult(id, content)]
    case User(content) => TextOf(content)
    case Assistant(content, calls) => TextOf(content) + Uses(d, calls)
  }

  function WireOf(d: Decoder, m: Message): seq<Wire> {
    if BlocksOf(d, m) == [] then [] else [Wire(RoleOf(m), BlocksOf(d, m))]
  }

  // ----- the whole history

  // Put two translated pieces together, merging where the roles meet.
  function Join(x: seq<Wire>, y: seq<Wire>): seq<Wire> {
    if x == [] then y
    else if y == [] then x
    else
      var last := x[|x| - 1];
      if last.role == y[0].role then x[..|x| - 1] + [Wire(last.role, last.content + y[0].content)] + y[1..]
      else x + y
  }

  function Translate(d: Decoder, ms: seq<Message>): seq<Wire> {
    if ms == [] then [] else Join(Translate(d, ms[..|ms| - 1]), WireOf(d, ms[|ms| - 1]))
  }

  function ChatOf(entries: seq<Entry>): seq<Message> {
    if entries == [] then []
    else
      ChatOf(entries[..|entries| - 1])
      + if entries[|entries| - 1].Chat? then [entries[|entries| - 1].message] else []
  }

  function SystemOf(entries: seq<Entry>): seq<string> {
    if entries == [] then []
    else
      SystemOf(entries[..|entries| - 1])
      + if entries[|entries| - 1].System? then [entries[|entries| - 1].text] else []
  }

  // The parts that are not empty, with a blank line between them.
  function JoinedParts(parts: seq<string>): string {
    if parts == [] then ""
    else
      var before, last := JoinedParts(parts[..|parts| - 1]), parts[|parts| - 1];
      if last == "" then before
      else if before == "" then last
      else before + "\n\n" + last
  }

  // Messages and system parts keep their order and are told apart by their kind.
  lemma {:induction false} EntriesAreSplit(a: seq<Entry>, b: seq<Entry>)
    ensures ChatOf(a + b) == ChatOf(a) + ChatOf(b)
    ensures SystemOf(a + b) == SystemOf(a) + SystemOf(b)
    decreases |b|
  {
    if b == [] {
      assert a + b == a;
    } else {
      assert (a + b)[..|a + b| - 1] == a + b[..|b| - 1];
      EntriesAreSplit(a, b[..|b| - 1]);
    }
  }

  lemma OneEntryIsSplit(e: Entry)
    ensures ChatOf([e]) == if e.Chat? then [e.message] else []
    ensures SystemOf([e]) == if e.System? then [e.text] else []
  {
    assert [e][..0] == [];
  }

  // Parts are joined by a blank line, and empty ones leave none behind.
  lemma {:induction false} PartsAreJoined(a: seq<string>, b: seq<string>)
    ensures
      var x, y := JoinedParts(a), JoinedParts(b);
      JoinedParts(a + b) == if x == "" then y else if y == "" then x else x + "\n\n" + y
    decreases |b|
  {
    if b == [] {
      assert a + b == a;
    } else {
      assert (a + b)[..|a + b| - 1] == a + b[..|b| - 1];
      PartsAreJoined(a, b[..|b| - 1]);
      var x, y, last := JoinedParts(a), JoinedParts(b[..|b| - 1]), b[|b| - 1];
      assert x + "\n\n" + y + "\n\n" + last == x + "\n\n" + (y + "\n\n" + last);
    }
  }

  lemma OnePartIsItself(part: string)
    ensures JoinedParts([part]) == part
  {
    assert [part][..0] == [];
  }

  // ----- the reference: tagged blocks, grouped into runs of one role

  function Tags(role: Role, blocks: seq<Block>): (r: seq<Tagged>)
    ensures |r| == |blocks|
  {
    seq(|blocks|, i requires 0 <= i < |blocks| => Tagged(role, blocks[i]))
  }

  // The blocks of a history, in order.
  function TagsOf(d: Decoder, ms: seq<Message>): seq<Tagged> {
    if ms == [] then []
    else TagsOf(d, ms[..|ms| - 1]) + Tags(RoleOf(ms[|ms| - 1]), BlocksOf(d, ms[|ms| - 1]))
  }

  // The blocks of a translation, in order.
  function Flat(wire: seq<Wire>): seq<Tagged> {
    if wire == [] then [] else Tags(wire[0].role, wire[0].content) + Flat(wire[1..])
  }

  function Grouped(tags: seq<Tagged>): seq<Wire> {
    if tags == [] then []
    else Join([Wire(tags[0].role, [tags[0].block])], Grouped(tags[1..]))
  }

  // Roles alternate and no message is empty.
  predicate Canonical(wire: seq<Wire>) {
    && (forall i :: 0 <= i < |wire| ==> wire[i].content != [])
    && (forall i :: 0 < i < |wire| ==> wire[i].role != wire[i - 1].role)
  }

  lemma TagsOfConcat(role: Role, a: seq<Block>, b: seq<Block>)
    ensures Tags(role, a + b) == Tags(role, a) + Tags(role, b)
  {
  }

  lemma {:induction false} FlatOfConcat(x: seq<Wire>, y: seq<Wire>)
    ensures Flat(x + y) == Flat(x) + Flat(y)
  {
    if x == [] {
      assert x + y == y;
    } else {
      assert (x + y)[1..] == x[1..] + y;
      FlatOfConcat(x[1..], y);
    }
  }

  lemma FlatOfOne(w: Wire)
    ensures Flat([w]) == Tags(w.role, w.content)
  {
    assert Flat([w][1..]) == [];
  }

  lemma FlatOfJoin(x: seq<Wire>, y: seq<Wire>)
    ensures Flat(Join(x, y)) == Flat(x) + Flat(y)
  {
    hide Flat;
    if x == [] || y == [] {
      assert Flat([]) == [] by { NothingIsFlat(); }
    } else if x[|x| - 1].role == y[0].role {
      FlatOfMerge(x[..|x| - 1], x[|x| - 1], y[0], y[1..]);
      assert x[..|x| - 1] + [x[|x| - 1]] == x && [y[0]] + y[1..] == y;
    } else {
      FlatOfConcat(x, y);
    }
  }

  lemma FlatOfMerge(front: seq<Wire>, last: Wire, first: Wire, rest: seq<Wire>)
    requires last.role == first.role
    ensures
      var both := Wire(last.role, last.content + first.content);
      Flat(front + [both] + rest) == Flat(front + [last]) + Flat([first] + rest)
  {
    hide Flat, Tags;
    var both := Wire(last.role, last.content + first.content);
    FlatOfConcat(front, [last]);
    FlatOfConcat([first], rest);
    FlatOfConcat(front + [both], rest);
    FlatOfConcat(front, [both]);
    FlatOfOne(last);
    FlatOfOne(first);
    FlatOfOne(both);
    TagsOfConcat(last.role, last.content, first.content);
    assert Flat(front) + (Tags(last.role, last.content) + Tags(first.role, first.content)) + Flat(rest)
        == (Flat(front) + Tags(last.role, last.content)) + (Tags(first.role, first.content) + Flat(rest));
  }

  lemma NothingIsFlat()
    ensures Flat([]) == []
  {
  }

  lemma JoinIsCanonical(x: seq<Wire>, y: seq<Wire>)
    requires Canonical(x) && Canonical(y)
    ensures Canonical(Join(x, y))
  {
  }

  // A canonical translation is the grouping of its own blocks, so it is the only
  // canonical one with those blocks.
  lemma {:induction false} CanonicalIsGrouped(wire: seq<Wire>)
    requires Canonical(wire)
    ensures Grouped(Flat(wire)) == wire
    decreases |Flat(wire)|
  {
    hide Canonical, Join, Flat, Grouped;
    if wire == [] {
      NothingIsFlat();
      NothingIsGrouped();
    } else {
      FirstBlockApart(wire);
      CanonicalIsGrouped(WithoutFirstBlock(wire));
      GroupedStep(Flat(wire));
    }
  }

  lemma NothingIsGrouped()
    ensures Grouped([]) == []
  {
  }

  lemma GroupedStep(tags: seq<Tagged>)
    requires tags != []
    ensures Grouped(tags) == Join([Wire(tags[0].role, [tags[0].block])], Grouped(tags[1..]))
  {
  }

  function WithoutFirstBlock(wire: seq<Wire>): seq<Wire>
    requires wire != [] && wire[0].content != []
  {
    if |wire[0].content| == 1 then wire[1..]
    else [Wire(wire[0].role, wire[0].content[1..])] + wire[1..]
  }

  // A canonical translation is its first block joined to a canonical rest.
  lemma FirstBlockApart(wire: seq<Wire>)
    requires Canonical(wire) && wire != []
    ensures wire[0].content != []
    ensures
      var rest := WithoutFirstBlock(wire);
      && Canonical(rest)
      && Flat(wire) == [Tagged(wire[0].role, wire[0].content[0])] + Flat(rest)
      && Join([Wire(wire[0].role, [wire[0].content[0]])], rest) == wire
  {
    hide Flat, Join, WithoutFirstBlock;
    RestIsCanonical(wire);
    var w := wire[0];
    FirstBlockTag(w, wire[1..]);
    FirstBlockJoins(w, wire[1..]);
    assert [w] + wire[1..] == wire;
  }

  lemma RestIsCanonical(wire: seq<Wire>)
    requires Canonical(wire) && wire != []
    ensures wire[0].content != [] && Canonical(WithoutFirstBlock(wire))
  {
    var rest := WithoutFirstBlock(wire);
    if |wire[0].content| == 1 {
      forall i | 0 < i < |rest| ensures rest[i].role != rest[i - 1].role {
        assert rest[i] == wire[i + 1] && rest[i - 1] == wire[i];
      }
    } else {
      forall i | 0 < i < |rest| ensures rest[i] == wire[i] {
      }
    }
  }

  lemma FirstBlockTag(w: Wire, others: seq<Wire>)
    requires w.content != []
    ensures Flat([w] + others)
         == [Tagged(w.role, w.content[0])] + Flat(WithoutFirstBlock([w] + others))
  {
    hide Flat, Tags;
    var first, later := [Tagged(w.role, w.content[0])], Tags(w.role, w.content[1..]);
    FlatOfConcat([w], others);
    FlatOfOne(w);
    assert Flat([w]) == first + later by {
      assert w.content == [w.content[0]] + w.content[1..];
      TagsOfConcat(w.role, [w.content[0]], w.content[1..]);
      TagOfOne(w.role, w.content[0]);
    }
    assert Flat(WithoutFirstBlock([w] + others)) == later + Flat(others) by {
      assert ([w] + others)[1..] == others;
      if |w.content| > 1 {
        FlatOfConcat([Wire(w.role, w.content[1..])], others);
        FlatOfOne(Wire(w.role, w.content[1..]));
      }
    }
  }

  lemma TagOfOne(role: Role, block: Block)
    ensures Tags(role, [block]) == [Tagged(role, block)]
  {
  }

  lemma FirstBlockJoins(w: Wire, others: seq<Wire>)
    requires w.content != [] && (others != [] ==> others[0].role != w.role)
    ensures Join([Wire(w.role, [w.content[0]])], WithoutFirstBlock([w] + others)) == [w] + others
  {
    hide Join;
    var first := Wire(w.role, [w.content[0]]);
    assert ([w] + others)[1..] == others;
    if |w.content| > 1 {
      MergeFirst(first, Wire(w.role, w.content[1..]), others);
      assert [w.content[0]] + w.content[1..] == w.content;
    } else {
      assert [w.content[0]] == w.content && first == w;
      JoinApart(w, others);
    }
  }

  lemma MergeFirst(a: Wire, b: Wire, others: seq<Wire>)
    requires a.role == b.role
    ensures Join([a], [b] + others) == [Wire(a.role, a.content + b.content)] + others
  {
    assert [a][..0] == [] && ([b] + others)[1..] == others;
  }

  lemma JoinApart(w: Wire, others: seq<Wire>)
    requires others != [] ==> others[0].role != w.role
    ensures Join([w], others) == [w] + others
  {
  }

  lemma {:induction false} TranslationIsCanonical(d: Decoder, ms: seq<Message>)
    ensures Canonical(Translate(d, ms)) && Flat(Translate(d, ms)) == TagsOf(d, ms)
  {
    hide Join, Canonical, Flat, BlocksOf;
    if ms == [] {
      NothingIsFlat();
      assert Canonical([]) by { NothingIsCanonical(); }
    } else {
      var before, m := ms[..|ms| - 1], ms[|ms| - 1];
      TranslationIsCanonical(d, before);
      WireOfOne(d, m);
      JoinIsCanonical(Translate(d, before), WireOf(d, m));
      FlatOfJoin(Translate(d, before), WireOf(d, m));
    }
  }

  lemma NothingIsCanonical()
    ensures Canonical([])
  {
  }

  lemma WireOfOne(d: Decoder, m: Message)
    ensures Canonical(WireOf(d, m)) && Flat(WireOf(d, m)) == Tags(RoleOf(m), BlocksOf(d, m))
  {
    if BlocksOf(d, m) != [] {
      FlatOfOne(Wire(RoleOf(m), BlocksOf(d, m)));
    }
  }

  // The translation groups the blocks of the history: none is lost, added,
  // changed or moved, each keeps its role, and a new message starts exactly
  // where the role changes.
  lemma TranslationGroupsBlocks(d: Decoder, ms: seq<Message>)
    ensures Translate(d, ms) == Grouped(TagsOf(d, ms))
    ensures Flat(Translate(d, ms)) == TagsOf(d, ms)
    ensures forall i :: 0 < i < |Translate(d, ms)| ==> Translate(d, ms)[i].role != Translate(d, ms)[i - 1].role
  {
    TranslationIsCanonical(d, ms);
    CanonicalIsGrouped(Translate(d, ms));
  }

  lemma {:induction false} TagsOfHistories(d: Decoder, a: seq<Message>, b: seq<Message>)
    ensures TagsOf(d, a + b) == TagsOf(d, a) + TagsOf(d, b)
    decreases |b|
  {
    if b == [] {
      assert a + b == a;
    } else {
      assert (a + b)[..|a + b| - 1] == a + b[..|b| - 1];
      TagsOfHistories(d, a, b[..|b| - 1]);
    }
  }

  lemma TranslateConcat(d: Decoder, a: seq<Message>, b: seq<Message>)
    ensures Translate(d, a + b) == Join(Translate(d, a), Translate(d, b))
  {
    hide Join, Canonical, Flat, TagsOf, Translate, Grouped;
    TranslationGroupsBlocks(d, a + b);
    TagsOfHistories(d, a, b);
    TranslationIsCanonical(d, a);
    TranslationIsCanonical(d, b);
    JoinIsCanonical(Translate(d, a), Translate(d, b));
    FlatOfJoin(Translate(d, a), Translate(d, b));
    CanonicalIsGrouped(Join(Translate(d, a), Translate(d, b)));
  }

  // ----- the blocks in the fields of messages and calls

  // A call is sent with its id, its name and its decoded arguments; no arguments
  // decode as an empty object's text, and what does not decode is an empty object.
  lemma UseInFields(d: Decoder, c: Call)
    ensures
      var use, text := UseOf(d, c), if c.arguments == "" then "{}" else c.arguments;
      && use.ToolUse? && use.id == c.id && use.name == c.name
      && (d(text).Some? ==> use.input == d(text).value)
      && (d(text).None? ==> use.input == EmptyObject)
  {
  }

  // A result is one block of the user's with the id and the text of the result; a
  // question is one text block, if it is not empty; an answer is its text, if it is
  // not empty, and then its calls in order.
  lemma BlocksInFields(d: Decoder, m: Message)
    ensures m.Assistant? <==> RoleOf(m) == AssistantRole
    ensures m.Tool? ==> BlocksOf(d, m) == [ToolResult(m.callId, m.content)]
    ensures m.User? ==> BlocksOf(d, m) == if m.content == "" then [] else [Text(m.content)]
    ensures m.Assistant? ==>
      var blocks, texts := BlocksOf(d, m), if m.content == "" then 0 else 1;
      && |blocks| == texts + |m.calls|
      && (texts == 1 ==> blocks[0] == Text(m.content))
      && forall i :: 0 <= i < |m.calls| ==> blocks[texts + i] == UseOf(d, m.calls[i])
  {
  }

  // The blocks of the k-th message stand together, under its role, behind those of
  // the messages before it and in front of those after it.
  lemma BlocksStandInOrder(d: Decoder, ms: seq<Message>, k: nat)
    requires k < |ms|
    ensures Flat(Translate(d, ms)) ==
            Flat(Translate(d, ms[..k])) + Tags(RoleOf(ms[k]), BlocksOf(d, ms[k])) + Flat(Translate(d, ms[k + 1..]))
    ensures
      var role, blocks := RoleOf(ms[k]), BlocksOf(d, ms[k]);
      forall i :: 0 <= i < |blocks| ==> Tags(role, blocks)[i] == Tagged(role, blocks[i])
  {
    hide TagsOf, Flat, Translate, BlocksOf;
    TranslationIsCanonical(d, ms);
    TranslationIsCanonical(d, ms[..k]);
    TranslationIsCanonical(d, ms[k + 1..]);
    TagsOfHistories(d, ms[..k], ms[k..]);
    TagsOfHistories(d, [ms[k]], ms[k + 1..]);
    TagsOfLone(d, ms[k]);
    assert ms[..k] + ms[k..] == ms && [ms[k]] + ms[k + 1..] == ms[k..];
  }

  lemma TagsOfLone(d: Decoder, m: Message)
    ensures TagsOf(d, [m]) == Tags(RoleOf(m), BlocksOf(d, m))
  {
    assert [m][..0] == [];
    assert TagsOf(d, []) == [];
  }

  // ----- pairing

  function UseIds(blocks: seq<Block>): set<string> {
    set b | b in blocks && b.ToolUse? :: b.id
  }

  function ResultIds(blocks: seq<Block>): set<string> {
    set b | b in blocks && b.ToolResult? :: b.toolUseId
  }

  // Each message holds results for exactly the calls of the message before it.
  predicate Paired(wire: seq<Wire>) {
    && (wire != [] ==> ResultIds(wire[0].content) == {} && UseIds(wire[|wire| - 1].content) == {})
    && (forall i :: 0 < i < |wire| ==> ResultIds(wire[i].content) == UseIds(wire[i - 1].content))
  }

  lemma IdsOfConcat(a: seq<Block>, b: seq<Block>)
    ensures UseIds(a + b) == UseIds(a) + UseIds(b)
    ensures ResultIds(a + b) == ResultIds(a) + ResultIds(b)
  {
  }

  lemma JoinAtSameRole(x: seq<Wire>, y: seq<Wire>)
    requires x != [] && y != [] && x[|x| - 1].role == y[0].role
    ensures
      var n, joined := |x|, Join(x, y);
      && |joined| == n + |y| - 1
      && (forall i :: 0 <= i < n - 1 ==> joined[i] == x[i])
      && joined[n - 1].content == x[n - 1].content + y[0].content
      && (forall i :: n <= i < |joined| ==> joined[i] == y[i - n + 1])
  {
  }

  lemma JoinKeepsPaired(x: seq<Wire>, y: seq<Wire>)
    requires Paired(x) && Paired(y)
    ensures Paired(Join(x, y))
  {
    if x != [] && y != [] {
      if x[|x| - 1].role == y[0].role {
        MergeKeepsPaired(x, y);
      } else {
        ConcatKeepsPaired(x, y);
      }
    }
  }

  lemma ConcatKeepsPaired(x: seq<Wire>, y: seq<Wire>)
    requires Paired(x) && Paired(y)
    ensures Paired(x + y)
  {
    hide UseIds, ResultIds;
    forall i | 0 < i < |x + y| ensures ResultIds((x + y)[i].content) == UseIds((x + y)[i - 1].content) {
      if i > |x| {
        assert (x + y)[i] == y[i - |x|] && (x + y)[i - 1] == y[i - |x| - 1];
      }
    }
  }

  lemma MergeKeepsPaired(x: seq<Wire>, y: seq<Wire>)
    requires Paired(x) && Paired(y) && x != [] && y != [] && x[|x| - 1].role == y[0].role
    ensures Paired(Join(x, y))
  {
    hide UseIds, ResultIds, Join;
    var n, joined := |x|, Join(x, y);
    JoinAtSameRole(x, y);
    IdsOfConcat(x[n - 1].content, y[0].content);
    assert ResultIds(joined[n - 1].content) == ResultIds(x[n - 1].content);
    assert UseIds(joined[n - 1].content) == UseIds(y[0].content);
    forall i | 0 < i < |joined| ensures ResultIds(joined[i].content) == UseIds(joined[i - 1].content) {
      if i < n {
        assert joined[i - 1] == x[i - 1];
      } else {
        assert joined[i] == y[i - n + 1];
        assert UseIds(joined[i - 1].content) == UseIds(y[i - n].content);
      }
    }
  }

  lemma PlainIsPaired(d: Decoder, m: Message)
    requires !HasCalls(m) && !m.Tool?
    ensures Paired(WireOf(d, m))
  {
  }

  lemma UseIdsOfCalls(d: Decoder, content: string, calls: seq<Call>)
    ensures UseIds(TextOf(content) + Uses(d, calls)) == CallIds(calls)
    ensures ResultIds(TextOf(content) + Uses(d, calls)) == {}
  {
    var blocks := TextOf(content) + Uses(d, calls);
    forall id | id in CallIds(calls) ensures id in UseIds(blocks) {
      var i :| 0 <= i < |calls| && calls[i].id == id;
      assert blocks[|TextOf(content)| + i] == UseOf(d, calls[i]);
      assert UseOf(d, calls[i]) in blocks;
    }
    forall id | id in UseIds(blocks) ensures id in CallIds(calls) {
      var j :| 0 <= j < |blocks| && blocks[j].ToolUse? && blocks[j].id == id;
      assert calls[j - |TextOf(content)|] in calls;
    }
  }

  // A run of results is sent as one user message.
  function RunBlocks(run: seq<Message>): seq<Block>
    requires forall m :: m in run ==> m.Tool?
  {
    seq(|run|, i requires 0 <= i < |run| => ToolResult(run[i].callId, run[i].content))
  }

  lemma {:induction false} RunIsOneMessage(d: Decoder, run: seq<Message>)
    requires run != [] && forall m :: m in run ==> m.Tool?
    ensures Translate(d, run) == [Wire(UserRole, RunBlocks(run))]
  {
    var before, m := run[..|run| - 1], run[|run| - 1];
    assert RunBlocks(run) == RunBlocks(before) + [ToolResult(m.callId, m.content)];
    assert WireOf(d, m) == [Wire(UserRole, [ToolResult(m.callId, m.content)])];
    if before == [] {
      assert run == [m] && RunBlocks(before) == [];
      TranslateOne(d, m);
      assert RunBlocks(run) == [ToolResult(m.callId, m.content)];
    } else {
      RunIsOneMessage(d, before);
    }
  }

  lemma RunIds(run: seq<Message>)
    requires forall m :: m in run ==> m.Tool?
    ensures ResultIds(RunBlocks(run)) == ToolIds(run) && UseIds(RunBlocks(run)) == {}
  {
    forall id | id in ToolIds(run) ensures id in ResultIds(RunBlocks(run)) {
      var i :| 0 <= i < |run| && run[i].callId == id;
      assert RunBlocks(run)[i] in RunBlocks(run);
    }
    forall id | id in ResultIds(RunBlocks(run)) ensures id in ToolIds(run) {
      var i :| 0 <= i < |run| && RunBlocks(run)[i].toolUseId == id;
      assert run[i] in run;
    }
  }

  lemma TranslateOne(d: Decoder, m: Message)
    ensures Translate(d, [m]) == WireOf(d, m)
  {
    assert [m][..0] == [];
  }

  // A message with calls and the run that answers them.
  lemma BlockIsPaired(d: Decoder, m: Message, run: seq<Message>)
    requires HasCalls(m) && forall t :: t in run ==> t.Tool?
    requires ToolIds(run) == CallIds(m.calls)
    ensures Paired(Translate(d, [m] + run))
  {
    hide Translate, Uses, RunBlocks, UseIds, ResultIds;
    assert run != [] by {
      assert m.calls[0] in m.calls && m.calls[0].id in CallIds(m.calls);
    }
    TranslateConcat(d, [m], run);
    TranslateOne(d, m);
    RunIsOneMessage(d, run);
    UseIdsOfCalls(d, m.content, m.calls);
    RunIds(run);
    assert Translate(d, [m] + run) == [Wire(AssistantRole, BlocksOf(d, m)), Wire(UserRole, RunBlocks(run))];
  }

  // From every valid history, results and calls stay paired message by message.
  lemma {:induction false} TranslationKeepsPairing(d: Decoder, ms: seq<Message>)
    requires ProtocolValid(ms)
    ensures Paired(Translate(d, ms))
    decreases |ms|
  {
    hide Paired, Translate, Join, LeadingTools, RunOf, RestOf, ToolIds, CallIds;
    if ms == [] {
      assert Paired(Translate(d, ms)) by { NothingIsPaired(d); }
    } else if !HasCalls(ms[0]) {
      TranslationKeepsPairing(d, ms[1..]);
      TranslateConcat(d, [ms[0]], ms[1..]);
      assert [ms[0]] + ms[1..] == ms;
      TranslateOne(d, ms[0]);
      PlainIsPaired(d, ms[0]);
      JoinKeepsPaired(WireOf(d, ms[0]), Translate(d, ms[1..]));
    } else {
      var head := [ms[0]] + RunOf(ms);
      TranslationKeepsPairing(d, RestOf(ms));
      TranslateConcat(d, head, RestOf(ms));
      BlockIsPaired(d, ms[0], RunOf(ms));
      JoinKeepsPaired(Translate(d, head), Translate(d, RestOf(ms)));
    }
  }

  lemma NothingIsPaired(d: Decoder)
    ensures Paired(Translate(d, []))
  {
  }

  // Calls are made by the assistant only.
  predicate CallsAreAssistants(wire: seq<Wire>) {
    forall i :: 0 <= i < |wire| && wire[i].role == UserRole ==> UseIds(wire[i].content) == {}
  }

  lemma JoinKeepsCallers(x: seq<Wire>, y: seq<Wire>)
    requires CallsAreAssistants(x) && CallsAreAssistants(y)
    ensures CallsAreAssistants(Join(x, y))
  {
    hide UseIds;
    if x != [] && y != [] && x[|x| - 1].role == y[0].role {
      JoinAtSameRole(x, y);
      IdsOfConcat(x[|x| - 1].content, y[0].content);
    }
  }

  lemma {:induction false} CallersAreAssistants(d: Decoder, ms: seq<Message>)
    ensures CallsAreAssistants(Translate(d, ms))
  {
    hide Join;
    if ms != [] {
      CallersAreAssistants(d, ms[..|ms| - 1]);
      JoinKeepsCallers(Translate(d, ms[..|ms| - 1]), WireOf(d, ms[|ms| - 1]));
    }
  }

  // Every message with calls is the assistant's, and the very next one is a user
  // message with a result for each of them and for nothing else.
  lemma CallsAreAnsweredByNextMessage(d: Decoder, ms: seq<Message>, i: nat)
    requires ProtocolValid(ms) && i < |Translate(d, ms)| && UseIds(Translate(d, ms)[i].content) != {}
    ensures
      var wire := Translate(d, ms);
      && wire[i].role == AssistantRole
      && i + 1 < |wire| && wire[i + 1].role == UserRole
      && ResultIds(wire[i + 1].content) == UseIds(wire[i].content)
  {
    TranslationKeepsPairing(d, ms);
    TranslationGroupsBlocks(d, ms);
    CallersAreAssistants(d, ms);
  }

  // So is every request of every sequence of agent runs, interrupted or not.
  lemma EveryRequestIsPairedOnTheWire(d: Decoder, s: AgentRuns.State, actions: seq<AgentRuns.Action>, i: nat)
    requires AgentRuns.Invariant(s) && AgentRuns.Possible(s, actions) && AgentRuns.EveryRepairApplies(s, actions)
    requires i < |AgentRuns.Requests(s, actions)|
    ensures
      var wire := Translate(d, AgentRuns.Requests(s, actions)[i]);
      Paired(wire) && Canonical(wire)
  {
    hide Paired, Canonical, Translate, AgentRuns.Invariant;
    AgentRuns.EveryRequestIsValid(s, actions, i);
    TranslationKeepsPairing(d, AgentRuns.Requests(s, actions)[i]);
    TranslationIsCanonical(d, AgentRuns.Requests(s, actions)[i]);
  }

  // The first message sent is a user message with the question in front.
  lemma QuestionComesFirst(d: Decoder, ms: seq<Message>)
    requires ms != [] && ms[0].User? && ms[0].content != ""
    ensures
      var wire := Translate(d, ms);
      wire != [] && wire[0].role == UserRole && [Text(ms[0].content)] <= wire[0].content
  {
    hide Translate, Join;
    TranslateConcat(d, [ms[0]], ms[1..]);
    assert [ms[0]] + ms[1..] == ms;
    TranslateOne(d, ms[0]);
    JoinKeepsFront(Wire(UserRole, [Text(ms[0].content)]), Translate(d, ms[1..]));
  }

  lemma JoinKeepsFront(w: Wire, y: seq<Wire>)
    ensures Join([w], y) != [] && Join([w], y)[0].role == w.role && w.content <= Join([w], y)[0].content
  {
    if y != [] && w.role == y[0].role {
      assert [w][..0] == [];
      assert Join([w], y)[0] == Wire(w.role, w.content + y[0].content);
    }
  }

  // ----- the translating loop

  // The system prompt, and the messages, merged as they come.
  method AnthropicMessages(d: Decoder, entries: seq<Entry>) returns (system: string, wire: seq<Wire>)
    ensures wire == Translate(d, ChatOf(entries))
    ensures system == JoinedParts(SystemOf(entries))
  {
    hide Join, Translate, ChatOf, BlocksOf;
    var parts: seq<string> := [];
    wire := [];
    NothingTranslates(d);
    for i := 0 to |entries|
      invariant wire == Translate(d, ChatOf(entries[..i]))
      invariant parts == SystemOf(entries[..i])
    {
      assert entries[..i + 1][..i] == entries[..i];
      ChatStep(entries[..i + 1]);
      if entries[i].System? {
        parts := parts + [entries[i].text];
        assert ChatOf(entries[..i]) + [] == ChatOf(entries[..i]);
      } else {
        var m := entries[i].message;
        var blocks := AnthropicContent(d, m);
        TranslateStep(d, ChatOf(entries[..i]), m);
        if blocks != [] {
          wire := Extend(wire, RoleOf(m), blocks);
        }
      }
    }
    assert entries[..|entries|] == entries;
    system := JoinParts(parts);
  }

  // Join the parts that are not empty with blank lines.
  method JoinParts(parts: seq<string>) returns (text: string)
    ensures text == JoinedParts(parts)
  {
    text := "";
    for i := 0 to |parts|
      invariant text == JoinedParts(parts[..i])
    {
      assert parts[..i + 1][..i] == parts[..i];
      if parts[i] != "" {
        text := if text == "" then parts[i] else text + "\n\n" + parts[i];
      }
    }
    assert parts[..|parts|] == parts;
  }

  // Append blocks to the last message when it has the role, else as a new one.
  method Extend(wire: seq<Wire>, role: Role, blocks: seq<Block>) returns (r: seq<Wire>)
    ensures r == Join(wire, [Wire(role, blocks)])
  {
    var last := |wire| - 1;
    if wire != [] && wire[last].role == role {
      r := wire[last := wire[last].(content := wire[last].content + blocks)];
      assert r == wire[..last] + [Wire(role, wire[last].content + blocks)];
    } else {
      r := wire + [Wire(role, blocks)];
    }
  }

  lemma NothingTranslates(d: Decoder)
    ensures Translate(d, ChatOf([])) == []
  {
  }

  lemma ChatStep(entries: seq<Entry>)
    requires entries != []
    ensures
      var last := entries[|entries| - 1];
      ChatOf(entries) == ChatOf(entries[..|entries| - 1]) + if last.Chat? then [last.message] else []
  {
  }

  lemma TranslateStep(d: Decoder, ms: seq<Message>, m: Message)
    ensures Translate(d, ms + [m]) ==
            if BlocksOf(d, m) == [] then Translate(d, ms)
            else Join(Translate(d, ms), [Wire(RoleOf(m), BlocksOf(d, m))])
  {
    assert (ms + [m])[..|ms|] == ms;
  }

  method AnthropicContent(d: Decoder, m: Message) returns (blocks: seq<Block>)
    ensures blocks == BlocksOf(d, m)
  {
    if m.Tool? {
      return [ToolResult(m.callId, m.content)];
    }
    blocks := [];
    if m.content != "" {
      blocks := blocks + [Text(m.content)];
    }
    if m.Assistant? {
      ghost var text := blocks;
      for i := 0 to |m.calls|
        invariant blocks == text + Uses(d, m.calls)[..i]
      {
        blocks := blocks + [UseOf(d, m.calls[i])];
      }
    }
  }
}
