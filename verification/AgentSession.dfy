/**
  A chat session over many runs: repair, archive and tool loop together keep
  every request protocol-valid, whatever point a run is interrupted at; and the
  archive keeps the live window within both of its budgets.
 */
module AgentSession {
  import opened AgentHistory

  const SHORT_TERM_WINDOW: int := 24
  const SHORT_TERM_MAX_CHARS: int := 36000
  const ARCHIVE_MAX_ENTRIES: int := 400

  // ----- concatenation of histories

  function AllCallIds(ms: seq<Message>): set<string> {
    set m, c | m in ms && m.Assistant? && c in m.calls :: c.id
  }

  // Every id that occurs in the history.
  function UsedIds(ms: seq<Message>): set<string> {
    ToolIds(ms) + AllCallIds(ms)
  }

  // No call carries an id that occurs earlier.
  predicate CallIdsAreFresh(ms: seq<Message>, seen: set<string>)
    decreases |ms|
  {
    if ms == [] then true
    else if !HasCalls(ms[0]) then CallIdsAreFresh(ms[1..], seen + ToolIds([ms[0]]))
    else
      && CallIds(ms[0].calls) !! seen
      && CallIdsAreFresh(RestOf(ms), seen + ToolIds(RunOf(ms)) + CallIds(ms[0].calls))
  }

  lemma {:induction false} FreshCallsAreFreshWhenUnanswered(ms: seq<Message>, seen: set<string>)
    requires CallIdsAreFresh(ms, seen)
    ensures UnansweredIdsAreFresh(ms, seen)
    decreases |ms|
  {
    hide RunOf, RestOf, ToolIds, CallIds;
    if ms != [] {
      if !HasCalls(ms[0]) {
        FreshCallsAreFreshWhenUnanswered(ms[1..], seen + ToolIds([ms[0]]));
      } else {
        FreshCallsAreFreshWhenUnanswered(RestOf(ms), seen + ToolIds(RunOf(ms)) + CallIds(ms[0].calls));
      }
    }
  }

  lemma {:induction false} FreshWithFewerSeen(ms: seq<Message>, seen: set<string>, fewer: set<string>)
    requires CallIdsAreFresh(ms, seen) && fewer <= seen
    ensures CallIdsAreFresh(ms, fewer)
    decreases |ms|
  {
    hide RunOf, RestOf, ToolIds, CallIds;
    if ms != [] {
      if !HasCalls(ms[0]) {
        FreshWithFewerSeen(ms[1..], seen + ToolIds([ms[0]]), fewer + ToolIds([ms[0]]));
      } else {
        var ids := ToolIds(RunOf(ms)) + CallIds(ms[0].calls);
        assert seen + ToolIds(RunOf(ms)) + CallIds(ms[0].calls) == seen + ids;
        assert fewer + ToolIds(RunOf(ms)) + CallIds(ms[0].calls) == fewer + ids;
        FreshWithFewerSeen(RestOf(ms), seen + ids, fewer + ids);
      }
    }
  }

  lemma {:induction false} RepairKeepsFresh(ms: seq<Message>, seen: set<string>, earlier: set<string>)
    ensures CallIdsAreFresh(RepairFrom(ms, seen), earlier) <==> CallIdsAreFresh(ms, earlier)
    decreases |ms|
  {
    hide RunOf, RestOf, ToolIds, CallIds, Missing, SeenAfter;
    if ms != [] {
      if !HasCalls(ms[0]) {
        assert RepairFrom(ms, seen)[1..] == RepairFrom(ms[1..], seen + ToolIds([ms[0]]));
        RepairKeepsFresh(ms[1..], seen + ToolIds([ms[0]]), earlier + ToolIds([ms[0]]));
      } else {
        RepairedBlock(ms, seen);
        SeenAfterBlock(ms, seen);
        var out := RepairFrom(ms, seen);
        assert earlier + ToolIds(RunOf(out)) + CallIds(ms[0].calls)
            == earlier + ToolIds(RunOf(ms)) + CallIds(ms[0].calls);
        RepairKeepsFresh(RestOf(ms), SeenAfter(ms, seen), earlier + ToolIds(RunOf(ms)) + CallIds(ms[0].calls));
      }
    }
  }

  lemma UsedIdsOfConcat(a: seq<Message>, b: seq<Message>)
    ensures UsedIds(a + b) == UsedIds(a) + UsedIds(b)
  {
  }

  lemma UsedIdsOfOne(m: Message)
    ensures UsedIds([m]) ==
            match m
            case User(_) => {}
            case Assistant(_, calls) => CallIds(calls)
            case Tool(id, _) => {id}
  {
    assert m in [m];
  }

  lemma UsedIdsOfRun(run: seq<Message>)
    requires forall m :: m in run ==> m.Tool?
    ensures UsedIds(run) == ToolIds(run)
  {
  }

  // The first block of a concatenation is the first block of its first part.
  lemma BlockOfConcat(a: seq<Message>, b: seq<Message>)
    requires a != [] && (b != [] ==> !b[0].Tool?)
    ensures (a + b)[0] == a[0] && RunOf(a + b) == RunOf(a) && RestOf(a + b) == RestOf(a) + b
  {
    assert a + b == [a[0]] + RunOf(a) + (RestOf(a) + b);
    BlockOf(a[0], RunOf(a), RestOf(a) + b);
  }

  // Where the second part starts with no result, the properties of a history
  // are those of its parts.
  lemma {:induction false} ConcatSplits(a: seq<Message>, b: seq<Message>, seen: set<string>)
    requires b != [] ==> !b[0].Tool?
    ensures Answered(a + b) <==> Answered(a) && Answered(b)
    ensures Belonging(a + b) <==> Belonging(a) && Belonging(b)
    ensures CallIdsAreFresh(a + b, seen) <==> CallIdsAreFresh(a, seen) && CallIdsAreFresh(b, seen + UsedIds(a))
    decreases |a|
  {
    hide LeadingTools, RunOf, RestOf, ToolIds, CallIds, UsedIds;
    if a == [] {
      assert a + b == b;
      NoUsedIds();
      assert seen + UsedIds(a) == seen;
    } else if !HasCalls(a[0]) {
      assert (a + b)[1..] == a[1..] + b;
      PlainIds(a);
      ConcatSplits(a[1..], b, seen + ToolIds([a[0]]));
      assert seen + ToolIds([a[0]]) + UsedIds(a[1..]) == seen + UsedIds(a);
    } else {
      BlockOfConcat(a, b);
      BlockIds(a);
      var after := seen + ToolIds(RunOf(a)) + CallIds(a[0].calls);
      ConcatSplits(RestOf(a), b, after);
      assert after + UsedIds(RestOf(a)) == seen + UsedIds(a);
    }
  }

  lemma NoUsedIds()
    ensures UsedIds([]) == {}
  {
  }

  lemma PlainIds(a: seq<Message>)
    requires a != [] && !HasCalls(a[0])
    ensures UsedIds(a) == ToolIds([a[0]]) + UsedIds(a[1..])
  {
    UsedIdsOfOne(a[0]);
    UsedIdsOfConcat([a[0]], a[1..]);
    assert [a[0]] + a[1..] == a;
  }

  lemma BlockIds(a: seq<Message>)
    requires a != [] && HasCalls(a[0])
    ensures UsedIds(a) == ToolIds(RunOf(a)) + CallIds(a[0].calls) + UsedIds(RestOf(a))
  {
    hide RunOf, RestOf, UsedIds;
    UsedIdsOfOne(a[0]);
    UsedIdsOfRun(RunOf(a));
    UsedIdsOfConcat([a[0]], RunOf(a));
    UsedIdsOfConcat([a[0]] + RunOf(a), RestOf(a));
  }

  // ----- the archive cut

  function Chars(ms: seq<Message>): nat {
    if ms == [] then 0 else |ms[0].content| + Chars(ms[1..])
  }

  // The first drop count from d on that brings the rest within the character budget.
  function DropForChars(ms: seq<Message>, d: nat): (r: nat)
    requires d <= |ms|
    ensures d <= r <= |ms|
    ensures r < |ms| ==> Chars(ms[r..]) <= SHORT_TERM_MAX_CHARS
    ensures forall k :: d <= k < r ==> Chars(ms[k..]) > SHORT_TERM_MAX_CHARS
    decreases |ms| - d
  {
    if d == |ms| || Chars(ms[d..]) <= SHORT_TERM_MAX_CHARS then d else DropForChars(ms, d + 1)
  }

  function NextUser(ms: seq<Message>, from: nat): (r: nat)
    requires from <= |ms|
    ensures from <= r <= |ms|
    ensures r < |ms| ==> ms[r].User?
    ensures forall k :: from <= k < r ==> !ms[k].User?
    decreases |ms| - from
  {
    if from == |ms| || ms[from].User? then from else NextUser(ms, from + 1)
  }

  function Overflow(ms: seq<Message>): (r: nat)
    ensures r <= |ms|
  {
    var byCount := if |ms| > SHORT_TERM_WINDOW then |ms| - SHORT_TERM_WINDOW else 0;
    var byChars := if Chars(ms) > SHORT_TERM_MAX_CHARS then DropForChars(ms, 0) else 0;
    if byChars > byCount then byChars else byCount
  }

  // How many messages are archived: up to the next user message when there is one.
  function Cut(ms: seq<Message>): (cut: nat)
    ensures cut <= |ms|
  {
    var overflow := Overflow(ms);
    if overflow == 0 then 0
    else
      var boundary := NextUser(ms, overflow);
      var cut := if boundary < |ms| then boundary else overflow;
      if cut >= |ms| then 0 else cut
  }

  predicate WithinBudgets(ms: seq<Message>) {
    |ms| <= 24 && Chars(ms) <= 36000
  }

  lemma {:induction false} CharsOfSuffix(ms: seq<Message>, i: nat, j: nat)
    requires i <= j <= |ms|
    ensures Chars(ms[j..]) <= Chars(ms[i..])
    decreases j - i
  {
    if i < j {
      assert ms[i..][1..] == ms[i + 1..];
      CharsOfSuffix(ms, i + 1, j);
    }
  }

  // When the newest message is a user message, archiving meets both budgets
  // exactly when that message alone fits the character budget; a cut is then
  // always at a user message, and otherwise nothing is archived at all.
  lemma ArchiveMeetsBudgetsIffNewestFits(ms: seq<Message>)
    requires ms != [] && ms[|ms| - 1].User?
    ensures WithinBudgets(ms[Cut(ms)..]) <==> |ms[|ms| - 1].content| <= 36000
    ensures Cut(ms) > 0 ==> Cut(ms) < |ms| && ms[Cut(ms)].User?
    ensures |ms[|ms| - 1].content| > SHORT_TERM_MAX_CHARS ==> Cut(ms) == 0
  {
    var last := |ms| - 1;
    assert ms[last..] == [ms[last]] && Chars([ms[last]]) == |ms[last].content|;
    assert ms[0..] == ms;
    CharsOfSuffix(ms, Cut(ms), |ms|);
    if |ms[last].content| <= SHORT_TERM_MAX_CHARS {
      var overflow := Overflow(ms);
      assert overflow <= last;
      assert Chars(ms[overflow..]) <= SHORT_TERM_MAX_CHARS by {
        if Chars(ms) > SHORT_TERM_MAX_CHARS {
          CharsOfSuffix(ms, DropForChars(ms, 0), overflow);
        } else {
          CharsOfSuffix(ms, 0, overflow);
        }
      }
      CharsOfSuffix(ms, overflow, Cut(ms));
    } else {
      CharsOfSuffix(ms, 0, last);
      if DropForChars(ms, 0) < |ms| {
        CharsOfSuffix(ms, DropForChars(ms, 0), last);
      }
      if Cut(ms) < |ms| {
        CharsOfSuffix(ms, Cut(ms), last);
      }
    }
  }

  // And it cuts no more than it must: no earlier user message, and not the
  // beginning, would have met the budgets.
  lemma ArchiveCutsNoMoreThanNeeded(ms: seq<Message>, k: nat)
    requires k < Cut(ms) && (k == 0 || ms[k].User?)
    ensures !WithinBudgets(ms[k..])
  {
    var overflow := Overflow(ms);
    var boundary := NextUser(ms, overflow);
    if k < overflow {
      var byChars := if Chars(ms) > SHORT_TERM_MAX_CHARS then DropForChars(ms, 0) else 0;
      if overflow == byChars {
        assert Chars(ms[k..]) > SHORT_TERM_MAX_CHARS;
      } else {
        assert |ms[k..]| == |ms| - k > SHORT_TERM_WINDOW;
      }
    }
  }

  // The overflow is the least number of dropped messages that meets the budgets.
  lemma OverflowIsLeast(ms: seq<Message>)
    ensures WithinBudgets(ms[Overflow(ms)..])
    ensures forall k :: 0 <= k < Overflow(ms) ==> !WithinBudgets(ms[k..])
  {
    assert ms[0..] == ms && ms[|ms|..] == [];
    var drop := Overflow(ms);
    var byChars := if Chars(ms) > SHORT_TERM_MAX_CHARS then DropForChars(ms, 0) else 0;
    CharsOfSuffix(ms, byChars, drop);
    forall k | 0 <= k < drop ensures !WithinBudgets(ms[k..]) {
      if drop == byChars {
        assert Chars(ms[k..]) > SHORT_TERM_MAX_CHARS;
      } else {
        assert |ms[k..]| == |ms| - k > SHORT_TERM_WINDOW;
      }
    }
  }

  // The cut is the first user message from there on; without one it is the overflow
  // itself, and nothing is cut where that would leave nothing.
  lemma CutIsNextUserOrOverflow(ms: seq<Message>)
    ensures
      var from, cut := Overflow(ms), Cut(ms);
      && (from == 0 ==> cut == 0)
      && (from > 0 && (exists k :: from <= k < |ms| && ms[k].User?) ==>
            from <= cut < |ms| && ms[cut].User? && forall k :: from <= k < cut ==> !ms[k].User?)
      && (0 < from < |ms| && (forall k :: from <= k < |ms| ==> !ms[k].User?) ==> cut == from)
      && (from == |ms| ==> cut == 0)
  {
    hide Overflow;
  }

  // ----- archive entries

  function CallNames(calls: seq<Call>): string {
    if calls == [] then []
    else if |calls| == 1 then calls[0].name
    else CallNames(calls[..|calls| - 1]) + ", " + calls[|calls| - 1].name
  }

  function EntryOf(m: Message): string {
    match m
    case User(content) => "user: " + content
    case Assistant(content, calls) =>
      "assistant: " + content + if calls == [] then [] else " " + CallNames(calls)
    case Tool(_, content) => "tool: " + content
  }

  function Entries(ms: seq<Message>): seq<string> {
    if ms == [] then [] else Entries(ms[..|ms| - 1]) + [EntryOf(ms[|ms| - 1])]
  }

  function LabelOf(m: Message): string {
    if m.User? then "user: " else if m.Assistant? then "assistant: " else "tool: "
  }

  // The k-th entry is the k-th message: its role, its text, and the names of its calls.
  lemma {:induction false} EntriesInOrder(ms: seq<Message>, k: nat)
    requires k < |ms|
    ensures |Entries(ms)| == |ms|
    ensures LabelOf(ms[k]) + ms[k].content <= Entries(ms)[k]
    ensures !HasCalls(ms[k]) ==> Entries(ms)[k] == LabelOf(ms[k]) + ms[k].content
    ensures HasCalls(ms[k]) ==> Entries(ms)[k] == LabelOf(ms[k]) + ms[k].content + " " + CallNames(ms[k].calls)
  {
    EntriesCount(ms[..|ms| - 1]);
    EntryInFields(ms[k]);
    if k < |ms| - 1 {
      EntriesInOrder(ms[..|ms| - 1], k);
    }
  }

  lemma {:induction false} EntriesCount(ms: seq<Message>)
    ensures |Entries(ms)| == |ms|
  {
    if ms != [] {
      EntriesCount(ms[..|ms| - 1]);
    }
  }

  lemma EntryInFields(m: Message)
    ensures LabelOf(m) + m.content <= EntryOf(m)
    ensures !HasCalls(m) ==> EntryOf(m) == LabelOf(m) + m.content
    ensures HasCalls(m) ==> EntryOf(m) == LabelOf(m) + m.content + " " + CallNames(m.calls)
  {
    if m.Assistant? {
      assert m.calls == [] ==> "assistant: " + m.content + [] == "assistant: " + m.content;
    }
  }

  // The names stand in the order of the calls, with a comma and a space between.
  lemma CallNamesOfAppend(calls: seq<Call>, c: Call)
    ensures CallNames([c]) == c.name
    ensures calls != [] ==> CallNames(calls + [c]) == CallNames(calls) + ", " + c.name
  {
    assert (calls + [c])[..|calls|] == calls;
  }

  // At most 400 entries: a note about the dropped ones, then the newest 399.
  function Trimmed(archive: seq<string>, note: string): (r: seq<string>)
    ensures |r| <= 400
    ensures |archive| <= 400 ==> r == archive
    ensures |archive| > 400 ==> |r| == 400 && r[0] == note && r[1..] == archive[|archive| - 399..]
  {
    if |archive| <= ARCHIVE_MAX_ENTRIES then archive
    else [note] + archive[|archive| - (ARCHIVE_MAX_ENTRIES - 1)..]
  }

  // ----- the session object

  class Session {
    var messages: seq<Message>
    var pendingArchive: seq<string>

    constructor (initial: seq<Message>)
      ensures messages == initial && pendingArchive == []
    {
      messages, pendingArchive := initial, [];
    }

    // The repair scan of the source: copy each message, eat the results that
    // follow it, and append placeholders for the ids still unanswered.
    method RepairInterruptedTurn()
      modifies this
      ensures messages == Repaired(old(messages)) && pendingArchive == old(pendingArchive)
    {
      hide RepairFrom, ToolIds, LeadingTools, RunOf, RestOf;
      var repaired: seq<Message> := [];
      var index := 0;
      var changed := false;
      NothingRepaired(messages);
      while index < |messages|
        invariant index <= |messages| && messages == old(messages) && pendingArchive == old(pendingArchive)
        invariant repaired + RepairFrom(messages[index..], ToolIds(repaired)) == Repaired(messages)
        invariant !changed ==> repaired == messages[..index]
      {
        var start := index;
        ghost var before := repaired;
        var message := messages[index];
        index := index + 1;
        repaired := repaired + [message];
        if HasCalls(message) {
          index := EndOfRun(messages, start);
          repaired := repaired + messages[start + 1..index];
          var missing := FindMissing(message.calls, ToolIds(repaired));
          CallsRepaired(messages, start, index, before, missing);
          if missing != [] {
            changed := true;
          }
          repaired := repaired + missing;
        } else {
          PlainRepaired(messages, start, before);
        }
      }
      RepairStep([], ToolIds(repaired));
      assert repaired + [] == repaired && messages[..index] == messages && messages[index..] == [];
      if changed {
        messages := repaired;
      }
    }

    // Move the overflow to the archive, trimmed to its own limit.
    method ArchiveOverflow(note: string)
      modifies this
      ensures messages == old(messages)[Cut(old(messages))..]
      ensures pendingArchive == if Cut(old(messages)) == 0 then old(pendingArchive)
                                else Trimmed(old(pendingArchive) + Entries(old(messages)[..Cut(old(messages))]), note)
    {
      hide Cut, Chars;
      var cut := FindCut(messages);
      if cut == 0 {
        return;
      }
      var archive := pendingArchive;
      for i := 0 to cut
        invariant archive == pendingArchive + Entries(messages[..i])
      {
        assert messages[..i + 1][..i] == messages[..i];
        archive := archive + [EntryOf(messages[i])];
      }
      messages := messages[cut..];
      if |archive| > ARCHIVE_MAX_ENTRIES {
        var excess := |archive| - (ARCHIVE_MAX_ENTRIES - 1);
        archive := [note] + archive[excess..];
      }
      pendingArchive := archive;
    }
  }

  // The end of the run of results after a message.
  method EndOfRun(ms: seq<Message>, start: nat) returns (end: nat)
    requires start < |ms|
    ensures start < end <= |ms|
    ensures RunOf(ms[start..]) == ms[start + 1..end] && RestOf(ms[start..]) == ms[end..]
  {
    end := start + 1;
    while end < |ms| && ms[end].Tool?
      invariant start < end <= |ms|
      invariant forall k :: start < k < end ==> ms[k].Tool?
    {
      end := end + 1;
    }
    assert ms[start..] == [ms[start]] + ms[start + 1..end] + ms[end..];
    BlockOf(ms[start], ms[start + 1..end], ms[end..]);
  }

  method FindMissing(calls: seq<Call>, answered: set<string>) returns (missing: seq<Message>)
    ensures missing == Placeholders(calls, answered)
  {
    missing := [];
    for i := 0 to |calls|
      invariant missing == Placeholders(calls[..i], answered)
    {
      assert calls[..i + 1][..i] == calls[..i];
      if calls[i].id !in answered {
        missing := missing + [Placeholder(calls[i])];
      }
    }
    assert calls[..|calls|] == calls;
  }

  // The two thresholds and the search for the next user message.
  method FindCut(ms: seq<Message>) returns (cut: nat)
    ensures cut == Cut(ms)
  {
    var overflow := if |ms| > SHORT_TERM_WINDOW then |ms| - SHORT_TERM_WINDOW else 0;
    var byChars := FindCharOverflow(ms);
    if byChars > overflow {
      overflow := byChars;
    }
    assert overflow == Overflow(ms);
    if overflow == 0 {
      return 0;
    }
    var boundary := overflow;
    while boundary < |ms| && !ms[boundary].User?
      invariant overflow <= boundary <= |ms|
      invariant NextUser(ms, boundary) == NextUser(ms, overflow)
    {
      boundary := boundary + 1;
    }
    if boundary < |ms| {
      overflow := boundary;
    }
    return if overflow >= |ms| then 0 else overflow;
  }

  method FindCharOverflow(ms: seq<Message>) returns (overflow: nat)
    ensures overflow == if Chars(ms) > SHORT_TERM_MAX_CHARS then DropForChars(ms, 0) else 0
  {
    var total := TotalChars(ms);
    overflow := 0;
    if total > SHORT_TERM_MAX_CHARS {
      var dropped := 0;
      assert ms[0..] == ms;
      while overflow < |ms| && total - dropped > SHORT_TERM_MAX_CHARS
        invariant overflow <= |ms|
        invariant total - dropped == Chars(ms[overflow..])
        invariant DropForChars(ms, overflow) == DropForChars(ms, 0)
      {
        assert ms[overflow..][1..] == ms[overflow + 1..];
        dropped := dropped + |ms[overflow].content|;
        overflow := overflow + 1;
      }
    }
  }

  method TotalChars(ms: seq<Message>) returns (total: nat)
    ensures total == Chars(ms)
  {
    total := 0;
    assert ms[0..] == ms;
    for i := 0 to |ms|
      invariant total + Chars(ms[i..]) == Chars(ms)
    {
      assert ms[i..][1..] == ms[i + 1..];
      total := total + |ms[i].content|;
    }
  }

  lemma NothingRepaired(ms: seq<Message>)
    ensures [] + RepairFrom(ms[0..], ToolIds([])) == Repaired(ms)
  {
    assert ms[0..] == ms && ToolIds([]) == {};
  }

  lemma NoToolId(m: Message)
    requires !m.Tool?
    ensures ToolIds([m]) == {}
  {
  }

  // Repairing one message with calls, its results included.
  lemma CallsRepaired(ms: seq<Message>, start: nat, end: nat, before: seq<Message>, missing: seq<Message>)
    requires start < end <= |ms| && HasCalls(ms[start])
    requires RunOf(ms[start..]) == ms[start + 1..end] && RestOf(ms[start..]) == ms[end..]
    requires missing == Placeholders(ms[start].calls, ToolIds(before + [ms[start]] + ms[start + 1..end]))
    ensures
      var after := before + [ms[start]] + ms[start + 1..end] + missing;
      after + RepairFrom(ms[end..], ToolIds(after)) == before + RepairFrom(ms[start..], ToolIds(before))
  {
    hide RepairFrom, ToolIds, LeadingTools, RunOf, RestOf, Placeholders;
    var m, run := ms[start], ms[start + 1..end];
    var after := before + [m] + run + missing;
    RepairStep(ms[start..], ToolIds(before));
    NoToolId(m);
    ToolIdsOfConcat(before, [m]);
    ToolIdsOfConcat(before + [m], run);
    ToolIdsOfConcat(before + [m] + run, missing);
    var tail := RepairFrom(ms[end..], ToolIds(after));
    assert RepairFrom(ms[start..], ToolIds(before)) == [m] + (run + missing) + tail by {
      assert ToolIds(before + [m] + run) == ToolIds(before) + ToolIds(run);
      assert ToolIds(after) == ToolIds(before) + ToolIds(run) + ToolIds(missing);
    }
    assert after + tail == before + ([m] + (run + missing) + tail);
  }

  // Repairing one message without calls.
  lemma PlainRepaired(ms: seq<Message>, start: nat, before: seq<Message>)
    requires start < |ms| && !HasCalls(ms[start])
    ensures
      var after := before + [ms[start]];
      after + RepairFrom(ms[start + 1..], ToolIds(after)) == before + RepairFrom(ms[start..], ToolIds(before))
  {
    hide RepairFrom, ToolIds, LeadingTools, RunOf, RestOf, Placeholders;
    RepairStep(ms[start..], ToolIds(before));
    ToolIdsOfConcat(before, [ms[start]]);
    assert ms[start..][1..] == ms[start + 1..];
    var tail := RepairFrom(ms[start + 1..], ToolIds(before + [ms[start]]));
    assert before + [ms[start]] + tail == before + ([ms[start]] + tail);
  }

  // One block of a repair.
  lemma RepairStep(ms: seq<Message>, seen: set<string>)
    ensures ms == [] ==> RepairFrom(ms, seen) == []
    ensures ms != [] && !HasCalls(ms[0]) ==>
      RepairFrom(ms, seen) == [ms[0]] + RepairFrom(ms[1..], seen + ToolIds([ms[0]]))
    ensures ms != [] && HasCalls(ms[0]) ==>
      var missing := Placeholders(ms[0].calls, seen + ToolIds(RunOf(ms)));
      RepairFrom(ms, seen) ==
      [ms[0]] + (RunOf(ms) + missing) + RepairFrom(RestOf(ms), seen + ToolIds(RunOf(ms)) + ToolIds(missing))
  {
  }
}
