/**
  Agent runs over one session, step by step. A run may stop after any step (the
  model fails, a tool raises, the process ends); the next run starts from what
  was left. Every request that any such sequence of runs sends is valid.
 */
module AgentRuns {
  import opened Options
  import opened AgentHistory
  import opened AgentSession

  datatype Phase =
    | Resting
    | Mended
    | Asked
    | Thinking
    // The calls of message `at` are being carried out; `done` of them have results.
    | Executing(at: nat, calls: seq<Call>, done: nat)

  datatype State = State(messages: seq<Message>, archive: seq<string>, phase: Phase)

  datatype Action =
    | Mend
    | Ask(content: string)
    | Archive(note: string)
    | Consolidate
    | Answer(content: string, calls: seq<Call>)
    | Finish(output: string)
    | Stop

  predicate Enabled(s: State, a: Action) {
    match a
    case Mend => s.phase.Resting?
    case Ask(_) => s.phase.Mended?
    case Archive(_) => s.phase.Asked?
    case Consolidate => s.phase.Thinking?
    case Answer(_, _) => s.phase.Thinking?
    case Finish(_) => s.phase.Executing? && s.phase.done < |s.phase.calls|
    case Stop => true
  }

  function Next(s: State, a: Action): State
    requires Enabled(s, a)
  {
    match a
    case Mend => s.(messages := Repaired(s.messages), phase := Mended)
    case Ask(content) => s.(messages := s.messages + [User(content)], phase := Asked)
    case Archive(note) => Archived(s, note)
    case Consolidate => s.(archive := [])
    case Answer(content, calls) =>
      s.(messages := s.messages + [Assistant(content, calls)],
         phase := if calls == [] then Resting else Executing(|s.messages|, calls, 0))
    case Finish(output) => Finished(s, output)
    case Stop => s.(phase := Resting)
  }

  function Archived(s: State, note: string): State {
    var cut := Cut(s.messages);
    State(s.messages[cut..],
          if cut == 0 then s.archive else Trimmed(s.archive + Entries(s.messages[..cut]), note),
          Thinking)
  }

  function Finished(s: State, output: string): State
    requires s.phase.Executing? && s.phase.done < |s.phase.calls|
  {
    var Executing(at, calls, done) := s.phase;
    s.(messages := s.messages + [Tool(calls[done].id, output)],
       phase := if done + 1 == |calls| then Thinking else Executing(at, calls, done + 1))
  }

  predicate Possible(s: State, actions: seq<Action>)
    decreases |actions|
  {
    actions == [] || (Enabled(s, actions[0]) && Possible(Next(s, actions[0]), actions[1..]))
  }

  function After(s: State, actions: seq<Action>): State
    requires Possible(s, actions)
    decreases |actions|
  {
    if actions == [] then s else After(Next(s, actions[0]), actions[1..])
  }

  // The histories sent to the model: one whenever a thinking step ends.
  function Requests(s: State, actions: seq<Action>): seq<seq<Message>>
    requires Possible(s, actions)
    decreases |actions|
  {
    if actions == [] then []
    else
      (if s.phase.Thinking? && !actions[0].Consolidate? then [s.messages] else [])
      + Requests(Next(s, actions[0]), actions[1..])
  }

  // Repair is asked only for calls whose ids occur nowhere earlier. A run that left
  // no call unanswered satisfies this whatever its ids are.
  predicate RepairApplies(s: State, a: Action) {
    a.Mend? ==> UnansweredIdsAreFresh(s.messages, {})
  }

  predicate EveryRepairApplies(s: State, actions: seq<Action>)
    requires Possible(s, actions)
    decreases |actions|
  {
    actions == []
    || (RepairApplies(s, actions[0]) && EveryRepairApplies(Next(s, actions[0]), actions[1..]))
  }

  // A run may stop after every step, and stopping changes no message.
  lemma RunsMayStopAnywhere(s: State)
    ensures Enabled(s, Stop) && Next(s, Stop) == s.(phase := Resting)
  {
  }

  // ----- the invariant

  predicate Sound(ms: seq<Message>) {
    && Belonging(ms)
    && (ms != [] ==> ms[0].User?)
  }

  // The history up to `at` is complete; the message there has the calls, and the
  // results so far follow it.
  predicate MidCalls(ms: seq<Message>, at: nat, calls: seq<Call>, done: nat) {
    && done < |calls|
    && |ms| == at + 1 + done
    && at > 0
    && Answered(ms[..at])
    && ms[at].Assistant? && ms[at].calls == calls
    && ResultsOf(ms[at + 1..], calls)
  }

  predicate ResultsOf(run: seq<Message>, calls: seq<Call>) {
    |run| <= |calls| && forall i :: 0 <= i < |run| ==> run[i].Tool? && run[i].callId == calls[i].id
  }

  predicate PhaseInvariant(s: State) {
    match s.phase
    case Resting => true
    case Mended => Answered(s.messages)
    case Asked => Answered(s.messages) && s.messages != [] && s.messages[|s.messages| - 1].User?
    case Thinking => Answered(s.messages) && s.messages != []
    case Executing(at, calls, done) => MidCalls(s.messages, at, calls, done)
  }

  predicate Invariant(s: State) {
    Sound(s.messages) && PhaseInvariant(s) && |s.archive| <= 400
  }

  // ----- each step keeps it

  lemma RepairMakesSoundHistoryValid(ms: seq<Message>)
    requires Sound(ms) && UnansweredIdsAreFresh(ms, {})
    ensures Sound(Repaired(ms)) && Answered(Repaired(ms))
  {
    hide Belonging, Answered, UnansweredIdsAreFresh;
    RepairIsCompleteIffUnansweredIdsFresh(ms);
    RepairKeepsBelonging(ms);
  }

  // A lone message that is no result.
  lemma OneMessage(m: Message, seen: set<string>)
    requires !m.Tool?
    ensures Belonging([m])
    ensures !HasCalls(m) ==> Answered([m])
    ensures CallIdsAreFresh([m], seen) <==> (HasCalls(m) ==> CallIds(m.calls) !! seen)
  {
    assert [m] == [m] + [] + [];
    BlockOf(m, [], []);
    assert ToolIds([]) == {};
  }

  lemma AppendingKeepsSound(ms: seq<Message>, m: Message)
    requires Sound(ms) && !m.Tool? && (ms == [] ==> m.User?)
    ensures Sound(ms + [m])
    ensures Answered(ms) && !HasCalls(m) ==> Answered(ms + [m])
  {
    hide Belonging, Answered, CallIdsAreFresh, UsedIds, CallIds;
    OneMessage(m, {});
    ConcatSplits(ms, [m], {});
  }

  lemma SuffixAtUserIsValid(ms: seq<Message>, cut: nat)
    requires Sound(ms) && Answered(ms)
    requires cut < |ms| && ms[cut].User?
    ensures Sound(ms[cut..]) && Answered(ms[cut..])
  {
    hide Belonging, Answered, CallIdsAreFresh, UsedIds;
    assert ms[..cut] + ms[cut..] == ms;
    ConcatSplits(ms[..cut], ms[cut..], {});
  }

  lemma ResultIds(run: seq<Message>, calls: seq<Call>)
    requires ResultsOf(run, calls)
    ensures ToolIds(run) <= CallIds(calls)
    ensures |run| == |calls| ==> ToolIds(run) == CallIds(calls)
  {
    forall id | id in ToolIds(run) ensures id in CallIds(calls) {
      var i :| 0 <= i < |run| && run[i].callId == id;
      assert calls[i] in calls;
    }
    if |run| == |calls| {
      forall id | id in CallIds(calls) ensures id in ToolIds(run) {
        var i :| 0 <= i < |calls| && calls[i].id == id;
        assert run[i] in run;
      }
    }
  }

  // A message with calls and a run of its results.
  lemma CallBlock(m: Message, run: seq<Message>, seen: set<string>)
    requires HasCalls(m) && ResultsOf(run, m.calls)
    ensures Belonging([m] + run)
    ensures |run| == |m.calls| ==> Answered([m] + run)
    ensures CallIdsAreFresh([m] + run, seen) <==> CallIds(m.calls) !! seen
  {
    assert [m] + run == [m] + run + [];
    BlockOf(m, run, []);
    ResultIds(run, m.calls);
  }

  lemma FinishKeepsInvariant(s: State, output: string)
    requires Invariant(s) && s.phase.Executing?
    ensures Invariant(Finished(s, output))
  {
    hide Belonging, Answered, CallIdsAreFresh, UsedIds, CallIds;
    var Executing(at, calls, done) := s.phase;
    var base, m, run := s.messages[..at], s.messages[at], s.messages[at + 1..];
    var longer := run + [Tool(calls[done].id, output)];
    assert s.messages == base + ([m] + run);
    assert Finished(s, output).messages == base + ([m] + longer);
    ConcatSplits(base, [m] + run, {});
    CallBlock(m, run, {} + UsedIds(base));
    ConcatSplits(base, [m] + longer, {});
    CallBlock(m, longer, {} + UsedIds(base));
    var after := Finished(s, output).messages;
    assert after[..at] == base && after[at] == m && after[at + 1..] == longer;
  }

  lemma AnswerKeepsInvariant(s: State, a: Action)
    requires Invariant(s) && a.Answer? && Enabled(s, a)
    ensures Invariant(Next(s, a))
  {
    hide Belonging, Answered, CallIdsAreFresh, UsedIds, CallIds;
    var m := Assistant(a.content, a.calls);
    AppendingKeepsSound(s.messages, m);
    var after := s.messages + [m];
    assert after[..|s.messages|] == s.messages && after[|s.messages| + 1..] == [];
  }

  lemma ArchiveKeepsInvariant(s: State, note: string)
    requires Invariant(s) && s.phase.Asked?
    ensures Invariant(Archived(s, note))
  {
    hide Belonging, Answered, CallIdsAreFresh, UsedIds, CallIds, Cut, Chars;
    ArchiveMeetsBudgetsIffNewestFits(s.messages);
    var cut := Cut(s.messages);
    if cut > 0 {
      SuffixAtUserIsValid(s.messages, cut);
    } else {
      assert s.messages[0..] == s.messages;
    }
  }

  lemma StepKeepsInvariant(s: State, a: Action)
    requires Invariant(s) && Enabled(s, a) && RepairApplies(s, a)
    ensures Invariant(Next(s, a))
  {
    hide Belonging, Answered, CallIdsAreFresh, UsedIds, CallIds, Archived, Finished, RepairFrom, MidCalls;
    match a
    case Mend => RepairMakesSoundHistoryValid(s.messages);
    case Ask(content) => AppendingKeepsSound(s.messages, User(content));
    case Archive(note) => ArchiveKeepsInvariant(s, note);
    case Consolidate =>
    case Answer(_, _) => AnswerKeepsInvariant(s, a);
    case Finish(output) => FinishKeepsInvariant(s, output);
    case Stop =>
  }

  // ----- the guarantees over every sequence of runs

  lemma {:induction false} InvariantHoldsThroughout(s: State, actions: seq<Action>)
    requires Invariant(s) && Possible(s, actions) && EveryRepairApplies(s, actions)
    ensures Invariant(After(s, actions))
    decreases |actions|
  {
    hide Invariant, Next, Enabled, RepairApplies;
    if actions != [] {
      StepKeepsInvariant(s, actions[0]);
      InvariantHoldsThroughout(Next(s, actions[0]), actions[1..]);
    }
  }

  // What the model is sent: a history in which every call is answered directly
  // after it and every result belongs, opened by a user message.
  predicate ValidRequest(ms: seq<Message>) {
    ProtocolValid(ms) && ms != [] && ms[0].User?
  }

  lemma {:induction false} EveryRequestIsValid(s: State, actions: seq<Action>, i: nat)
    requires Invariant(s) && Possible(s, actions) && EveryRepairApplies(s, actions)
    requires i < |Requests(s, actions)|
    ensures ValidRequest(Requests(s, actions)[i])
    decreases |actions|
  {
    hide Belonging, Answered, Next, Enabled, RepairApplies;
    if actions != [] {
      StepKeepsInvariant(s, actions[0]);
      var here := s.phase.Thinking? && !actions[0].Consolidate?;
      if !(here && i == 0) {
        EveryRequestIsValid(Next(s, actions[0]), actions[1..], if here then i - 1 else i);
      }
    }
  }

  // The same from a new session, whose history is empty.
  lemma EveryRequestOfASessionIsValid(actions: seq<Action>, i: nat)
    requires
      var s := State([], [], Resting);
      Possible(s, actions) && EveryRepairApplies(s, actions) && i < |Requests(s, actions)|
    ensures ValidRequest(Requests(State([], [], Resting), actions)[i])
  {
    EveryRequestIsValid(State([], [], Resting), actions, i);
  }

  // ----- two ways to meet the condition on repair

  // Runs are stopped only between tool rounds.
  predicate NeverStoppedMidCalls(s: State, actions: seq<Action>)
    requires Possible(s, actions)
    decreases |actions|
  {
    actions == []
    || ((actions[0].Stop? ==> !s.phase.Executing?) && NeverStoppedMidCalls(Next(s, actions[0]), actions[1..]))
  }

  lemma {:induction false} AnsweredHasNoUnansweredIds(ms: seq<Message>, seen: set<string>)
    requires Answered(ms)
    ensures UnansweredIdsAreFresh(ms, seen)
    decreases |ms|
  {
    hide LeadingTools, RunOf, RestOf, ToolIds, CallIds;
    if ms != [] {
      if !HasCalls(ms[0]) {
        AnsweredHasNoUnansweredIds(ms[1..], seen + ToolIds([ms[0]]));
      } else {
        AnsweredHasNoUnansweredIds(RestOf(ms), seen + ToolIds(RunOf(ms)) + CallIds(ms[0].calls));
      }
    }
  }

  // Between rounds the history is complete, so a stop there leaves nothing open.
  lemma StepLeavesRestingAnswered(s: State, a: Action)
    requires Invariant(s) && Enabled(s, a) && (s.phase.Resting? ==> Answered(s.messages))
    requires a.Stop? ==> !s.phase.Executing?
    ensures RepairApplies(s, a)
    ensures Next(s, a).phase.Resting? ==> Answered(Next(s, a).messages)
  {
    hide Belonging, Answered, UnansweredIdsAreFresh, Archived, Finished, RepairFrom, MidCalls;
    if a.Mend? {
      AnsweredHasNoUnansweredIds(s.messages, {});
    } else if a.Answer? {
      AppendingKeepsSound(s.messages, Assistant(a.content, a.calls));
    } else if a.Archive? {
      ArchivedIs(s, a.note);
    } else if a.Finish? {
      FinishedGoesOn(s, a.output);
    }
  }

  lemma FinishedGoesOn(s: State, output: string)
    requires s.phase.Executing? && s.phase.done < |s.phase.calls|
    ensures Finished(s, output).phase.Thinking? || Finished(s, output).phase.Executing?
  {
  }

  lemma {:induction false} UninterruptedRunsNeedNoRepair(s: State, actions: seq<Action>)
    requires Invariant(s) && Possible(s, actions) && (s.phase.Resting? ==> Answered(s.messages))
    requires NeverStoppedMidCalls(s, actions)
    ensures EveryRepairApplies(s, actions)
    decreases |actions|
  {
    hide Invariant, Next, Enabled, Answered, RepairApplies;
    if actions != [] {
      StepLeavesRestingAnswered(s, actions[0]);
      StepKeepsInvariant(s, actions[0]);
      UninterruptedRunsNeedNoRepair(Next(s, actions[0]), actions[1..]);
    }
  }

  // The model gives its calls ids that the history does not hold already.
  predicate AnswersWithFreshIds(s: State, a: Action) {
    a.Answer? ==> CallIds(a.calls) !! UsedIds(s.messages)
  }

  predicate ModelUsesFreshIds(s: State, actions: seq<Action>)
    requires Possible(s, actions)
    decreases |actions|
  {
    actions == []
    || (AnswersWithFreshIds(s, actions[0]) && ModelUsesFreshIds(Next(s, actions[0]), actions[1..]))
  }

  lemma SuffixKeepsFreshIds(ms: seq<Message>, cut: nat)
    requires CallIdsAreFresh(ms, {}) && cut < |ms| && ms[cut].User?
    ensures CallIdsAreFresh(ms[cut..], {})
  {
    hide Belonging, Answered, CallIdsAreFresh, UsedIds;
    assert ms[..cut] + ms[cut..] == ms;
    ConcatSplits(ms[..cut], ms[cut..], {});
    FreshWithFewerSeen(ms[cut..], {} + UsedIds(ms[..cut]), {});
  }

  lemma ArchiveKeepsFreshIds(s: State, note: string)
    requires Invariant(s) && s.phase.Asked? && CallIdsAreFresh(s.messages, {})
    ensures CallIdsAreFresh(Archived(s, note).messages, {})
  {
    hide Belonging, Answered, CallIdsAreFresh, Cut, Chars;
    ArchiveMeetsBudgetsIffNewestFits(s.messages);
    if Cut(s.messages) > 0 {
      SuffixKeepsFreshIds(s.messages, Cut(s.messages));
    } else {
      assert s.messages[0..] == s.messages;
    }
  }

  lemma FinishKeepsFreshIds(s: State, output: string)
    requires Invariant(s) && s.phase.Executing? && CallIdsAreFresh(s.messages, {})
    ensures CallIdsAreFresh(Finished(s, output).messages, {})
  {
    hide Belonging, Answered, CallIdsAreFresh, UsedIds, CallIds;
    var Executing(at, calls, done) := s.phase;
    var base, m, run := s.messages[..at], s.messages[at], s.messages[at + 1..];
    var longer := run + [Tool(calls[done].id, output)];
    assert s.messages == base + ([m] + run);
    assert Finished(s, output).messages == base + ([m] + longer);
    ConcatSplits(base, [m] + run, {});
    CallBlock(m, run, {} + UsedIds(base));
    ConcatSplits(base, [m] + longer, {});
    CallBlock(m, longer, {} + UsedIds(base));
  }

  lemma AppendingKeepsFreshIds(ms: seq<Message>, m: Message)
    requires CallIdsAreFresh(ms, {}) && !m.Tool? && (HasCalls(m) ==> CallIds(m.calls) !! UsedIds(ms))
    ensures CallIdsAreFresh(ms + [m], {})
  {
    hide Belonging, Answered, CallIdsAreFresh, UsedIds, CallIds;
    OneMessage(m, {} + UsedIds(ms));
    ConcatSplits(ms, [m], {});
  }

  lemma StepKeepsFreshIds(s: State, a: Action)
    requires Invariant(s) && Enabled(s, a) && CallIdsAreFresh(s.messages, {}) && AnswersWithFreshIds(s, a)
    ensures RepairApplies(s, a)
    ensures CallIdsAreFresh(Next(s, a).messages, {})
  {
    hide Belonging, Answered, CallIdsAreFresh, UnansweredIdsAreFresh, UsedIds, CallIds, Archived, Finished, RepairFrom;
    match a
    case Mend =>
      FreshCallsAreFreshWhenUnanswered(s.messages, {});
      RepairKeepsFresh(s.messages, {}, {});
    case Ask(content) => AppendingKeepsFreshIds(s.messages, User(content));
    case Archive(note) => ArchiveKeepsFreshIds(s, note);
    case Consolidate =>
    case Answer(content, calls) => AppendingKeepsFreshIds(s.messages, Assistant(content, calls));
    case Finish(output) => FinishKeepsFreshIds(s, output);
    case Stop =>
  }

  lemma {:induction false} FreshIdsMakeRepairApply(s: State, actions: seq<Action>)
    requires Invariant(s) && Possible(s, actions) && CallIdsAreFresh(s.messages, {})
    requires ModelUsesFreshIds(s, actions)
    ensures EveryRepairApplies(s, actions)
    decreases |actions|
  {
    hide Invariant, Next, Enabled, AnswersWithFreshIds, CallIdsAreFresh, RepairApplies;
    if actions != [] {
      StepKeepsFreshIds(s, actions[0]);
      StepKeepsInvariant(s, actions[0]);
      FreshIdsMakeRepairApply(Next(s, actions[0]), actions[1..]);
    }
  }

  // From a new session: every request is valid if no run is stopped between a call
  // and its result, whatever ids the model gives; and also if runs are stopped
  // anywhere, when the model gives each call a new id.
  lemma UninterruptedOrFreshIdsSuffice(actions: seq<Action>, i: nat)
    requires
      var s := State([], [], Resting);
      Possible(s, actions) && (NeverStoppedMidCalls(s, actions) || ModelUsesFreshIds(s, actions))
    requires i < |Requests(State([], [], Resting), actions)|
    ensures ValidRequest(Requests(State([], [], Resting), actions)[i])
  {
    var s := State([], [], Resting);
    if NeverStoppedMidCalls(s, actions) {
      UninterruptedRunsNeedNoRepair(s, actions);
    } else {
      FreshIdsMakeRepairApply(s, actions);
    }
    EveryRequestIsValid(s, actions, i);
  }

  // ----- the window after every archiving

  // The histories right after each archiving step.
  function Windows(s: State, actions: seq<Action>): seq<seq<Message>>
    requires Possible(s, actions)
    decreases |actions|
  {
    if actions == [] then []
    else
      (if actions[0].Archive? then [Next(s, actions[0]).messages] else [])
      + Windows(Next(s, actions[0]), actions[1..])
  }

  predicate QuestionsFit(actions: seq<Action>) {
    forall i :: 0 <= i < |actions| && actions[i].Ask? ==> |actions[i].content| <= 36000
  }

  predicate QuestionIsNewest(s: State) {
    s.phase.Asked? ==>
      && s.messages != []
      && s.messages[|s.messages| - 1].User?
      && |s.messages[|s.messages| - 1].content| <= 36000
  }

  lemma StepWindowMeetsBudgets(s: State, a: Action)
    requires Enabled(s, a) && QuestionIsNewest(s)
    requires a.Ask? ==> |a.content| <= 36000
    ensures QuestionIsNewest(Next(s, a))
    ensures a.Archive? ==> WithinBudgets(Next(s, a).messages)
  {
    hide Cut, Chars, RepairFrom, WithinBudgets, Finished;
    if a.Archive? {
      ArchiveMeetsBudgetsIffNewestFits(s.messages);
      ArchivedIs(s, a.note);
    } else if a.Finish? {
      FinishedGoesOn(s, a.output);
    }
  }

  // Over every sequence of runs whose questions fit the character budget, each
  // archiving step leaves a window within both budgets.
  lemma {:induction false} EveryWindowMeetsBudgets(s: State, actions: seq<Action>, i: nat)
    requires Possible(s, actions) && QuestionIsNewest(s) && QuestionsFit(actions)
    requires i < |Windows(s, actions)|
    ensures |Windows(s, actions)[i]| <= 24 && Chars(Windows(s, actions)[i]) <= 36000
    decreases |actions|
  {
    hide Next, Enabled, Chars, QuestionIsNewest;
    if actions != [] {
      StepWindowMeetsBudgets(s, actions[0]);
      if !(actions[0].Archive? && i == 0) {
        EveryWindowMeetsBudgets(Next(s, actions[0]), actions[1..], if actions[0].Archive? then i - 1 else i);
      }
    }
  }

  // ----- one call of the agent

  // What the model returned in one step, and what the tools it called returned
  // before the run stopped, if it did.
  datatype Reply = Reply(content: string, calls: seq<Call>, outputs: seq<string>)

  // The steps of one run. Too few replies: the model call failed. Too few outputs:
  // a tool raised.
  function TurnActions(content: string, note: string, summarised: bool, replies: seq<Reply>,
                       maxSteps: nat, closing: string): seq<Action>
  {
    [Mend, Ask(content), Archive(note)] + (if summarised then [Consolidate] else [])
    + Rounds(replies, maxSteps, closing)
  }

  function Rounds(replies: seq<Reply>, left: nat, closing: string): seq<Action>
    decreases left, 1
  {
    if left == 0 then [Answer(closing, [])]
    else if replies == [] then [Stop]
    else [Answer(replies[0].content, replies[0].calls)] + AfterAnswer(replies, left, closing)
  }

  function AfterAnswer(replies: seq<Reply>, left: nat, closing: string): seq<Action>
    requires left > 0 && replies != []
    decreases left, 0
  {
    var r := replies[0];
    if r.calls == [] then []
    else if |r.outputs| < |r.calls| then FinishAll(r.outputs) + [Stop]
    else FinishAll(r.outputs[..|r.calls|]) + Rounds(replies[1..], left - 1, closing)
  }

  function FinishAll(outputs: seq<string>): seq<Action> {
    seq(|outputs|, i requires 0 <= i < |outputs| => Finish(outputs[i]))
  }

  function Results(calls: seq<Call>, outputs: seq<string>): seq<Message>
    requires |outputs| <= |calls|
  {
    seq(|outputs|, i requires 0 <= i < |outputs| => Tool(calls[i].id, outputs[i]))
  }

  // ----- the run in small steps

  lemma {:induction false} ConcatRuns(s: State, a: seq<Action>, b: seq<Action>)
    requires Possible(s, a) && Possible(After(s, a), b)
    ensures Possible(s, a + b)
    ensures After(s, a + b) == After(After(s, a), b)
    ensures Requests(s, a + b) == Requests(s, a) + Requests(After(s, a), b)
    decreases |a|
  {
    hide Next, Enabled;
    if a == [] {
      assert a + b == b;
    } else {
      assert (a + b)[0] == a[0] && (a + b)[1..] == a[1..] + b;
      ConcatRuns(Next(s, a[0]), a[1..], b);
    }
  }

  lemma OneStep(s: State, a: Action)
    requires Enabled(s, a)
    ensures Possible(s, [a]) && After(s, [a]) == Next(s, a)
    ensures Requests(s, [a]) == if s.phase.Thinking? && !a.Consolidate? then [s.messages] else []
  {
    hide Next, Enabled;
    assert [a][1..] == [];
    assert Possible(Next(s, a), []);
  }

  function AfterOutputs(s: State, outputs: seq<string>): State
    requires s.phase.Executing? && s.phase.done + |outputs| <= |s.phase.calls| && s.phase.done < |s.phase.calls|
  {
    var Executing(at, calls, done) := s.phase;
    s.(messages := s.messages + Results(calls[done..], outputs),
       phase := if done + |outputs| == |calls| then Thinking else Executing(at, calls, done + |outputs|))
  }

  lemma {:induction false} OutputsRun(s: State, outputs: seq<string>)
    requires s.phase.Executing? && s.phase.done + |outputs| <= |s.phase.calls| && s.phase.done < |s.phase.calls|
    ensures Possible(s, FinishAll(outputs))
    ensures After(s, FinishAll(outputs)) == AfterOutputs(s, outputs)
    ensures Requests(s, FinishAll(outputs)) == []
    decreases |outputs|
  {
    var Executing(at, calls, done) := s.phase;
    hide CallIds, RepairFrom, Cut;
    if outputs == [] {
      assert s.messages + Results(calls[done..], outputs) == s.messages;
    } else {
      var rest := outputs[1..];
      assert FinishAll(outputs)[1..] == FinishAll(rest);
      var next := Finished(s, outputs[0]);
      if rest == [] {
        assert s.messages + Results(calls[done..], outputs) == next.messages;
      } else {
        OutputsRun(next, rest);
        assert s.messages + Results(calls[done..], outputs) == next.messages + Results(calls[done + 1..], rest);
      }
    }
  }

  // The state after the model's answer and the outputs of its calls.
  function AfterRound(s: State, r: Reply): State
    requires r.calls != []
  {
    var asked := Next(s.(phase := Thinking), Answer(r.content, r.calls));
    AfterOutputs(asked, if |r.outputs| < |r.calls| then r.outputs else r.outputs[..|r.calls|])
  }

  // One round: the answer, and the outputs of its calls.
  lemma RoundRun(s: State, r: Reply)
    requires s.phase.Thinking? && r.calls != []
    ensures
      var outputs := if |r.outputs| < |r.calls| then r.outputs else r.outputs[..|r.calls|];
      var round := [Answer(r.content, r.calls)] + FinishAll(outputs);
      Possible(s, round) && After(s, round) == AfterRound(s, r) && Requests(s, round) == [s.messages]
  {
    hide Possible, After, Requests;
    var outputs := if |r.outputs| < |r.calls| then r.outputs else r.outputs[..|r.calls|];
    OneStep(s, Answer(r.content, r.calls));
    OutputsRun(Next(s, Answer(r.content, r.calls)), outputs);
    ConcatRuns(s, [Answer(r.content, r.calls)], FinishAll(outputs));
  }

  lemma {:induction false} RoundsArePossible(s: State, replies: seq<Reply>, left: nat, closing: string)
    requires s.phase.Thinking?
    ensures Possible(s, Rounds(replies, left, closing))
    decreases left
  {
    hide Possible, After, Requests, FinishAll;
    if left == 0 {
      OneStep(s, Answer(closing, []));
    } else if replies == [] {
      OneStep(s, Stop);
    } else if replies[0].calls == [] {
      OneStep(s, Answer(replies[0].content, []));
      assert Rounds(replies, left, closing) == [Answer(replies[0].content, [])];
    } else {
      RoundRun(s, replies[0]);
      var end := if |replies[0].outputs| < |replies[0].calls| then [Stop] else Rounds(replies[1..], left - 1, closing);
      if |replies[0].outputs| < |replies[0].calls| {
        OneStep(AfterRound(s, replies[0]), Stop);
      } else {
        RoundsArePossible(AfterRound(s, replies[0]), replies[1..], left - 1, closing);
      }
      RoundsSplit(replies, left, closing);
      ConcatRuns(s, RoundOf(replies[0]), end);
    }
  }

  function RoundOf(r: Reply): seq<Action> {
    [Answer(r.content, r.calls)] + FinishAll(if |r.outputs| < |r.calls| then r.outputs else r.outputs[..|r.calls|])
  }

  lemma RoundsSplit(replies: seq<Reply>, left: nat, closing: string)
    requires left > 0 && replies != [] && replies[0].calls != []
    ensures Rounds(replies, left, closing) ==
      RoundOf(replies[0])
      + if |replies[0].outputs| < |replies[0].calls| then [Stop] else Rounds(replies[1..], left - 1, closing)
  {
    var r := replies[0];
    var tail := if |r.outputs| < |r.calls| then [Stop] else Rounds(replies[1..], left - 1, closing);
    var run := FinishAll(if |r.outputs| < |r.calls| then r.outputs else r.outputs[..|r.calls|]);
    assert [Answer(r.content, r.calls)] + (run + tail) == [Answer(r.content, r.calls)] + run + tail;
  }

  // One round of a run: what was sent, what the state became, what is left.
  lemma RoundUnfolds(s: State, replies: seq<Reply>, left: nat, closing: string)
    requires s.phase.Thinking? && left > 0 && replies != [] && replies[0].calls != []
    ensures
      var r, all := replies[0], Rounds(replies, left, closing);
      var after := AfterRound(s, r);
      && Possible(s, all)
      && (|r.outputs| < |r.calls| ==>
            After(s, all) == after.(phase := Resting) && Requests(s, all) == [s.messages])
      && (|r.outputs| >= |r.calls| ==>
            var rest := Rounds(replies[1..], left - 1, closing);
            && after.phase.Thinking? && Possible(after, rest)
            && After(s, all) == After(after, rest)
            && Requests(s, all) == [s.messages] + Requests(after, rest))
  {
    hide Possible, After, Requests, FinishAll, Rounds;
    var r := replies[0];
    RoundsSplit(replies, left, closing);
    RoundRun(s, r);
    if |r.outputs| < |r.calls| {
      OneStep(AfterRound(s, r), Stop);
      ConcatRuns(s, RoundOf(r), [Stop]);
    } else {
      RoundsArePossible(AfterRound(s, r), replies[1..], left - 1, closing);
      ConcatRuns(s, RoundOf(r), Rounds(replies[1..], left - 1, closing));
    }
  }

  // The steps before the first model call.
  lemma OpeningRun(s: State, content: string, note: string, summarised: bool, rest: seq<Action>)
    requires s.phase.Resting?
    requires Possible(Opened(s, content, note, summarised), rest)
    ensures
      var all := [Mend, Ask(content), Archive(note)] + (if summarised then [Consolidate] else []) + rest;
      && Possible(s, all)
      && After(s, all) == After(Opened(s, content, note, summarised), rest)
      && Requests(s, all) == Requests(Opened(s, content, note, summarised), rest)
  {
    hide Possible, After, Requests, RepairFrom, Cut, Trimmed;
    var mended := Next(s, Mend);
    var asked := Next(mended, Ask(content));
    var archived := Next(asked, Archive(note));
    var end := if summarised then [Consolidate] else [];
    ConsolidationRun(archived, summarised, rest);
    OneStep(s, Mend);
    OneStep(mended, Ask(content));
    OneStep(asked, Archive(note));
    ConcatRuns(asked, [Archive(note)], end + rest);
    ConcatRuns(mended, [Ask(content)], [Archive(note)] + (end + rest));
    ConcatRuns(s, [Mend], [Ask(content)] + ([Archive(note)] + (end + rest)));
    assert [Mend] + ([Ask(content)] + ([Archive(note)] + (end + rest)))
        == [Mend, Ask(content), Archive(note)] + end + rest;
  }

  lemma ConsolidationRun(s: State, summarised: bool, rest: seq<Action>)
    requires s.phase.Thinking?
    requires Possible(if summarised then s.(archive := []) else s, rest)
    ensures
      var all := (if summarised then [Consolidate] else []) + rest;
      var after := if summarised then s.(archive := []) else s;
      Possible(s, all) && After(s, all) == After(after, rest) && Requests(s, all) == Requests(after, rest)
  {
    hide Possible, After, Requests;
    if summarised {
      OneStep(s, Consolidate);
      ConcatRuns(s, [Consolidate], rest);
    } else {
      assert [] + rest == rest;
    }
  }

  function Opened(s: State, content: string, note: string, summarised: bool): State {
    var archived := Archived(s.(messages := Repaired(s.messages) + [User(content)]), note);
    if summarised then archived.(archive := []) else archived
  }

  // Carry out the calls of the last message while outputs last.
  method ExecuteToolCalls(session: Session, calls: seq<Call>, outputs: seq<string>) returns (finished: bool)
    modifies session
    ensures finished <==> |calls| <= |outputs|
    ensures session.pendingArchive == old(session.pendingArchive)
    ensures session.messages == old(session.messages) + Results(calls, if finished then outputs[..|calls|] else outputs)
  {
    for i := 0 to |calls|
      invariant i <= |outputs| && session.pendingArchive == old(session.pendingArchive)
      invariant session.messages == old(session.messages) + Results(calls, outputs[..i])
    {
      if i == |outputs| {
        assert outputs[..i] == outputs;
        return false;
      }
      session.messages := session.messages + [Tool(calls[i].id, outputs[i])];
    }
    return true;
  }

  // ----- what a run asks the model

  // The reply makes the run go on: it calls tools, and all of them return.
  predicate GoesOn(replies: seq<Reply>, k: nat) {
    k < |replies| && replies[k].calls != [] && |replies[k].calls| <= |replies[k].outputs|
  }

  // What a reply adds to the history: the answer, then one result per call that returned.
  function Answering(r: Reply): (added: seq<Message>)
    ensures |added| <= 1 + |r.calls|
  {
    var returned := if |r.outputs| < |r.calls| then |r.outputs| else |r.calls|;
    [Assistant(r.content, r.calls)]
    + seq(returned, j requires 0 <= j < returned => Tool(r.calls[j].id, r.outputs[j]))
  }

  // The history a run leaves after its last request, the m-th.
  function Ending(last: seq<Message>, replies: seq<Reply>, m: nat, maxSteps: nat, closing: string): seq<Message> {
    if m == maxSteps then last + [Assistant(closing, [])]
    else if m < |replies| then last + Answering(replies[m])
    else last
  }

  // Each request is the one before it with that reply and its results; the run asks
  // again exactly as long as replies call tools that all return, at most maxSteps
  // times and once more for the closing answer.
  predicate Told(sent: seq<seq<Message>>, replies: seq<Reply>, maxSteps: nat, closing: string, after: seq<Message>) {
    && 1 <= |sent| <= maxSteps + 1
    && (forall k :: 0 <= k < |sent| - 1 ==> GoesOn(replies, k) && sent[k + 1] == sent[k] + Answering(replies[k]))
    && (|sent| - 1 < maxSteps ==> !GoesOn(replies, |sent| - 1))
    && after == Ending(sent[|sent| - 1], replies, |sent| - 1, maxSteps, closing)
  }

  // The first request is an end of the repaired history with the question behind it.
  predicate OpensWith(first: seq<Message>, history: seq<Message>, content: string) {
    && first != [] && first[|first| - 1] == User(content)
    && |first| - 1 <= |Repaired(history)|
    && first[..|first| - 1] == Repaired(history)[|Repaired(history)| - (|first| - 1)..]
  }

  // Unless the archive was summarised, it takes what the window dropped: its text,
  // entry by entry, behind what it held.
  predicate TakesDropped(
    archive: seq<string>, before: seq<string>, first: seq<Message>, history: seq<Message>, content: string,
    note: string, summarised: bool)
  {
    var asked := Repaired(history) + [User(content)];
    && |first| <= |asked|
    && archive == if summarised then []
                  else if |first| == |asked| then before
                  else Trimmed(before + Entries(asked[..|asked| - |first|]), note)
  }

  lemma ToldOneMore(
    first: seq<Message>, rest: seq<seq<Message>>, replies: seq<Reply>, left: nat, closing: string, after: seq<Message>)
    requires left > 0 && GoesOn(replies, 0)
    requires Told(rest, replies[1..], left - 1, closing, after) && rest[0] == first + Answering(replies[0])
    ensures Told([first] + rest, replies, left, closing, after)
  {
    hide Answering;
    var sent := [first] + rest;
    forall k | 0 <= k < |sent| - 1 ensures GoesOn(replies, k) && sent[k + 1] == sent[k] + Answering(replies[k]) {
      if k > 0 {
        assert GoesOn(replies[1..], k - 1) && rest[k] == rest[k - 1] + Answering(replies[1..][k - 1]);
      }
    }
  }

  lemma {:induction false} RoundsAreTold(s: State, replies: seq<Reply>, left: nat, closing: string)
    requires s.phase.Thinking?
    ensures Possible(s, Rounds(replies, left, closing))
    ensures
      var all := Rounds(replies, left, closing);
      && Told(Requests(s, all), replies, left, closing, After(s, all).messages)
      && Requests(s, all)[0] == s.messages
      && After(s, all).archive == s.archive
    decreases left
  {
    hide Possible, After, Requests, Rounds, AfterRound;
    if left == 0 || replies == [] || replies[0].calls == [] {
      LastRound(s, replies, left, closing);
    } else {
      RoundUnfolds(s, replies, left, closing);
      RoundAdds(s, replies[0]);
      if |replies[0].outputs| >= |replies[0].calls| {
        hide Told;
        RoundsAreTold(AfterRound(s, replies[0]), replies[1..], left - 1, closing);
        var rest := Rounds(replies[1..], left - 1, closing);
        ToldOneMore(s.messages, Requests(AfterRound(s, replies[0]), rest), replies, left, closing,
                    After(AfterRound(s, replies[0]), rest).messages);
      }
    }
  }

  lemma RoundAdds(s: State, r: Reply)
    requires r.calls != []
    ensures AfterRound(s, r).messages == s.messages + Answering(r) && AfterRound(s, r).archive == s.archive
  {
  }

  lemma TurnIsTold(s: State, content: string, note: string, summarised: bool, replies: seq<Reply>,
                   maxSteps: nat, closing: string)
    requires s.phase.Resting?
    ensures
      var actions := TurnActions(content, note, summarised, replies, maxSteps, closing);
      && Possible(s, actions)
      && Told(Requests(s, actions), replies, maxSteps, closing, After(s, actions).messages)
      && OpensWith(Requests(s, actions)[0], s.messages, content)
      && TakesDropped(After(s, actions).archive, s.archive, Requests(s, actions)[0], s.messages, content, note,
                      summarised)
  {
    hide Possible, After, Requests, Rounds, RepairFrom, Cut;
    var prepared := Opened(s, content, note, summarised);
    RoundsAreTold(prepared, replies, maxSteps, closing);
    OpeningRun(s, content, note, summarised, Rounds(replies, maxSteps, closing));
    OpenedWithQuestion(s, content, note, summarised);
  }

  lemma OpenedWithQuestion(s: State, content: string, note: string, summarised: bool)
    ensures
      var prepared := Opened(s, content, note, summarised);
      && OpensWith(prepared.messages, s.messages, content)
      && TakesDropped(prepared.archive, s.archive, prepared.messages, s.messages, content, note, summarised)
  {
    hide Repaired, Trimmed, Entries, Overflow, NextUser;
    var asked := Repaired(s.messages) + [User(content)];
    var cut := Cut(asked);
    assert cut < |asked|;
    assert asked[cut..] == Repaired(s.messages)[cut..] + [User(content)];
  }

  // One run of the agent: repair, append the question, archive, then rounds until
  // the model calls no tool, or the step budget is spent and a closing answer is
  // asked for. `sent` are the histories the model was given.
  method Run(session: Session, content: string, note: string, summarised: bool, replies: seq<Reply>,
             maxSteps: nat, closing: string) returns (sent: seq<seq<Message>>)
    modifies session
    ensures
      var s := State(old(session.messages), old(session.pendingArchive), Resting);
      var actions := TurnActions(content, note, summarised, replies, maxSteps, closing);
      && Possible(s, actions)
      && session.messages == After(s, actions).messages
      && session.pendingArchive == After(s, actions).archive
      && sent == Requests(s, actions)
    ensures Told(sent, replies, maxSteps, closing, session.messages)
    ensures OpensWith(sent[0], old(session.messages), content)
    ensures TakesDropped(session.pendingArchive, old(session.pendingArchive), sent[0], old(session.messages), content,
                         note, summarised)
  {
    hide Possible, After, Requests, Opened, Rounds, Told, OpensWith, TakesDropped;
    ghost var s := State(session.messages, session.pendingArchive, Resting);
    TurnIsTold(s, content, note, summarised, replies, maxSteps, closing);
    RoundsArePossible(Opened(s, content, note, summarised), replies, maxSteps, closing) by {
      OpenedIsThinking(s, content, note, summarised);
    }
    OpeningRun(s, content, note, summarised, Rounds(replies, maxSteps, closing));
    Prepare(session, content, note, summarised);
    sent := Converse(session, replies, maxSteps, closing);
  }

  lemma OpenedIsThinking(s: State, content: string, note: string, summarised: bool)
    ensures Opened(s, content, note, summarised).phase.Thinking?
  {
  }

  // The part of a run before the first model call.
  method Prepare(session: Session, content: string, note: string, summarised: bool)
    modifies session
    ensures State(session.messages, session.pendingArchive, Thinking)
         == Opened(State(old(session.messages), old(session.pendingArchive), Resting), content, note, summarised)
  {
    hide Archived, RepairFrom, Cut;
    ghost var s := State(session.messages, session.pendingArchive, Resting);
    session.RepairInterruptedTurn();
    session.messages := session.messages + [User(content)];
    session.ArchiveOverflow(note);
    if summarised {
      session.pendingArchive := [];
    }
    ArchivedIs(s.(messages := Repaired(s.messages) + [User(content)]), note);
  }

  // The rounds of a run, from the first model call on.
  method Converse(session: Session, replies: seq<Reply>, maxSteps: nat, closing: string)
    returns (sent: seq<seq<Message>>)
    modifies session
    ensures
      var s := State(old(session.messages), old(session.pendingArchive), Thinking);
      var all := Rounds(replies, maxSteps, closing);
      && Possible(s, all)
      && session.messages == After(s, all).messages && session.pendingArchive == After(s, all).archive
      && sent == Requests(s, all)
  {
    hide Possible, After, Requests, Rounds, Results;
    ghost var s := State(session.messages, session.pendingArchive, Thinking);
    RoundsArePossible(s, replies, maxSteps, closing);
    sent := [];
    ghost var now := s;
    assert replies[0..] == replies;
    for step := 0 to maxSteps
      invariant step <= |replies|
      invariant now == State(session.messages, session.pendingArchive, Thinking)
      invariant Possible(now, Rounds(replies[step..], maxSteps - step, closing))
      invariant After(s, Rounds(replies, maxSteps, closing))
             == After(now, Rounds(replies[step..], maxSteps - step, closing))
      invariant Requests(s, Rounds(replies, maxSteps, closing))
             == sent + Requests(now, Rounds(replies[step..], maxSteps - step, closing))
    {
      sent := sent + [session.messages];
      if step == |replies| {
        LastRound(now, [], maxSteps - step, closing);
        return;
      }
      var reply := replies[step];
      session.messages := session.messages + [Assistant(reply.content, reply.calls)];
      if reply.calls == [] {
        LastRound(now, replies[step..], maxSteps - step, closing);
        return;
      }
      var finished := ExecuteToolCalls(session, reply.calls, reply.outputs);
      RoundUnfolds(now, replies[step..], maxSteps - step, closing);
      assert replies[step..][1..] == replies[step + 1..];
      if !finished {
        return;
      }
      now := AfterRound(now, reply);
    }
    LastRound(now, replies[maxSteps..], 0, closing);
    sent := sent + [session.messages];
    session.messages := session.messages + [Assistant(closing, [])];
  }

  lemma ArchivedIs(s: State, note: string)
    ensures Archived(s, note).messages == s.messages[Cut(s.messages)..]
    ensures Archived(s, note).archive
         == if Cut(s.messages) == 0 then s.archive
            else Trimmed(s.archive + Entries(s.messages[..Cut(s.messages)]), note)
    ensures Archived(s, note).phase.Thinking?
  {
  }

  // The rounds that end a run: a failed model call, an answer without calls, and
  // the closing answer.
  lemma LastRound(s: State, replies: seq<Reply>, left: nat, closing: string)
    requires s.phase.Thinking?
    requires left == 0 || replies == [] || replies[0].calls == []
    ensures
      var all := Rounds(replies, left, closing);
      && Possible(s, all)
      && Requests(s, all) == [s.messages]
      && After(s, all) ==
           if left == 0 then State(s.messages + [Assistant(closing, [])], s.archive, Resting)
           else if replies == [] then s.(phase := Resting)
           else State(s.messages + [Assistant(replies[0].content, [])], s.archive, Resting)
  {
    hide Possible, After, Requests;
    if left == 0 {
      OneStep(s, Answer(closing, []));
    } else if replies == [] {
      OneStep(s, Stop);
    } else {
      OneStep(s, Answer(replies[0].content, []));
      assert Rounds(replies, left, closing) == [Answer(replies[0].content, [])];
    }
  }
}
