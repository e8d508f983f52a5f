/**
  What the callers of the saved-strategy store are told, against what is stored:
  each mutation reported as done is in the log once and in the order of
  submission, each failed one is not in it, and the last logged edit of an id
  decides what the disk holds for it.
 */
module StoreReports {
  import opened Options
  import opened StrategyArray
  import opened StrategyNames
  import opened SavedStrategyStore

  predicate IsOk(o: Outcome) {
    o.Saved? || o.Removed?
  }

  // The mutations that were reported as done, in the order of submission.
  function OkTickets(outcomes: seq<Outcome>): seq<nat> {
    if outcomes == [] then []
    else OkTickets(outcomes[..|outcomes| - 1]) + if IsOk(outcomes[|outcomes| - 1]) then [|outcomes| - 1] else []
  }

  function Tickets(log: seq<Logged>): (r: seq<nat>)
    ensures |r| == |log|
  {
    seq(|log|, k requires 0 <= k < |log| => log[k].ticket)
  }

  function EditId(e: Edit): string {
    match e
    case Put(p) => p.id
    case Drop(id) => id
  }

  // The edit a mutation makes, given the list shown when it passed the ready check.
  ghost predicate Realises(cfg: Config, m: Mutation, e: Edit) {
    exists shown :: e == EditOf(cfg, m, shown)
  }

  // A success names what the edit did.
  predicate Tells(o: Outcome, e: Edit) {
    match o
    case Saved(name) => e.Put? && e.preset.name == name
    case Removed(_) => e.Drop?
    case _ => false
  }

  // ----- the invariant

  ghost predicate Numbered(w: World) {
    && |w.outcomes| + (if w.running.Idle? then 0 else 1) == w.begun <= |w.submitted|
    && w.store.pendingMutations == |w.submitted| - |w.outcomes|
    && (w.running.Waiting? ==> w.running.mutation == w.submitted[w.begun - 1])
  }

  ghost predicate LogIsTrue(cfg: Config, w: World) {
    && Tickets(w.log) == OkTickets(w.outcomes) + (if w.running.Written? then [|w.outcomes|] else [])
    && (forall k :: 0 <= k < |w.log| ==> TrueEntry(cfg, w, w.log[k]))
  }

  ghost predicate TrueEntry(cfg: Config, w: World, entry: Logged) {
    && entry.ticket < |w.submitted|
    && Realises(cfg, w.submitted[entry.ticket], entry.edit)
    && (entry.ticket < |w.outcomes| ==> Tells(w.outcomes[entry.ticket], entry.edit))
  }

  ghost predicate RunningIsTrue(cfg: Config, w: World) {
    && (w.running.InFlight? ==>
          0 < w.begun <= |w.submitted| && Realises(cfg, w.submitted[w.begun - 1], w.running.edit))
    && (w.running.Written? ==> w.log != [] && w.log[|w.log| - 1].edit == w.running.edit)
  }

  ghost predicate Reported(cfg: Config, w: World) {
    Numbered(w) && LogIsTrue(cfg, w) && RunningIsTrue(cfg, w)
  }

  lemma OkTicketsOfAppend(outcomes: seq<Outcome>, o: Outcome)
    ensures OkTickets(outcomes + [o]) == OkTickets(outcomes) + if IsOk(o) then [|outcomes|] else []
  {
    assert (outcomes + [o])[..|outcomes|] == outcomes;
  }

  lemma {:induction false} OkTicketsAreTheOk(outcomes: seq<Outcome>, n: nat)
    ensures n in OkTickets(outcomes) <==> n < |outcomes| && IsOk(outcomes[n])
  {
    if outcomes != [] {
      OkTicketsAreTheOk(outcomes[..|outcomes| - 1], n);
    }
  }

  lemma {:induction false} OkTicketsIncrease(outcomes: seq<Outcome>)
    ensures forall i :: 0 <= i < |OkTickets(outcomes)| ==> OkTickets(outcomes)[i] < |outcomes|
    ensures forall i, j :: 0 <= i < j < |OkTickets(outcomes)| ==> OkTickets(outcomes)[i] < OkTickets(outcomes)[j]
  {
    if outcomes != [] {
      OkTicketsIncrease(outcomes[..|outcomes| - 1]);
    }
  }

  lemma WriteKeepsReports(cfg: Config, w: World)
    requires Reported(cfg, w) && Enabled(w, Write)
    ensures Reported(cfg, Do(cfg, w, Write))
  {
    hide Applied, BrowserNext, Custom, OkTickets, Realises;
    var after := Do(cfg, w, Write);
    assert Tickets(after.log) == Tickets(w.log) + [w.begun - 1];
    forall k | 0 <= k < |after.log| ensures TrueEntry(cfg, after, after.log[k]) {
      if k < |w.log| {
        assert TrueEntry(cfg, w, w.log[k]);
      }
    }
  }

  // A mutation that ends is told the truth about its edit.
  lemma OverKeepsReports(cfg: Config, w: World, st: StoreState, outcome: Outcome)
    requires Reported(cfg, w) && !w.running.Idle? && st.pendingMutations == w.store.pendingMutations
    requires IsOk(outcome) <==> w.running.Written?
    requires w.running.Written? ==> Tells(outcome, w.running.edit)
    ensures Reported(cfg, Over(w, st, outcome))
  {
    hide OkTickets, Realises;
    var after := Over(w, st, outcome);
    OkTicketsOfAppend(w.outcomes, outcome);
    forall k | 0 <= k < |after.log| ensures TrueEntry(cfg, after, after.log[k]) {
      assert TrueEntry(cfg, w, w.log[k]);
      assert Tickets(w.log)[k] == w.log[k].ticket;
      if w.running.Written? && k < |w.log| - 1 {
        EarlierTicketsAreOver(w, k);
      } else if !w.running.Written? {
        OkTicketsIncrease(w.outcomes);
      }
    }
  }

  lemma EarlierTicketsAreOver(w: World, k: nat)
    requires w.running.Written? && Tickets(w.log) == OkTickets(w.outcomes) + [|w.outcomes|]
    requires k < |w.log| - 1
    ensures w.log[k].ticket < |w.outcomes|
  {
    OkTicketsIncrease(w.outcomes);
    assert Tickets(w.log)[k] == OkTickets(w.outcomes)[k];
  }

  lemma EnqueueKeepsReports(cfg: Config, w: World, m: Mutation)
    requires Reported(cfg, w) && Enabled(w, Enqueue(m))
    ensures Reported(cfg, Do(cfg, w, Enqueue(m)))
  {
    hide OkTickets, Realises;
    var after := Do(cfg, w, Enqueue(m));
    forall k | 0 <= k < |after.log| ensures TrueEntry(cfg, after, after.log[k]) {
      assert TrueEntry(cfg, w, w.log[k]);
    }
  }

  // Steps that change neither mutations, outcomes nor log.
  lemma SameReports(cfg: Config, w: World, after: World)
    requires Reported(cfg, w)
    requires after.submitted == w.submitted && after.outcomes == w.outcomes && after.log == w.log
    requires after.store.pendingMutations == w.store.pendingMutations
    requires Numbered(after) && after.running.Written? == w.running.Written?
    requires RunningIsTrue(cfg, after)
    ensures Reported(cfg, after)
  {
    hide OkTickets, Realises, Numbered, RunningIsTrue;
    forall k | 0 <= k < |after.log| ensures TrueEntry(cfg, after, after.log[k]) {
      assert TrueEntry(cfg, w, w.log[k]);
    }
  }

  lemma StepKeepsReports(cfg: Config, w: World, a: Action)
    requires Reported(cfg, w) && Enabled(w, a)
    ensures Reported(cfg, Do(cfg, w, a))
  {
    hide LogIsTrue, Realises, EditOf;
    match a {
      case Write => WriteKeepsReports(cfg, w);
      case Enqueue(m) => EnqueueKeepsReports(cfg, w, m);
      case Complete =>
        OverKeepsReports(cfg, w, MutationApplied(w.store, w.running.result),
                         OutcomeOf(w.running.edit, w.running.snapshot));
      case Reject => OverKeepsReports(cfg, w, w.store, Rejected);
      case CheckReady =>
        if w.store.status == Ready {
          assert Realises(cfg, w.running.mutation, EditOf(cfg, w.running.mutation, w.store.strategies)) by {
            EditRealises(cfg, w.running.mutation, w.store.strategies);
          }
          SameReports(cfg, w, Do(cfg, w, a));
        } else {
          OverKeepsReports(cfg, w, w.store, NotReady);
        }
      case _ => SameReports(cfg, w, Do(cfg, w, a));
    }
  }

  lemma EditRealises(cfg: Config, m: Mutation, shown: seq<Preset>)
    ensures Realises(cfg, m, EditOf(cfg, m, shown))
  {
  }

  lemma StartIsReported(cfg: Config, initial: seq<Preset>, disk: seq<Preset>)
    ensures Reported(cfg, InitialWorld(initial, disk))
  {
  }

  lemma {:induction false} ReportsHoldAfter(cfg: Config, initial: seq<Preset>, disk: seq<Preset>, trace: seq<Action>)
    requires Possible(cfg, InitialWorld(initial, disk), trace)
    ensures Reported(cfg, After(cfg, InitialWorld(initial, disk), trace))
  {
    hide Do, Enabled, Reported;
    if trace == [] {
      StartIsReported(cfg, initial, disk);
    } else {
      ReportsHoldAfter(cfg, initial, disk, trace[..|trace| - 1]);
      StepKeepsReports(cfg, After(cfg, InitialWorld(initial, disk), trace[..|trace| - 1]), trace[|trace| - 1]);
    }
  }

  // ----- main results

  // Over every interleaving: the mutations reported as done are exactly those in
  // the log, each once and in the order of submission, but for the one whose
  // report is on its way; each logged edit is the one its mutation asked for and
  // its caller was told of; and the disk is the initial list with them applied.
  lemma ReportedEditsAreStored(cfg: Config, initial: seq<Preset>, disk: seq<Preset>, trace: seq<Action>)
    requires AllBuiltIn(cfg.builtins) && AllCustom(disk)
    requires Possible(cfg, InitialWorld(initial, disk), trace)
    ensures
      var w := After(cfg, InitialWorld(initial, disk), trace);
      && w.disk == Replay(cfg, disk, w.log)
      && (forall j, k :: 0 <= j < k < |w.log| ==> w.log[j].ticket < w.log[k].ticket)
      && (forall n :: 0 <= n < |w.outcomes| ==> (IsOk(w.outcomes[n]) <==> n in Tickets(w.log)))
      && (forall k :: 0 <= k < |w.log| ==> TrueEntry(cfg, w, w.log[k]))
      && w.store.pendingMutations == |w.submitted| - |w.outcomes|
  {
    hide Realises, Tells;
    var w := After(cfg, InitialWorld(initial, disk), trace);
    NoEditIsLost(cfg, initial, disk, trace);
    ReportsHoldAfter(cfg, initial, disk, trace);
    TicketsAreInOrder(cfg, w);
  }

  lemma TicketsAreInOrder(cfg: Config, w: World)
    requires LogIsTrue(cfg, w)
    ensures forall j, k :: 0 <= j < k < |w.log| ==> w.log[j].ticket < w.log[k].ticket
    ensures forall n :: 0 <= n < |w.outcomes| ==> (IsOk(w.outcomes[n]) <==> n in Tickets(w.log))
  {
    hide Realises, Tells, OkTickets;
    OkTicketsIncrease(w.outcomes);
    assert forall k :: 0 <= k < |w.log| ==> Tickets(w.log)[k] == w.log[k].ticket;
    forall n | 0 <= n < |w.outcomes| ensures IsOk(w.outcomes[n]) <==> n in Tickets(w.log) {
      OkTicketsAreTheOk(w.outcomes, n);
    }
  }

  // ----- the last edit of an id decides

  lemma EditOfOtherId(cfg: Config, disk: seq<Preset>, e: Edit, p: Preset)
    requires EditId(e) != p.id
    ensures p in Applied(cfg, disk, e) <==> p in disk
  {
    hide Upserted;
    WithoutMembers(disk, EditId(e));
    if e.Put? {
      OthersSurviveUpsert(disk, e.preset, p);
    }
  }

  lemma OthersSurviveUpsert(disk: seq<Preset>, preset: Preset, p: Preset)
    requires p.id != preset.id
    ensures p in Upserted(disk, preset) <==> p in disk
  {
    var pos := PositionOf(disk, preset.id, 0);
    if pos.Some? && p in disk {
      var k :| 0 <= k < |disk| && disk[k] == p;
      assert Upserted(disk, preset)[k] == p;
    }
  }

  lemma EditOfOwnId(cfg: Config, disk: seq<Preset>, e: Edit)
    ensures e.Put? ==> e.preset in Applied(cfg, disk, e)
    ensures e.Drop? ==> forall p :: p in Applied(cfg, disk, e) ==> p.id != e.id
  {
    WithoutMembers(disk, EditId(e));
    if e.Put? && cfg.desktop {
      var pos := PositionOf(disk, e.preset.id, 0);
      assert Upserted(disk, e.preset)[if pos.Some? then pos.value else 0] == e.preset;
    }
  }

  lemma {:induction false} LastEditDecides(cfg: Config, disk: seq<Preset>, log: seq<Logged>, k: nat)
    requires k < |log|
    requires forall m :: k < m < |log| ==> EditId(log[m].edit) != EditId(log[k].edit)
    ensures
      var after, e := Replay(cfg, disk, log), log[k].edit;
      && (e.Put? ==> e.preset in after)
      && (e.Drop? ==> forall p :: p in after ==> p.id != e.id)
  {
    hide Applied;
    var before, last := log[..|log| - 1], log[|log| - 1];
    if k == |log| - 1 {
      EditOfOwnId(cfg, Replay(cfg, disk, before), last.edit);
    } else {
      LastEditDecides(cfg, disk, before, k);
      forall p: Preset | p.id == EditId(log[k].edit)
        ensures p in Replay(cfg, disk, log) <==> p in Replay(cfg, disk, before)
      {
        EditOfOtherId(cfg, Replay(cfg, disk, before), last.edit, p);
      }
    }
  }

  // No two saves were given the same token, so each preset has an id of its own.
  ghost predicate DistinctTokens(submitted: seq<Mutation>) {
    forall m, n ::
      0 <= m < n < |submitted| && submitted[m].Save? && submitted[n].Save? ==>
        submitted[m].token != submitted[n].token
  }

  // A save that was reported as done is on disk, under the reported name and with
  // the saved strategy, until a later mutation removes its id.
  lemma SavedStaysUntilRemoved(
    cfg: Config, initial: seq<Preset>, disk: seq<Preset>, trace: seq<Action>, n: nat) returns (p: Preset)
    requires AllBuiltIn(cfg.builtins) && AllCustom(disk)
    requires Possible(cfg, InitialWorld(initial, disk), trace)
    requires
      var w := After(cfg, InitialWorld(initial, disk), trace);
      && DistinctTokens(w.submitted)
      && n < |w.outcomes| && w.outcomes[n].Saved? && n < |w.submitted| && w.submitted[n].Save?
      && (forall k :: 0 <= k < |w.log| && w.log[k].ticket > n ==>
            w.log[k].edit != Drop(SAVED_ID_PREFIX + w.submitted[n].token))
    ensures
      var w := After(cfg, InitialWorld(initial, disk), trace);
      && p in w.disk
      && p.id == "saved-" + w.submitted[n].token && p.name == w.outcomes[n].savedName
      && p.strategy == w.submitted[n].strategy && p.savedAt == w.submitted[n].savedAt
      && exists shown :: p.name == UniqueName(NormalizedBase(w.submitted[n].name, cfg.isSpace), Names(shown))
  {
    hide Possible, After, Replay, Applied, Realises, Tells;
    var w := After(cfg, InitialWorld(initial, disk), trace);
    ReportedEditsAreStored(cfg, initial, disk, trace);
    assert n in Tickets(w.log);
    var k :| 0 <= k < |w.log| && Tickets(w.log)[k] == n;
    SavedEntry(cfg, w, w.log[k]);
    p := w.log[k].edit.preset;
    forall m | k < m < |w.log| ensures EditId(w.log[m].edit) != p.id {
      OtherEntry(cfg, w, w.log[m], n);
    }
    LastEditDecides(cfg, disk, w.log, k);
  }

  lemma SavedEntry(cfg: Config, w: World, entry: Logged)
    requires TrueEntry(cfg, w, entry) && entry.ticket < |w.outcomes| && w.outcomes[entry.ticket].Saved?
    ensures
      && w.submitted[entry.ticket].Save? && entry.edit.Put?
      && var m, p := w.submitted[entry.ticket], entry.edit.preset;
         && p.id == SAVED_ID_PREFIX + m.token && p.strategy == m.strategy && p.savedAt == m.savedAt
         && p.name == w.outcomes[entry.ticket].savedName
         && exists shown :: p.name == UniqueName(NormalizedBase(m.name, cfg.isSpace), Names(shown))
  {
    hide UniqueName;
  }

  // A later edit of the same id is a removal.
  lemma OtherEntry(cfg: Config, w: World, entry: Logged, n: nat)
    requires TrueEntry(cfg, w, entry) && n < entry.ticket
    requires n < |w.submitted| && w.submitted[n].Save? && DistinctTokens(w.submitted)
    requires entry.edit != Drop(SAVED_ID_PREFIX + w.submitted[n].token)
    ensures EditId(entry.edit) != SAVED_ID_PREFIX + w.submitted[n].token
  {
    hide UniqueName;
    if w.submitted[entry.ticket].Save? {
      var a, b := w.submitted[n].token, w.submitted[entry.ticket].token;
      assert a != b;
      assert (SAVED_ID_PREFIX + a)[|SAVED_ID_PREFIX|..] == a && (SAVED_ID_PREFIX + b)[|SAVED_ID_PREFIX|..] == b;
    }
  }

  // A removal that was reported as done leaves nothing under its id, unless a
  // later mutation puts the id back.
  lemma RemovedStaysAway(cfg: Config, initial: seq<Preset>, disk: seq<Preset>, trace: seq<Action>, n: nat)
    requires AllBuiltIn(cfg.builtins) && AllCustom(disk)
    requires Possible(cfg, InitialWorld(initial, disk), trace)
    requires
      var w := After(cfg, InitialWorld(initial, disk), trace);
      && n < |w.outcomes| && w.outcomes[n].Removed? && n < |w.submitted| && w.submitted[n].Remove?
      && (forall k :: 0 <= k < |w.log| && w.log[k].ticket > n ==> EditId(w.log[k].edit) != w.submitted[n].id)
    ensures
      var w := After(cfg, InitialWorld(initial, disk), trace);
      forall p :: p in w.disk ==> p.id != w.submitted[n].id
  {
    hide Possible, After, Replay, Applied, Realises, Tells;
    var w := After(cfg, InitialWorld(initial, disk), trace);
    ReportedEditsAreStored(cfg, initial, disk, trace);
    assert n in Tickets(w.log);
    var k :| 0 <= k < |w.log| && Tickets(w.log)[k] == n;
    RemovedEntry(cfg, w, w.log[k]);
    LastEditDecides(cfg, disk, w.log, k);
  }

  lemma RemovedEntry(cfg: Config, w: World, entry: Logged)
    requires TrueEntry(cfg, w, entry) && entry.ticket < |w.outcomes| && w.outcomes[entry.ticket].Removed?
    ensures w.submitted[entry.ticket].Remove? && entry.edit == Drop(w.submitted[entry.ticket].id)
  {
    hide UniqueName;
  }

  // The name told of a removal is that of the first preset shown under the id, and
  // there is none exactly when none is shown.
  lemma RemovedNameInFields(shown: seq<Preset>, id: string)
    ensures
      var o := OutcomeOf(Drop(id), shown);
      && o.Removed?
      && (o.removedName.None? <==> forall k :: 0 <= k < |shown| ==> shown[k].id != id)
      && (o.removedName.Some? ==>
            exists k :: 0 <= k < |shown| && shown[k].id == id && shown[k].name == o.removedName.value
                        && forall j :: 0 <= j < k ==> shown[j].id != id)
  {
    var pos := PositionOf(shown, id, 0);
    if pos.Some? {
      assert shown[pos.value].id == id;
    }
  }

  // ----- what may happen at any time

  // Loads may be asked for and mutations submitted at any time, but for the removal
  // of a built-in preset; an issued load may be read or fail, one that is read may
  // come in, and a backend call under way may be carried out or rejected.
  lemma AnythingMayHappen(w: World, m: Mutation, load: nat)
    ensures Enabled(w, Start) && Enabled(w, Reload) && Enabled(w, Refresh)
    ensures m.Save? || !IsBuiltInId(m.id) ==> Enabled(w, Enqueue(m))
    ensures load in w.loads && w.loads[load].Issued? ==> Enabled(w, ReadDisk(load)) && Enabled(w, FailRead(load))
    ensures load in w.loads && !w.loads[load].Issued? ==> Enabled(w, SettleLoad(load))
    ensures w.running.InFlight? ==> Enabled(w, Write) && Enabled(w, Reject)
  {
  }

  // ----- the ready check

  lemma StepKeepsOutcomes(cfg: Config, w: World, a: Action)
    requires Enabled(w, a)
    ensures w.outcomes <= Do(cfg, w, a).outcomes
  {
    hide EditOf, Applied, BrowserNext;
  }

  // The mutation with the ticket is past its ready check: its backend call is under
  // way, or it has an outcome other than a refusal.
  ghost predicate WentOn(w: World, ticket: nat) {
    || (|w.outcomes| == ticket && (w.running.InFlight? || w.running.Written?))
    || (|w.outcomes| > ticket && w.outcomes[ticket] != NotReady)
  }

  lemma StepKeepsWentOn(cfg: Config, w: World, a: Action, ticket: nat)
    requires Enabled(w, a) && WentOn(w, ticket)
    ensures WentOn(Do(cfg, w, a), ticket)
  {
    hide EditOf, Applied, BrowserNext;
    StepKeepsOutcomes(cfg, w, a);
  }

  ghost predicate TurnedAway(w: World, ticket: nat) {
    |w.outcomes| > ticket && w.outcomes[ticket] == NotReady
  }

  lemma {:induction false} CheckDecides(
    cfg: Config, initial: seq<Preset>, disk: seq<Preset>, trace: seq<Action>, k: nat)
    requires Possible(cfg, InitialWorld(initial, disk), trace) && k < |trace| && trace[k] == CheckReady
    ensures Possible(cfg, InitialWorld(initial, disk), trace[..k])
    ensures
      var check := After(cfg, InitialWorld(initial, disk), trace[..k]);
      var now := After(cfg, InitialWorld(initial, disk), trace);
      && check.begun > 0
      && if check.store.status == Ready then WentOn(now, check.begun - 1) else TurnedAway(now, check.begun - 1)
  {
    hide Do, Enabled, WentOn, TurnedAway;
    var before := trace[..|trace| - 1];
    if k == |trace| - 1 {
      ReportsHoldAfter(cfg, initial, disk, before);
      CheckStep(cfg, After(cfg, InitialWorld(initial, disk), before));
    } else {
      assert before[..k] == trace[..k] && before[k] == trace[k];
      CheckDecides(cfg, initial, disk, before, k);
      var was, ticket := After(cfg, InitialWorld(initial, disk), before),
                         After(cfg, InitialWorld(initial, disk), trace[..k]).begun - 1;
      if After(cfg, InitialWorld(initial, disk), trace[..k]).store.status == Ready {
        StepKeepsWentOn(cfg, was, trace[|trace| - 1], ticket);
      } else {
        StepKeepsOutcomes(cfg, was, trace[|trace| - 1]);
        assert TurnedAway(Do(cfg, was, trace[|trace| - 1]), ticket) by {
          RefusalStays(was, Do(cfg, was, trace[|trace| - 1]), ticket);
        }
      }
    }
  }

  lemma RefusalStays(was: World, now: World, ticket: nat)
    requires TurnedAway(was, ticket) && was.outcomes <= now.outcomes
    ensures TurnedAway(now, ticket)
  {
  }

  lemma CheckStep(cfg: Config, w: World)
    requires Numbered(w) && Enabled(w, CheckReady)
    ensures
      && w.begun > 0
      && if w.store.status == Ready then WentOn(Do(cfg, w, CheckReady), w.begun - 1)
         else TurnedAway(Do(cfg, w, CheckReady), w.begun - 1)
  {
    hide EditOf;
  }

  // Over every interleaving: a mutation is refused as not ready exactly when the
  // store is not ready at its check; one that finds the store ready goes on to its
  // backend call and is told of a success or of a rejection.
  lemma RefusedIffNotReadyAtCheck(
    cfg: Config, initial: seq<Preset>, disk: seq<Preset>, trace: seq<Action>, k: nat)
    requires Possible(cfg, InitialWorld(initial, disk), trace) && k < |trace| && trace[k] == CheckReady
    ensures Possible(cfg, InitialWorld(initial, disk), trace[..k])
    ensures
      var check := After(cfg, InitialWorld(initial, disk), trace[..k]);
      var now := After(cfg, InitialWorld(initial, disk), trace);
      && check.begun > 0
      && (check.begun - 1 < |now.outcomes| ==>
            (now.outcomes[check.begun - 1] == NotReady <==> check.store.status != Ready))
      && (check.begun - 1 >= |now.outcomes| ==> now.running.InFlight? || now.running.Written?)
  {
    hide Do, Enabled, Possible, After;
    CheckDecides(cfg, initial, disk, trace, k);
  }

  // ----- the store answers

  // The load that counts installs what it read, behind the built-in presets, and
  // makes the store ready; if it failed, the store says so and shows what it showed.
  lemma LoadThatCountsAnswers(cfg: Config, w: World, load: nat)
    requires Enabled(w, SettleLoad(load)) && load == w.store.authoritativeLoadId
    ensures
      var after := Do(cfg, w, SettleLoad(load)).store;
      && (w.loads[load].Read? ==>
            after.status == Ready && !after.hasError && after.strategies == cfg.builtins + w.loads[load].items)
      && (w.loads[load].ReadFailed? ==>
            after.status == Failed && after.hasError && after.strategies == w.store.strategies)
  {
  }

  // A reload shows that it is loading and forgets the error; a refresh leaves both
  // as they are; neither touches the list.
  lemma IssuedLoadShows(cfg: Config, w: World)
    ensures
      var reloaded, refreshed := Do(cfg, w, Reload).store, Do(cfg, w, Refresh).store;
      && reloaded.status == Loading && !reloaded.hasError && reloaded.strategies == w.store.strategies
      && reloaded.initialLoad == Some(reloaded.authoritativeLoadId)
      && refreshed.status == w.store.status && refreshed.hasError == w.store.hasError
      && refreshed.strategies == w.store.strategies && refreshed.initialLoad == w.store.initialLoad
  {
  }

  lemma StepKeepsErrorIffFailed(cfg: Config, w: World, a: Action)
    requires Enabled(w, a) && (w.store.hasError <==> w.store.status == Failed)
    ensures Do(cfg, w, a).store.hasError <==> Do(cfg, w, a).store.status == Failed
  {
    hide EditOf, Applied, BrowserNext, Custom;
  }

  // An error is shown exactly while the store has failed.
  lemma {:induction false} ErrorIffFailed(cfg: Config, initial: seq<Preset>, disk: seq<Preset>, trace: seq<Action>)
    requires Possible(cfg, InitialWorld(initial, disk), trace)
    ensures
      var w := After(cfg, InitialWorld(initial, disk), trace);
      w.store.hasError <==> w.store.status == Failed
  {
    hide Do, Enabled;
    if trace != [] {
      ErrorIffFailed(cfg, initial, disk, trace[..|trace| - 1]);
      StepKeepsErrorIffFailed(cfg, After(cfg, InitialWorld(initial, disk), trace[..|trace| - 1]), trace[|trace| - 1]);
    }
  }

  // While a mutation is queued or running, some step is possible that needs no new
  // event from outside: its load can be read or settled, or it can go on itself.
  lemma QueueNeverSticks(cfg: Config, initial: seq<Preset>, disk: seq<Preset>, trace: seq<Action>) returns (a: Action)
    requires Possible(cfg, InitialWorld(initial, disk), trace)
    requires
      var w := After(cfg, InitialWorld(initial, disk), trace);
      !w.running.Idle? || w.begun < |w.submitted|
    ensures Enabled(After(cfg, InitialWorld(initial, disk), trace), a)
    ensures !a.Start? && !a.Reload? && !a.Refresh? && !a.Enqueue? && !a.FailRead? && !a.Reject?
  {
    hide Possible, After;
    var w := After(cfg, InitialWorld(initial, disk), trace);
    a := match w.running
      case Idle => Begin
      case Waiting(_, load) =>
        if load !in w.loads then CheckReady
        else if w.loads[load].Issued? then ReadDisk(load) else SettleLoad(load)
      case InFlight(_, _) => Write
      case Written(_, _, _) => Complete;
  }

  // ----- loads

  // A load that is issued has the largest id; every load in flight is older.
  lemma NewLoadIsNewest(
    cfg: Config, initial: seq<Preset>, disk: seq<Preset>, trace: seq<Action>, a: Action)
    requires AllBuiltIn(cfg.builtins) && AllCustom(disk)
    requires Possible(cfg, InitialWorld(initial, disk), trace) && (a == Reload || a == Refresh)
    ensures
      var w := After(cfg, InitialWorld(initial, disk), trace);
      var after := Do(cfg, w, a);
      var id := after.store.authoritativeLoadId;
      && id !in w.loads && after.loads == w.loads[id := Issued]
      && forall load :: load in w.loads ==> load < id
  {
    hide Possible, After;
    InvariantHoldsAfter(cfg, initial, disk, trace);
  }

  // A mutation that completes outdates every load in flight.
  lemma CompletionOutdatesLoads(cfg: Config, initial: seq<Preset>, disk: seq<Preset>, trace: seq<Action>)
    requires AllBuiltIn(cfg.builtins) && AllCustom(disk)
    requires Possible(cfg, InitialWorld(initial, disk), trace)
    requires Enabled(After(cfg, InitialWorld(initial, disk), trace), Complete)
    ensures
      var w := After(cfg, InitialWorld(initial, disk), trace);
      var after := Do(cfg, w, Complete);
      && after.store.status == Ready && after.store.strategies == w.running.result
      && forall load :: load in after.loads ==> load < after.store.authoritativeLoadId
  {
    hide Possible, After;
    InvariantHoldsAfter(cfg, initial, disk, trace);
  }

  lemma StepKeepsAuthority(cfg: Config, w: World, a: Action)
    requires Inv(cfg, w) && Enabled(w, a)
    ensures w.store.authoritativeLoadId <= Do(cfg, w, a).store.authoritativeLoadId
  {
    hide Shows, SoundEdit, EditOf, Applied, BrowserNext;
  }

  lemma {:induction false} AuthorityGrows(
    cfg: Config, initial: seq<Preset>, disk: seq<Preset>, trace: seq<Action>, k: nat)
    requires AllBuiltIn(cfg.builtins) && AllCustom(disk)
    requires Possible(cfg, InitialWorld(initial, disk), trace) && k <= |trace|
    ensures Possible(cfg, InitialWorld(initial, disk), trace[..k])
    ensures After(cfg, InitialWorld(initial, disk), trace[..k]).store.authoritativeLoadId
         <= After(cfg, InitialWorld(initial, disk), trace).store.authoritativeLoadId
  {
    hide Do, Enabled, Inv;
    if k == |trace| {
      assert trace[..k] == trace;
    } else {
      var before := trace[..|trace| - 1];
      assert before[..k] == trace[..k];
      AuthorityGrows(cfg, initial, disk, before, k);
      InvariantHoldsAfter(cfg, initial, disk, before);
      StepKeepsAuthority(cfg, After(cfg, InitialWorld(initial, disk), before), trace[|trace| - 1]);
    }
  }

  // A load that was outdated once, by a newer load or by a mutation, changes
  // nothing whenever it comes in.
  lemma OutdatedLoadChangesNothing(
    cfg: Config, initial: seq<Preset>, disk: seq<Preset>, trace: seq<Action>, k: nat, load: nat)
    requires AllBuiltIn(cfg.builtins) && AllCustom(disk)
    requires Possible(cfg, InitialWorld(initial, disk), trace) && k <= |trace|
    requires
      && Possible(cfg, InitialWorld(initial, disk), trace[..k])
      && load < After(cfg, InitialWorld(initial, disk), trace[..k]).store.authoritativeLoadId
    requires Enabled(After(cfg, InitialWorld(initial, disk), trace), SettleLoad(load))
    ensures
      var w := After(cfg, InitialWorld(initial, disk), trace);
      Do(cfg, w, SettleLoad(load)).store == w.store
  {
    hide Possible, After;
    AuthorityGrows(cfg, initial, disk, trace, k);
  }

  // ----- the store does not hang

  // It is loading only before the first load, or while the load that counts is in flight.
  predicate LoadsOnPurpose(w: World) {
    w.store.status == Loading ==> w.store.loadCounter == 0 || w.store.authoritativeLoadId in w.loads
  }

  lemma StepLoadsOnPurpose(cfg: Config, w: World, a: Action)
    requires LoadsOnPurpose(w) && Enabled(w, a)
    ensures LoadsOnPurpose(Do(cfg, w, a))
  {
    hide EditOf, Applied, BrowserNext;
  }

  lemma {:induction false} LoadingHasALoad(cfg: Config, initial: seq<Preset>, disk: seq<Preset>, trace: seq<Action>)
    requires Possible(cfg, InitialWorld(initial, disk), trace)
    ensures LoadsOnPurpose(After(cfg, InitialWorld(initial, disk), trace))
  {
    hide Do, Enabled;
    if trace != [] {
      LoadingHasALoad(cfg, initial, disk, trace[..|trace| - 1]);
      StepLoadsOnPurpose(cfg, After(cfg, InitialWorld(initial, disk), trace[..|trace| - 1]), trace[|trace| - 1]);
    }
  }
}
