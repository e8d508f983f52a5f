/**
  The front-end controller of saved strategies. The class holds the fields and
  the synchronous segments of the source; the protocol interleaves those
  segments with disk reads and writes in every possible order.
 */
module SavedStrategyStore {
  import opened Options
  import opened StrategyArray
  import opened StrategyNames

  datatype Status = Loading | Ready | Failed

  datatype StoreState = StoreState(
    status: Status,
    strategies: seq<Preset>,
    hasError: bool,
    pendingMutations: nat,
    initialLoad: Option<nat>,
    loadCounter: nat,
    authoritativeLoadId: nat)

  // ----- the synchronous segments

  function LoadIssued(st: StoreState, blocking: bool): StoreState {
    var id := st.loadCounter + 1;
    st.(loadCounter := id, authoritativeLoadId := id,
        status := if blocking then Loading else st.status,
        hasError := if blocking then false else st.hasError)
  }

  function InitialLoadIssued(st: StoreState): StoreState {
    LoadIssued(st, true).(initialLoad := Some(st.loadCounter + 1))
  }

  function LoadResolved(st: StoreState, id: nat, items: seq<Preset>): StoreState {
    if id == st.authoritativeLoadId then st.(strategies := items, status := Ready, hasError := false) else st
  }

  function LoadRejected(st: StoreState, id: nat): StoreState {
    if id == st.authoritativeLoadId then st.(status := Failed, hasError := true) else st
  }

  function MutationQueued(st: StoreState): StoreState {
    st.(pendingMutations := st.pendingMutations + 1)
  }

  function MutationSettled(st: StoreState): StoreState {
    st.(pendingMutations := if st.pendingMutations > 0 then st.pendingMutations - 1 else 0)
  }

  // A successful mutation installs its result and outdates every load in flight.
  function MutationApplied(st: StoreState, items: seq<Preset>): StoreState {
    st.(strategies := items, loadCounter := st.loadCounter + 1, authoritativeLoadId := st.loadCounter + 1,
        status := Ready, hasError := false)
  }

  class Store {
    var status: Status
    var strategies: seq<Preset>
    var hasError: bool
    var pendingMutations: nat
    var initialLoad: Option<nat>
    var loadCounter: nat
    var authoritativeLoadId: nat

    constructor (initial: seq<Preset>)
      ensures View() == InitialStore(initial)
    {
      status, strategies, hasError, pendingMutations := Loading, initial, false, 0;
      initialLoad, loadCounter, authoritativeLoadId := None, 0, 0;
    }

    function View(): StoreState
      reads this
    {
      StoreState(status, strategies, hasError, pendingMutations, initialLoad, loadCounter, authoritativeLoadId)
    }

    method IssueLoad(blocking: bool) returns (id: nat)
      modifies this
      ensures View() == LoadIssued(old(View()), blocking) && id == authoritativeLoadId
    {
      loadCounter := loadCounter + 1;
      id := loadCounter;
      authoritativeLoadId := id;
      if blocking {
        status := Loading;
        hasError := false;
      }
    }

    // Kick off the initial load once.
    method Start()
      modifies this
      ensures View() == if old(initialLoad).None? then InitialLoadIssued(old(View())) else old(View())
    {
      if initialLoad.None? {
        var id := IssueLoad(true);
        initialLoad := Some(id);
      }
    }

    method Reload()
      modifies this
      ensures View() == InitialLoadIssued(old(View()))
    {
      var id := IssueLoad(true);
      initialLoad := Some(id);
    }

    // The continuation of a load that delivered items.
    method ResolveLoad(id: nat, items: seq<Preset>)
      modifies this
      ensures View() == LoadResolved(old(View()), id, items)
    {
      if id == authoritativeLoadId {
        strategies, status, hasError := items, Ready, false;
      }
    }

    // The continuation of a load that failed.
    method RejectLoad(id: nat)
      modifies this
      ensures View() == LoadRejected(old(View()), id)
    {
      if id == authoritativeLoadId {
        status, hasError := Failed, true;
      }
    }

    method Enqueue()
      modifies this
      ensures View() == MutationQueued(old(View()))
    {
      pendingMutations := pendingMutations + 1;
    }

    method Settle()
      modifies this
      ensures View() == MutationSettled(old(View()))
    {
      if pendingMutations > 0 {
        pendingMutations := pendingMutations - 1;
      }
    }

    method BumpAfterMutation()
      modifies this
      ensures View() == MutationApplied(old(View()), old(strategies))
    {
      loadCounter := loadCounter + 1;
      authoritativeLoadId := loadCounter;
      status, hasError := Ready, false;
    }

    // The continuation of a mutation whose backend call succeeded.
    method FinishMutation(items: seq<Preset>)
      modifies this
      ensures View() == MutationApplied(old(View()), items)
    {
      strategies := items;
      BumpAfterMutation();
    }
  }

  function InitialStore(initial: seq<Preset>): StoreState {
    StoreState(Loading, initial, false, 0, None, 0, 0)
  }

  // ----- the protocol

  // The built-in presets, which backend is used, and what counts as white space.
  datatype Config = Config(builtins: seq<Preset>, desktop: bool, isSpace: char -> bool)

  datatype Mutation =
    | Save(name: string, token: string, savedAt: string, strategy: string)
    | Remove(id: string)

  datatype LoadPhase = Issued | Read(items: seq<Preset>) | ReadFailed

  // The mutation at the head of the queue: waiting for the initial load, past
  // the ready check, or between its disk write and its completion.
  datatype Running =
    | Idle
    | Waiting(mutation: Mutation, load: nat)
    | InFlight(edit: Edit, snapshot: seq<Preset>)
    | Written(edit: Edit, snapshot: seq<Preset>, result: seq<Preset>)

  datatype Edit = Put(preset: Preset) | Drop(id: string)

  // What the caller of a mutation is told.
  datatype Outcome =
    | Saved(savedName: string)
    | Removed(removedName: Option<string>)
    | NotReady
    | Rejected

  // An edit of the disk, and which submitted mutation made it.
  datatype Logged = Logged(ticket: nat, edit: Edit)

  // Mutations are numbered as they are submitted; the first `begun` of them have
  // left the queue, and each that is over has its outcome.
  datatype World = World(
    store: StoreState,
    disk: seq<Preset>,
    loads: map<nat, LoadPhase>,
    submitted: seq<Mutation>,
    begun: nat,
    running: Running,
    outcomes: seq<Outcome>,
    log: seq<Logged>)

  datatype Action =
    | Start
    | Reload
    | Refresh
    | ReadDisk(load: nat)
    | FailRead(load: nat)
    | SettleLoad(load: nat)
    | Enqueue(mutation: Mutation)
    | Begin
    | CheckReady
    | Write
    | Reject
    | Complete

  function Names(items: seq<Preset>): (r: seq<string>)
    ensures |r| == |items| && forall i :: 0 <= i < |items| ==> r[i] == items[i].name
  {
    seq(|items|, i requires 0 <= i < |items| => items[i].name)
  }

  function NewPreset(cfg: Config, m: Mutation, existing: seq<Preset>): Preset
    requires m.Save?
  {
    Preset(SAVED_ID_PREFIX + m.token, UniqueName(NormalizedBase(m.name, cfg.isSpace), Names(existing)),
           m.savedAt, m.strategy)
  }

  function EditOf(cfg: Config, m: Mutation, existing: seq<Preset>): Edit {
    match m
    case Save(_, _, _, _) => Put(NewPreset(cfg, m, existing))
    case Remove(id) => Drop(id)
  }

  // What an edit makes of the stored list: the desktop backend edits the list
  // it re-reads, the browser puts a new preset in front.
  function Applied(cfg: Config, disk: seq<Preset>, e: Edit): seq<Preset> {
    match e
    case Put(p) => if cfg.desktop then Upserted(disk, p) else [p] + Without(disk, p.id)
    case Drop(id) => Without(disk, id)
  }

  // What the browser computes from the list the store passes in.
  function BrowserNext(current: seq<Preset>, e: Edit): seq<Preset> {
    match e
    case Put(p) => [p] + Without(current, p.id)
    case Drop(id) => Without(current, id)
  }

  function NameOf(items: seq<Preset>, id: string): Option<string> {
    match PositionOf(items, id, 0)
    case Some(pos) => Some(items[pos].name)
    case None => None
  }

  function OutcomeOf(e: Edit, snapshot: seq<Preset>): Outcome {
    match e
    case Put(p) => Saved(p.name)
    case Drop(id) => Removed(NameOf(snapshot, id))
  }

  predicate Enabled(w: World, a: Action) {
    match a
    case Start => true
    case Reload => true
    case Refresh => true
    case ReadDisk(id) => id in w.loads && w.loads[id].Issued?
    case FailRead(id) => id in w.loads && w.loads[id].Issued?
    case SettleLoad(id) => id in w.loads && !w.loads[id].Issued?
    case Enqueue(m) => m.Remove? ==> !IsBuiltInId(m.id)
    case Begin => w.running.Idle? && w.begun < |w.submitted|
    case CheckReady => w.running.Waiting? && w.running.load !in w.loads
    case Write => w.running.InFlight?
    case Reject => w.running.InFlight?
    case Complete => w.running.Written?
  }

  function WithLoad(w: World, st: StoreState): World {
    w.(store := st, loads := w.loads[st.loadCounter := Issued])
  }

  function Started(w: World): World {
    if w.store.initialLoad.None? then WithLoad(w, InitialLoadIssued(w.store)) else w
  }

  function Do(cfg: Config, w: World, a: Action): World
    requires Enabled(w, a)
  {
    match a
    case Start => Started(w)
    case Reload => WithLoad(w, InitialLoadIssued(w.store))
    case Refresh => WithLoad(w, LoadIssued(w.store, false))
    case ReadDisk(id) => w.(loads := w.loads[id := Read(w.disk)])
    case FailRead(id) => w.(loads := w.loads[id := ReadFailed])
    case SettleLoad(id) =>
      var st :=
        match w.loads[id]
        case Read(items) => LoadResolved(w.store, id, cfg.builtins + items)
        case _ => LoadRejected(w.store, id);
      w.(store := st, loads := w.loads - {id})
    case Enqueue(m) => w.(store := MutationQueued(w.store), submitted := w.submitted + [m])
    case Begin => BegunNext(Started(w))
    case CheckReady =>
      if w.store.status == Ready then
        w.(running := InFlight(EditOf(cfg, w.running.mutation, w.store.strategies), w.store.strategies))
      else Over(w, w.store, NotReady)
    case Write => WrittenNext(cfg, w)
    case Reject => Over(w, w.store, Rejected)
    case Complete =>
      Over(w, MutationApplied(w.store, w.running.result), OutcomeOf(w.running.edit, w.running.snapshot))
  }

  // The next mutation waits for the initial load, whichever that is now.
  function BegunNext(w: World): World
    requires w.begun < |w.submitted|
  {
    var load := if w.store.initialLoad.Some? then w.store.initialLoad.value else 0;
    w.(begun := w.begun + 1, running := Waiting(w.submitted[w.begun], load))
  }

  // The backend call edits the disk and returns the new list.
  function WrittenNext(cfg: Config, w: World): World
    requires w.running.InFlight?
  {
    var InFlight(e, snapshot) := w.running;
    var log := w.log + [Logged(if w.begun > 0 then w.begun - 1 else 0, e)];
    if cfg.desktop then
      var disk := Applied(cfg, w.disk, e);
      w.(disk := disk, running := Written(e, snapshot, cfg.builtins + disk), log := log)
    else
      var next := BrowserNext(snapshot, e);
      w.(disk := Custom(next), running := Written(e, snapshot, next), log := log)
  }

  // The running mutation ends and its caller is told how.
  function Over(w: World, st: StoreState, outcome: Outcome): World {
    w.(store := MutationSettled(st), running := Idle, outcomes := w.outcomes + [outcome])
  }

  function InitialWorld(initial: seq<Preset>, disk: seq<Preset>): World {
    World(InitialStore(initial), disk, map[], [], 0, Idle, [], [])
  }

  // Every action of the trace is possible when its turn comes.
  ghost predicate Possible(cfg: Config, w: World, trace: seq<Action>)
    decreases |trace|, 0
  {
    trace == []
    || (Possible(cfg, w, trace[..|trace| - 1])
        && Enabled(After(cfg, w, trace[..|trace| - 1]), trace[|trace| - 1]))
  }

  ghost function After(cfg: Config, w: World, trace: seq<Action>): World
    requires Possible(cfg, w, trace)
    decreases |trace|, 1
  {
    if trace == [] then w else Do(cfg, After(cfg, w, trace[..|trace| - 1]), trace[|trace| - 1])
  }

  // ----- the invariant

  // The list shows exactly the stored presets, and all built-in ones.
  ghost predicate Shows(cfg: Config, items: seq<Preset>, disk: seq<Preset>) {
    Custom(items) == disk && forall p :: p in cfg.builtins ==> p in items
  }

  ghost predicate AllBuiltIn(items: seq<Preset>) {
    forall k :: 0 <= k < |items| ==> IsBuiltInId(items[k].id)
  }

  ghost predicate AllCustom(items: seq<Preset>) {
    forall k :: 0 <= k < |items| ==> !IsBuiltInId(items[k].id)
  }

  ghost predicate SoundEdit(e: Edit, snapshot: seq<Preset>) {
    match e
    case Put(p) => !IsBuiltInId(p.id) && p.name !in Names(snapshot)
    case Drop(id) => !IsBuiltInId(id)
  }

  ghost predicate Inv(cfg: Config, w: World) {
    && AllBuiltIn(cfg.builtins) && AllCustom(w.disk)
    && w.store.authoritativeLoadId <= w.store.loadCounter
    && (forall id :: id in w.loads ==> id <= w.store.loadCounter)
    && (forall m :: m in w.submitted && m.Remove? ==> !IsBuiltInId(m.id))
    && (w.running.Written? ==> Shows(cfg, w.running.result, w.disk))
    && (!w.running.Written? && w.store.status == Ready ==> Shows(cfg, w.store.strategies, w.disk))
    && (!w.running.Written? && w.store.authoritativeLoadId in w.loads
        && w.loads[w.store.authoritativeLoadId].Read? ==>
          w.loads[w.store.authoritativeLoadId].items == w.disk)
    && (w.running.Waiting? && w.running.mutation.Remove? ==> !IsBuiltInId(w.running.mutation.id))
    && (w.running.InFlight? ==>
          Shows(cfg, w.running.snapshot, w.disk) && SoundEdit(w.running.edit, w.running.snapshot))
  }

  lemma BuiltinsThenDiskShows(cfg: Config, disk: seq<Preset>)
    requires AllBuiltIn(cfg.builtins) && AllCustom(disk)
    ensures Shows(cfg, cfg.builtins + disk, disk)
  {
    CustomOfConcat(cfg.builtins, disk);
    CustomOfBuiltins(cfg.builtins);
    CustomOfCustom(disk);
  }

  lemma {:induction false} CustomCommutesWithWithout(items: seq<Preset>, id: string)
    ensures Custom(Without(items, id)) == Without(Custom(items), id)
  {
    hide IsBuiltInId;
    if items != [] {
      var rest, last := items[..|items| - 1], items[|items| - 1];
      CustomCommutesWithWithout(rest, id);
      AppendToCustom(Without(rest, id), last);
      AppendToWithout(Custom(rest), last, id);
      assert Without(rest, id) + [] == Without(rest, id) && Custom(rest) + [] == Custom(rest);
    }
  }

  lemma AppendToCustom(items: seq<Preset>, p: Preset)
    ensures Custom(items + [p]) == Custom(items) + if IsBuiltInId(p.id) then [] else [p]
  {
    assert (items + [p])[..|items|] == items;
  }

  lemma AppendToWithout(items: seq<Preset>, p: Preset, id: string)
    ensures Without(items + [p], id) == Without(items, id) + if p.id == id then [] else [p]
  {
    assert (items + [p])[..|items|] == items;
  }

  // The browser's computation on the shown list is the edit of the stored list.
  lemma BrowserEditsTheStoredList(cfg: Config, snapshot: seq<Preset>, disk: seq<Preset>, e: Edit)
    requires !cfg.desktop && Shows(cfg, snapshot, disk) && SoundEdit(e, snapshot) && AllBuiltIn(cfg.builtins)
    ensures Custom(BrowserNext(snapshot, e)) == Applied(cfg, disk, e)
    ensures Shows(cfg, BrowserNext(snapshot, e), Applied(cfg, disk, e))
  {
    var id := if e.Put? then e.preset.id else e.id;
    CustomCommutesWithWithout(snapshot, id);
    WithoutMembers(snapshot, id);
    if e.Put? {
      CustomOfConcat([e.preset], Without(snapshot, id));
      CustomOfCustom([e.preset]);
    }
    forall p | p in cfg.builtins
      ensures p.id != id
    {
    }
  }

  lemma AppliedStaysCustom(cfg: Config, disk: seq<Preset>, e: Edit, snapshot: seq<Preset>)
    requires AllCustom(disk) && SoundEdit(e, snapshot)
    ensures AllCustom(Applied(cfg, disk, e))
  {
    var id := if e.Put? then e.preset.id else e.id;
    WithoutMembers(disk, id);
    forall k | 0 <= k < |Without(disk, id)|
      ensures !IsBuiltInId(Without(disk, id)[k].id)
    {
      assert Without(disk, id)[k] in disk;
    }
  }

  lemma NewEditIsSound(cfg: Config, m: Mutation, existing: seq<Preset>)
    requires m.Remove? ==> !IsBuiltInId(m.id)
    ensures SoundEdit(EditOf(cfg, m, existing), existing)
  {
    if m.Save? {
      assert NewPreset(cfg, m, existing).id[0] == 's';
    }
  }

  lemma WriteKeepsInvariant(cfg: Config, w: World)
    requires Inv(cfg, w) && Enabled(w, Write)
    ensures Inv(cfg, Do(cfg, w, Write))
    ensures Do(cfg, w, Write).disk == Applied(cfg, w.disk, w.running.edit)
  {
    hide Applied, BrowserNext, Custom;
    AppliedStaysCustom(cfg, w.disk, w.running.edit, w.running.snapshot);
    if cfg.desktop {
      BuiltinsThenDiskShows(cfg, Applied(cfg, w.disk, w.running.edit));
    } else {
      BrowserEditsTheStoredList(cfg, w.running.snapshot, w.disk, w.running.edit);
    }
  }

  lemma StepKeepsInvariant(cfg: Config, w: World, a: Action)
    requires Inv(cfg, w) && Enabled(w, a)
    ensures Inv(cfg, Do(cfg, w, a))
  {
    hide Shows, AllCustom, AllBuiltIn, EditOf, SoundEdit;
    match a {
      case Write => WriteKeepsInvariant(cfg, w);
      case SettleLoad(id) => BuiltinsThenDiskShows(cfg, w.disk);
      case CheckReady => NewEditIsSound(cfg, w.running.mutation, w.store.strategies);
      case _ =>
    }
  }

  lemma {:induction false} InvariantHoldsAfter(cfg: Config, initial: seq<Preset>, disk: seq<Preset>, trace: seq<Action>)
    requires AllBuiltIn(cfg.builtins) && AllCustom(disk)
    requires Possible(cfg, InitialWorld(initial, disk), trace)
    ensures Inv(cfg, After(cfg, InitialWorld(initial, disk), trace))
  {
    hide Do, Enabled;
    if trace != [] {
      InvariantHoldsAfter(cfg, initial, disk, trace[..|trace| - 1]);
      StepKeepsInvariant(cfg, After(cfg, InitialWorld(initial, disk), trace[..|trace| - 1]), trace[|trace| - 1]);
    }
  }

  // ----- main results

  // Over every interleaving: a ready store with no mutation between its disk
  // write and its completion shows exactly what is stored.
  lemma StoreAgreesWithDisk(cfg: Config, initial: seq<Preset>, disk: seq<Preset>, trace: seq<Action>)
    requires AllBuiltIn(cfg.builtins) && AllCustom(disk)
    requires Possible(cfg, InitialWorld(initial, disk), trace)
    ensures
      var w := After(cfg, InitialWorld(initial, disk), trace);
      w.store.status == Ready && !w.running.Written? ==> Shows(cfg, w.store.strategies, w.disk)
  {
    InvariantHoldsAfter(cfg, initial, disk, trace);
  }

  function Replay(cfg: Config, disk: seq<Preset>, log: seq<Logged>): seq<Preset> {
    if log == [] then disk else Applied(cfg, Replay(cfg, disk, log[..|log| - 1]), log[|log| - 1].edit)
  }

  // The stored list is the initial one with every logged edit applied in order,
  // also where the browser computes it from the list it shows.
  lemma {:induction false} NoEditIsLost(cfg: Config, initial: seq<Preset>, disk: seq<Preset>, trace: seq<Action>)
    requires AllBuiltIn(cfg.builtins) && AllCustom(disk)
    requires Possible(cfg, InitialWorld(initial, disk), trace)
    ensures
      var w := After(cfg, InitialWorld(initial, disk), trace);
      w.disk == Replay(cfg, disk, w.log)
  {
    hide Applied;
    if trace != [] {
      var before := trace[..|trace| - 1];
      NoEditIsLost(cfg, initial, disk, before);
      InvariantHoldsAfter(cfg, initial, disk, before);
      var w := After(cfg, InitialWorld(initial, disk), before);
      if trace[|trace| - 1].Write? {
        WriteKeepsInvariant(cfg, w);
        assert After(cfg, InitialWorld(initial, disk), trace).log[..|w.log|] == w.log;
      }
    }
  }

  // ----- names

  ghost predicate NameFree(items: seq<Preset>, name: string) {
    forall p :: p in items ==> p.name != name
  }

  lemma {:induction false} UniqueNamesOfConcat(a: seq<Preset>, b: seq<Preset>)
    ensures UniqueNames(a + b) <==>
            UniqueNames(a) && UniqueNames(b) && forall p, q :: p in a && q in b ==> p.name != q.name
  {
    if UniqueNames(a + b) {
      forall p, q | p in a && q in b
        ensures p.name != q.name
      {
        var i :| 0 <= i < |a| && a[i] == p;
        var j :| 0 <= j < |b| && b[j] == q;
        assert (a + b)[i] == p && (a + b)[|a| + j] == q;
      }
      assert forall i :: 0 <= i < |a| ==> (a + b)[i] == a[i];
      assert forall j :: 0 <= j < |b| ==> (a + b)[|a| + j] == b[j];
    }
  }

  // What the saved name avoids in the shown list, it avoids on disk.
  lemma SavedNameIsFree(cfg: Config, disk: seq<Preset>, snapshot: seq<Preset>, name: string)
    requires Shows(cfg, snapshot, disk) && name !in Names(snapshot)
    ensures NameFree(cfg.builtins, name) && NameFree(disk, name)
  {
    CustomMembers(snapshot);
    forall p | p in snapshot
      ensures p.name != name
    {
      var k :| 0 <= k < |snapshot| && snapshot[k] == p;
      assert Names(snapshot)[k] == p.name;
    }
  }

  lemma RemovalKeepsNamesUnique(builtins: seq<Preset>, disk: seq<Preset>, id: string)
    requires UniqueNames(builtins + disk)
    ensures UniqueNames(builtins + Without(disk, id))
  {
    hide UniqueNames, Without;
    UniqueNamesOfConcat(builtins, disk);
    WithoutMembers(disk, id);
    WithoutKeepsNamesUnique(disk, id);
    UniqueNamesOfConcat(builtins, Without(disk, id));
  }

  lemma PutKeepsNamesUnique(cfg: Config, disk: seq<Preset>, p: Preset)
    requires UniqueNames(cfg.builtins + disk) && NameFree(cfg.builtins, p.name) && NameFree(disk, p.name)
    ensures UniqueNames(cfg.builtins + Applied(cfg, disk, Put(p)))
  {
    var after := Applied(cfg, disk, Put(p));
    RemovalKeepsNamesUnique(cfg.builtins, disk, p.id);
    UniqueNamesOfConcat(cfg.builtins, disk);
    UniqueNamesOfConcat(cfg.builtins, Without(disk, p.id));
    WithoutMembers(disk, p.id);
    if cfg.desktop {
      UpsertKeepsNamesUnique(disk, p);
      assert forall q :: q in after ==> q in disk || q == p;
    } else {
      UniqueNamesOfConcat([p], Without(disk, p.id));
    }
    UniqueNamesOfConcat(cfg.builtins, after);
  }

  lemma EditKeepsNamesUnique(cfg: Config, disk: seq<Preset>, snapshot: seq<Preset>, e: Edit)
    requires UniqueNames(cfg.builtins + disk) && Shows(cfg, snapshot, disk) && SoundEdit(e, snapshot)
    ensures UniqueNames(cfg.builtins + Applied(cfg, disk, e))
  {
    hide UniqueNames, Shows;
    match e
    case Put(p) =>
      SavedNameIsFree(cfg, disk, snapshot, p.name);
      PutKeepsNamesUnique(cfg, disk, p);
    case Drop(id) => RemovalKeepsNamesUnique(cfg.builtins, disk, id);
  }

  // Names that start distinct stay distinct over every run.
  lemma {:induction false} NamesStayUnique(cfg: Config, initial: seq<Preset>, disk: seq<Preset>, trace: seq<Action>)
    requires AllBuiltIn(cfg.builtins) && AllCustom(disk) && UniqueNames(cfg.builtins + disk)
    requires Possible(cfg, InitialWorld(initial, disk), trace)
    ensures UniqueNames(cfg.builtins + After(cfg, InitialWorld(initial, disk), trace).disk)
  {
    hide Applied;
    if trace != [] {
      var before := trace[..|trace| - 1];
      NamesStayUnique(cfg, initial, disk, before);
      InvariantHoldsAfter(cfg, initial, disk, before);
      var w := After(cfg, InitialWorld(initial, disk), before);
      if trace[|trace| - 1].Write? {
        WriteKeepsInvariant(cfg, w);
        EditKeepsNamesUnique(cfg, w.disk, w.running.snapshot, w.running.edit);
      }
    }
  }
}
