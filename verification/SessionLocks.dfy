/**
  The per-session lock table of the chat service: reference-counted entries, the
  eviction of idle ones, and the life of a lock from lookup to release across the
  request generator and its worker.
 */
module SessionLocks {
  import opened Options

  const MAX_SESSION_LOCKS: int := 512

  // ----- the table, in insertion order

  datatype Slot<E> = Slot(key: string, entry: E)

  function Find<E>(slots: seq<Slot<E>>, key: string): (r: Option<E>)
    ensures r.Some? ==> Slot(key, r.value) in slots
    ensures r.None? ==> forall s :: s in slots ==> s.key != key
  {
    if slots == [] then None
    else if slots[0].key == key then Some(slots[0].entry)
    else Find(slots[1..], key)
  }

  predicate DistinctKeys<E>(slots: seq<Slot<E>>) {
    forall i, j :: 0 <= i < j < |slots| ==> slots[i].key != slots[j].key
  }

  // Remove the oldest idle slots, `excess` of them if there are as many.
  function Evict<E(==)>(slots: seq<Slot<E>>, idle: set<E>, excess: nat): seq<Slot<E>> {
    if excess == 0 || slots == [] then slots
    else if slots[0].entry in idle then Evict(slots[1..], idle, excess - 1)
    else [slots[0]] + Evict(slots[1..], idle, excess)
  }

  // How many must go before the new entry is added.
  function Excess<E>(slots: seq<Slot<E>>): nat {
    if |slots| >= MAX_SESSION_LOCKS then |slots| - (MAX_SESSION_LOCKS - 1) else 0
  }

  lemma {:induction false} EvictDropsOnlyIdle<E>(slots: seq<Slot<E>>, idle: set<E>, excess: nat, s: Slot<E>)
    ensures s in Evict(slots, idle, excess) ==> s in slots
    ensures s in slots && s.entry !in idle ==> s in Evict(slots, idle, excess)
  {
    if excess > 0 && slots != [] {
      assert slots == [slots[0]] + slots[1..];
      EvictDropsOnlyIdle(slots[1..], idle, if slots[0].entry in idle then excess - 1 else excess, s);
    }
  }

  lemma {:induction false} EvictKeepsDistinctKeys<E>(slots: seq<Slot<E>>, idle: set<E>, excess: nat)
    requires DistinctKeys(slots)
    ensures DistinctKeys(Evict(slots, idle, excess))
  {
    if excess > 0 && slots != [] {
      var left := if slots[0].entry in idle then excess - 1 else excess;
      var rest := Evict(slots[1..], idle, left);
      EvictKeepsDistinctKeys(slots[1..], idle, left);
      forall k | 0 <= k < |rest| ensures rest[k].key != slots[0].key {
        EvictDropsOnlyIdle(slots[1..], idle, left, rest[k]);
      }
    }
  }

  // Eviction removes the excess, or stops short of it because nothing idle is left.
  lemma {:induction false} EvictIsThorough<E>(slots: seq<Slot<E>>, idle: set<E>, excess: nat)
    ensures
      var rest := Evict(slots, idle, excess);
      || |rest| + excess == |slots|
      || (|rest| + excess > |slots| && forall s :: s in rest ==> s.entry !in idle)
  {
    if excess > 0 && slots != [] {
      EvictIsThorough(slots[1..], idle, if slots[0].entry in idle then excess - 1 else excess);
    }
  }

  // The slots in use, in order.
  function Busy<E(==)>(slots: seq<Slot<E>>, idle: set<E>): (r: seq<Slot<E>>)
    ensures |r| <= |slots|
  {
    if slots == [] then []
    else (if slots[0].entry in idle then [] else [slots[0]]) + Busy(slots[1..], idle)
  }

  // Eviction takes the oldest idle slots: up to some place all of them, behind it
  // none; and it goes on until the excess is gone or the slots are at an end.
  lemma {:induction false} EvictTakesOldestIdle<E>(slots: seq<Slot<E>>, idle: set<E>, excess: nat) returns (c: nat)
    ensures c <= |slots|
    ensures Evict(slots, idle, excess) == Busy(slots[..c], idle) + slots[c..]
    ensures
      var evicted := c - |Busy(slots[..c], idle)|;
      evicted <= excess && (evicted == excess || c == |slots|)
  {
    if excess == 0 || slots == [] {
      c := 0;
      assert Busy(slots[..0], idle) == [] && slots[0..] == slots;
    } else {
      var i := EvictTakesOldestIdle(slots[1..], idle, if slots[0].entry in idle then excess - 1 else excess);
      c := i + 1;
      assert slots[..c][0] == slots[0] && slots[..c][1..] == slots[1..][..i] && slots[c..] == slots[1..][i..];
      assert slots[0].entry !in idle ==>
          [slots[0]] + (Busy(slots[1..][..i], idle) + slots[1..][i..])
          == ([slots[0]] + Busy(slots[1..][..i], idle)) + slots[1..][i..];
    }
  }

  // ----- the life of a request

  datatype Entry = Entry(key: string, refs: int, locked: bool)

  // Where the request generator stands.
  datatype Pc = Start | Waiting | Holding | Draining | Leaving | Gone

  // `held`, `released` and `started` are the flags of the source; `dropping` marks
  // a release that has yet to give its reference back. `unlocks` counts the
  // releases of the lock itself.
  datatype Client = Client(entry: Option<nat>, pc: Pc, held: bool, released: bool, started: bool,
                           workerDone: bool, dropping: bool, dropped: bool, unlocks: nat)

  datatype State = State(entries: seq<Entry>, slots: seq<Slot<nat>>, clients: seq<Client>)

  datatype Action =
    | Lookup(c: nat, key: string)
    | Acquire(c: nat)
    | TimeOut(c: nat)
    | StartWorker(c: nat)
    | StartFails(c: nat)
    | Close(c: nat)
    | Finally(c: nat)
    | WorkerEnds(c: nat)
    | DropRef(c: nat)

  const NewClient: Client := Client(None, Start, false, false, false, false, false, false, 0)

  predicate WellFormed(s: State) {
    && (forall i :: 0 <= i < |s.slots| ==> s.slots[i].entry < |s.entries|)
    && (forall c :: 0 <= c < |s.clients| && s.clients[c].entry.Some? ==> s.clients[c].entry.value < |s.entries|)
  }

  predicate Enabled(s: State, a: Action) {
    && WellFormed(s)
    && a.c < |s.clients|
    && var cl := s.clients[a.c];
       match a
       case Lookup(_, _) => cl.pc.Start?
       case Acquire(_) => cl.pc.Waiting? && cl.entry.Some? && !s.entries[cl.entry.value].locked
       case TimeOut(_) => cl.pc.Waiting?
       case StartWorker(_) => cl.pc.Holding?
       case StartFails(_) => cl.pc.Holding?
       case Close(_) => cl.pc.Start? || cl.pc.Holding? || cl.pc.Draining?
       case Finally(_) => cl.pc.Leaving?
       case WorkerEnds(_) => cl.started && !cl.workerDone
       case DropRef(_) => cl.dropping && cl.entry.Some?
  }

  function Next(s: State, a: Action): State
    requires Enabled(s, a)
  {
    var cl := s.clients[a.c];
    match a
    case Lookup(c, key) => LookedUp(s, c, key)
    case Acquire(c) => Acquired(s, c)
    case TimeOut(c) => Released(s, c, cl.(pc := Gone))
    case StartWorker(c) => s.(clients := s.clients[c := cl.(pc := Draining, started := true)])
    case StartFails(c) => Released(s, c, cl.(pc := Leaving))
    case Close(c) => s.(clients := s.clients[c := cl.(pc := Leaving)])
    case Finally(c) =>
      if cl.started then s.(clients := s.clients[c := cl.(pc := Gone)]) else Released(s, c, cl.(pc := Gone))
    case WorkerEnds(c) => Released(s, c, cl.(workerDone := true))
    case DropRef(c) => Dropped(s, c)
  }

  function Idle(s: State): set<nat> {
    set e | 0 <= e < |s.entries| && s.entries[e].refs <= 0
  }

  // Find or make the entry of a key, with one more reference.
  function LookedUp(s: State, c: nat, key: string): State
    requires WellFormed(s) && c < |s.clients|
  {
    var found := Find(s.slots, key);
    if found.Some? then
      var e := found.value;
      s.(entries := s.entries[e := s.entries[e].(refs := s.entries[e].refs + 1)],
         clients := s.clients[c := s.clients[c].(entry := Some(e), pc := Waiting)])
    else
      State(s.entries + [Entry(key, 1, false)],
            Evict(s.slots, Idle(s), Excess(s.slots)) + [Slot(key, |s.entries|)],
            s.clients[c := s.clients[c].(entry := Some(|s.entries|), pc := Waiting)])
  }

  function Acquired(s: State, c: nat): State
    requires WellFormed(s) && c < |s.clients| && s.clients[c].entry.Some?
  {
    var e := s.clients[c].entry.value;
    s.(entries := s.entries[e := s.entries[e].(locked := true)],
       clients := s.clients[c := s.clients[c].(pc := Holding, held := true)])
  }

  // A call of the idempotent release: the second one does nothing.
  function Released(s: State, c: nat, cl: Client): State
    requires WellFormed(s) && c < |s.clients| && cl.entry == s.clients[c].entry
  {
    if cl.entry.None? || cl.released then s.(clients := s.clients[c := cl])
    else
      var e := cl.entry.value;
      s.(entries := if cl.held then s.entries[e := s.entries[e].(locked := false)] else s.entries,
         clients := s.clients[c := cl.(released := true, dropping := true,
                                       unlocks := cl.unlocks + if cl.held then 1 else 0)])
  }

  function Dropped(s: State, c: nat): State
    requires WellFormed(s) && c < |s.clients| && s.clients[c].entry.Some?
  {
    var e := s.clients[c].entry.value;
    var refs := if s.entries[e].refs > 0 then s.entries[e].refs - 1 else 0;
    s.(entries := s.entries[e := s.entries[e].(refs := refs)],
       clients := s.clients[c := s.clients[c].(dropping := false, dropped := true)])
  }

  // ----- counting users and owners

  predicate Uses(cl: Client, e: nat) {
    cl.entry == Some(e) && !cl.dropped
  }

  predicate Owns(cl: Client, e: nat) {
    cl.entry == Some(e) && cl.held && !cl.released
  }

  predicate Counted(cl: Client, e: nat, owners: bool) {
    if owners then Owns(cl, e) else Uses(cl, e)
  }

  function Count(clients: seq<Client>, e: nat, owners: bool): nat {
    if clients == [] then 0
    else Count(clients[1..], e, owners) + if Counted(clients[0], e, owners) then 1 else 0
  }

  lemma {:induction false} CountOfUpdate(clients: seq<Client>, c: nat, cl: Client, e: nat, owners: bool)
    requires c < |clients|
    ensures Count(clients[c := cl], e, owners) + (if Counted(clients[c], e, owners) then 1 else 0)
         == Count(clients, e, owners) + (if Counted(cl, e, owners) then 1 else 0)
  {
    if c == 0 {
      assert clients[c := cl][1..] == clients[1..];
    } else {
      assert clients[c := cl][1..] == clients[1..][c - 1 := cl];
      CountOfUpdate(clients[1..], c - 1, cl, e, owners);
    }
  }

  lemma {:induction false} CountedIsPositive(clients: seq<Client>, c: nat, e: nat, owners: bool)
    requires c < |clients| && Counted(clients[c], e, owners)
    ensures Count(clients, e, owners) > 0
  {
    if c > 0 {
      CountedIsPositive(clients[1..], c - 1, e, owners);
    }
  }

  lemma {:induction false} NoneCounted(clients: seq<Client>, e: nat, owners: bool)
    requires forall c :: 0 <= c < |clients| ==> !Counted(clients[c], e, owners)
    ensures Count(clients, e, owners) == 0
  {
    if clients != [] {
      NoneCounted(clients[1..], e, owners);
    }
  }

  lemma TwoCounted(clients: seq<Client>, c: nat, d: nat, e: nat, owners: bool)
    requires c < |clients| && d < |clients| && c != d
    requires Counted(clients[c], e, owners) && Counted(clients[d], e, owners)
    ensures Count(clients, e, owners) >= 2
  {
    CountOfUpdate(clients, c, NewClient, e, owners);
    CountedIsPositive(clients[c := NewClient], d, e, owners);
  }

  // ----- the invariant

  // What the flags of one request say to each other.
  predicate ClientInvariant(cl: Client) {
    && (cl.pc.Start? ==> cl == NewClient)
    && (cl.pc.Waiting? ==> cl.entry.Some? && !cl.held && !cl.released)
    && (cl.pc.Holding? ==> cl.held && !cl.released && !cl.started)
    && (cl.pc.Draining? ==> cl.started)
    && (cl.held || cl.released ==> cl.entry.Some?)
    && (cl.started ==> cl.held)
    && (cl.workerDone ==> cl.started && cl.released)
    && (cl.started && cl.released ==> cl.workerDone)
    && (cl.released <==> cl.dropping || cl.dropped)
    && !(cl.dropping && cl.dropped)
    && cl.unlocks == (if cl.held && cl.released then 1 else 0)
    && (cl.pc.Gone? && cl.entry.Some? && !cl.released ==> cl.started)
  }

  predicate ClientsInvariant(s: State) {
    forall c :: 0 <= c < |s.clients| ==> ClientInvariant(s.clients[c])
  }

  predicate RefsAreUsers(s: State) {
    forall e :: 0 <= e < |s.entries| ==> s.entries[e].refs == Count(s.clients, e, false)
  }

  predicate LocksAreOwned(s: State) {
    forall e :: 0 <= e < |s.entries| ==> Count(s.clients, e, true) == if s.entries[e].locked then 1 else 0
  }

  predicate TableInvariant(s: State) {
    && DistinctKeys(s.slots)
    && (forall i :: 0 <= i < |s.slots| ==>
          s.slots[i].entry < |s.entries| && s.entries[s.slots[i].entry].key == s.slots[i].key)
    && (forall e :: 0 <= e < |s.entries| && s.entries[e].refs > 0 ==> Slot(s.entries[e].key, e) in s.slots)
  }

  predicate Invariant(s: State) {
    && WellFormed(s)
    && ClientsInvariant(s)
    && RefsAreUsers(s)
    && LocksAreOwned(s)
    && TableInvariant(s)
  }

  // A change of one request and of the counts of its entry.
  lemma CountsFollow(s: State, s': State, c: nat, e: nat)
    requires RefsAreUsers(s) && LocksAreOwned(s)
    requires c < |s.clients| && e < |s.entries| == |s'.entries|
    requires |s'.clients| == |s.clients| && s'.clients == s.clients[c := s'.clients[c]]
    requires s.clients[c].entry == None || s.clients[c].entry == Some(e)
    requires s'.clients[c].entry == Some(e)
    requires forall d :: 0 <= d < |s.entries| && d != e ==> s'.entries[d] == s.entries[d]
    requires s'.entries[e].refs - s.entries[e].refs
          == (if Uses(s'.clients[c], e) then 1 else 0) - (if Uses(s.clients[c], e) then 1 else 0)
    requires (if s'.entries[e].locked then 1 else 0) - (if s.entries[e].locked then 1 else 0)
          == (if Owns(s'.clients[c], e) then 1 else 0) - (if Owns(s.clients[c], e) then 1 else 0)
    ensures RefsAreUsers(s') && LocksAreOwned(s')
  {
    hide Count;
    forall d | 0 <= d < |s.entries|
      ensures s'.entries[d].refs == Count(s'.clients, d, false)
      ensures Count(s'.clients, d, true) == if s'.entries[d].locked then 1 else 0
    {
      CountOfUpdate(s.clients, c, s'.clients[c], d, false);
      CountOfUpdate(s.clients, c, s'.clients[c], d, true);
    }
  }

  lemma ReleaseKeepsInvariant(s: State, c: nat, cl: Client)
    requires Invariant(s) && c < |s.clients|
    requires cl == s.clients[c].(pc := cl.pc, workerDone := cl.workerDone)
    requires
      var unlocks := cl.unlocks + if cl.held then 1 else 0;
      ClientInvariant(if cl.entry.None? || cl.released then cl
                      else cl.(released := true, dropping := true, unlocks := unlocks))
    requires !cl.released ==> !s.clients[c].released
    ensures Invariant(Released(s, c, cl))
    ensures cl.held && !cl.released ==> s.entries[cl.entry.value].locked
  {
    hide Count, DistinctKeys;
    var s' := Released(s, c, cl);
    if cl.entry.Some? {
      var e := cl.entry.value;
      if cl.held && !cl.released {
        CountedIsPositive(s.clients, c, e, true);
      }
      CountsFollow(s, s', c, e);
    } else {
      UncountedChange(s, s', c);
    }
  }

  // A change of a request that has no entry.
  lemma UncountedChange(s: State, s': State, c: nat)
    requires RefsAreUsers(s) && LocksAreOwned(s)
    requires c < |s.clients| && s'.entries == s.entries
    requires |s'.clients| == |s.clients| && s'.clients == s.clients[c := s'.clients[c]]
    requires s.clients[c].entry == None && s'.clients[c].entry == None
    ensures RefsAreUsers(s') && LocksAreOwned(s')
  {
    hide Count;
    forall d | 0 <= d < |s.entries|
      ensures s'.entries[d].refs == Count(s'.clients, d, false)
      ensures Count(s'.clients, d, true) == if s'.entries[d].locked then 1 else 0
    {
      CountOfUpdate(s.clients, c, s'.clients[c], d, false);
      CountOfUpdate(s.clients, c, s'.clients[c], d, true);
    }
  }

  // A change of flags that moves neither a reference nor the lock.
  lemma FlagsKeepInvariant(s: State, c: nat, cl: Client)
    requires Invariant(s) && c < |s.clients|
    requires cl.entry == s.clients[c].entry && cl.dropped == s.clients[c].dropped
    requires cl.held == s.clients[c].held && cl.released == s.clients[c].released
    requires ClientInvariant(cl)
    ensures Invariant(s.(clients := s.clients[c := cl]))
  {
    hide Count, DistinctKeys;
    var s' := s.(clients := s.clients[c := cl]);
    if cl.entry.Some? {
      CountsFollow(s, s', c, cl.entry.value);
    } else {
      UncountedChange(s, s', c);
    }
  }

  lemma LookupOfKnownKeepsInvariant(s: State, c: nat, key: string)
    requires Invariant(s) && c < |s.clients| && s.clients[c].pc.Start? && Find(s.slots, key).Some?
    ensures Invariant(LookedUp(s, c, key))
  {
    hide Count, DistinctKeys;
    var e := Find(s.slots, key).value;
    CountsFollow(s, LookedUp(s, c, key), c, e);
  }

  // No request refers to an entry that does not exist yet.
  lemma NewEntryIsUnused(s: State)
    requires WellFormed(s)
    ensures Count(s.clients, |s.entries|, false) == 0 && Count(s.clients, |s.entries|, true) == 0
  {
    NoneCounted(s.clients, |s.entries|, false);
    NoneCounted(s.clients, |s.entries|, true);
  }

  lemma LookupOfNewKeepsInvariant(s: State, c: nat, key: string)
    requires Invariant(s) && c < |s.clients| && s.clients[c].pc.Start? && Find(s.slots, key).None?
    ensures Invariant(LookedUp(s, c, key))
  {
    NewTable(s, c, key);
    NewCounts(s, c, key);
  }

  lemma NewCounts(s: State, c: nat, key: string)
    requires Invariant(s) && c < |s.clients| && s.clients[c].pc.Start? && Find(s.slots, key).None?
    ensures RefsAreUsers(LookedUp(s, c, key)) && LocksAreOwned(LookedUp(s, c, key))
  {
    hide Count, DistinctKeys, Evict, Find;
    var s' := LookedUp(s, c, key);
    NewEntryIsUnused(s);
    forall d | 0 <= d < |s'.entries|
      ensures s'.entries[d].refs == Count(s'.clients, d, false)
      ensures Count(s'.clients, d, true) == if s'.entries[d].locked then 1 else 0
    {
      CountOfUpdate(s.clients, c, s'.clients[c], d, false);
      CountOfUpdate(s.clients, c, s'.clients[c], d, true);
    }
  }

  lemma NewTable(s: State, c: nat, key: string)
    requires Invariant(s) && c < |s.clients| && s.clients[c].pc.Start? && Find(s.slots, key).None?
    ensures TableInvariant(LookedUp(s, c, key)) && WellFormed(LookedUp(s, c, key))
  {
    hide Count, Evict, Find;
    var s' := LookedUp(s, c, key);
    var kept := Evict(s.slots, Idle(s), Excess(s.slots));
    EvictKeepsDistinctKeys(s.slots, Idle(s), Excess(s.slots));
    forall i | 0 <= i < |kept|
      ensures kept[i] in s.slots && kept[i].key != key
    {
      EvictDropsOnlyIdle(s.slots, Idle(s), Excess(s.slots), kept[i]);
    }
    forall e | 0 <= e < |s'.entries| && s'.entries[e].refs > 0
      ensures Slot(s'.entries[e].key, e) in s'.slots
    {
      if e < |s.entries| {
        EvictDropsOnlyIdle(s.slots, Idle(s), Excess(s.slots), Slot(s.entries[e].key, e));
      } else {
        assert s'.slots[|kept|] == Slot(key, e);
      }
    }
  }

  lemma StepKeepsInvariant(s: State, a: Action)
    requires Invariant(s) && Enabled(s, a)
    ensures Invariant(Next(s, a))
  {
    hide RefsAreUsers, LocksAreOwned, TableInvariant, LookedUp, Released, Acquired, Dropped;
    var cl := s.clients[a.c];
    match a
    case Lookup(c, key) =>
      if Find(s.slots, key).Some? {
        LookupOfKnownKeepsInvariant(s, c, key);
      } else {
        LookupOfNewKeepsInvariant(s, c, key);
      }
    case Acquire(c) => AcquireKeepsInvariant(s, c);
    case TimeOut(c) => ReleaseKeepsInvariant(s, c, cl.(pc := Gone));
    case StartWorker(c) => FlagsKeepInvariant(s, c, cl.(pc := Draining, started := true));
    case StartFails(c) => ReleaseKeepsInvariant(s, c, cl.(pc := Leaving));
    case Close(c) => FlagsKeepInvariant(s, c, cl.(pc := Leaving));
    case Finally(c) =>
      if cl.started {
        FlagsKeepInvariant(s, c, cl.(pc := Gone));
      } else {
        ReleaseKeepsInvariant(s, c, cl.(pc := Gone));
      }
    case WorkerEnds(c) => ReleaseKeepsInvariant(s, c, cl.(workerDone := true));
    case DropRef(c) => DropKeepsInvariant(s, c);
  }

  lemma AcquireKeepsInvariant(s: State, c: nat)
    requires Invariant(s) && Enabled(s, Acquire(c))
    ensures Invariant(Acquired(s, c))
  {
    hide Count, DistinctKeys;
    CountsFollow(s, Acquired(s, c), c, s.clients[c].entry.value);
  }

  lemma DropKeepsInvariant(s: State, c: nat)
    requires Invariant(s) && Enabled(s, DropRef(c))
    ensures Invariant(Dropped(s, c))
  {
    hide Count, DistinctKeys;
    CountedIsPositive(s.clients, c, s.clients[c].entry.value, false);
    CountsFollow(s, Dropped(s, c), c, s.clients[c].entry.value);
  }

  // ----- every run

  predicate Possible(s: State, actions: seq<Action>)
    decreases |actions|
  {
    actions == [] || (Enabled(s, actions[0]) && Possible(Next(s, actions[0]), actions[1..]))
  }

  function After(s: State, actions: seq<Action>): State
    requires Possible(s, actions)
    decreases |actions|
  {
    if actions == [] then s else After(Next(s, actions[0]), actions[1..])
  }

  // Any number of requests, none of which has started.
  function Initial(requests: nat): State {
    State([], [], seq(requests, i => NewClient))
  }

  lemma {:induction false} InvariantHoldsAfter(s: State, actions: seq<Action>)
    requires Invariant(s) && Possible(s, actions)
    ensures Invariant(After(s, actions))
    decreases |actions|
  {
    hide Invariant, Next, Enabled;
    if actions != [] {
      StepKeepsInvariant(s, actions[0]);
      InvariantHoldsAfter(Next(s, actions[0]), actions[1..]);
    }
  }

  lemma InvariantHoldsInEveryRun(requests: nat, actions: seq<Action>)
    requires Possible(Initial(requests), actions)
    ensures Invariant(After(Initial(requests), actions))
  {
    InvariantHoldsAfter(Initial(requests), actions);
  }

  // ----- what the invariant gives

  // The entries of one key that someone refers to are one, and it is in the table.
  lemma LiveEntryIsUniqueAndInTable(s: State, e: nat, d: nat)
    requires Invariant(s) && e < |s.entries| && d < |s.entries|
    requires s.entries[e].key == s.entries[d].key && s.entries[e].refs > 0 && s.entries[d].refs > 0
    ensures e == d && Find(s.slots, s.entries[e].key) == Some(e)
  {
    var key := s.entries[e].key;
    assert Slot(key, e) in s.slots && Slot(key, d) in s.slots;
    assert Find(s.slots, key).Some? && Slot(key, Find(s.slots, key).value) in s.slots;
  }

  predicate Working(cl: Client) {
    cl.started && !cl.workerDone
  }

  // No two workers run for one key, whatever was evicted in between.
  lemma AtMostOneWorkerPerKey(s: State, c: nat, d: nat)
    requires Invariant(s) && c < |s.clients| && d < |s.clients|
    requires Working(s.clients[c]) && Working(s.clients[d])
    requires s.entries[s.clients[c].entry.value].key == s.entries[s.clients[d].entry.value].key
    ensures c == d
  {
    hide Count;
    var e, f := s.clients[c].entry.value, s.clients[d].entry.value;
    CountedIsPositive(s.clients, c, e, false);
    CountedIsPositive(s.clients, d, f, false);
    LiveEntryIsUniqueAndInTable(s, e, f);
    if c != d {
      TwoCounted(s.clients, c, d, e, true);
    }
  }

  // A lock is only ever released by the request that holds it.
  lemma OnlyHeldLocksAreReleased(s: State, a: Action)
    requires Invariant(s) && Enabled(s, a)
    requires Next(s, a).clients[a.c].unlocks > s.clients[a.c].unlocks
    ensures s.entries[s.clients[a.c].entry.value].locked && Owns(s.clients[a.c], s.clients[a.c].entry.value)
  {
    hide Count, LookedUp;
    var cl := s.clients[a.c];
    LookupKeepsUnlocks(s, a);
    if cl.entry.Some? {
      if Owns(cl, cl.entry.value) {
        CountedIsPositive(s.clients, a.c, cl.entry.value, true);
      }
    }
  }

  lemma LookupKeepsUnlocks(s: State, a: Action)
    requires Enabled(s, a)
    ensures a.Lookup? ==> Next(s, a).clients[a.c].unlocks == s.clients[a.c].unlocks
  {
  }

  predicate Over(cl: Client) {
    cl.pc.Gone? && !Working(cl) && !cl.dropping
  }

  // Once every request is over, each lock that was acquired has been released
  // exactly once, no lock is held and no reference is outstanding.
  lemma NothingIsLeaked(s: State)
    requires Invariant(s) && forall c :: 0 <= c < |s.clients| ==> Over(s.clients[c])
    ensures forall c :: 0 <= c < |s.clients| ==> s.clients[c].unlocks == if s.clients[c].held then 1 else 0
    ensures forall e :: 0 <= e < |s.entries| ==> s.entries[e].refs == 0 && !s.entries[e].locked
  {
    hide Count;
    forall e | 0 <= e < |s.entries| ensures s.entries[e].refs == 0 && !s.entries[e].locked {
      forall c | 0 <= c < |s.clients| ensures !Counted(s.clients[c], e, false) && !Counted(s.clients[c], e, true) {
        assert ClientInvariant(s.clients[c]) && Over(s.clients[c]);
      }
      NoneCounted(s.clients, e, false);
      NoneCounted(s.clients, e, true);
    }
    forall c | 0 <= c < |s.clients| ensures s.clients[c].unlocks == if s.clients[c].held then 1 else 0 {
      assert ClientInvariant(s.clients[c]) && Over(s.clients[c]);
    }
  }

  // A lookup that adds an entry leaves at most 512, or only entries in use.
  lemma InsertionBoundsTable(s: State, c: nat, key: string)
    requires Invariant(s) && c < |s.clients| && s.clients[c].pc.Start? && Find(s.slots, key).None?
    ensures
      var s' := LookedUp(s, c, key);
      |s'.slots| <= 512
      || forall slot :: slot in s'.slots ==> slot.entry < |s'.entries| && s'.entries[slot.entry].refs > 0
  {
    hide Count, Evict;
    var kept := Evict(s.slots, Idle(s), Excess(s.slots));
    EvictIsThorough(s.slots, Idle(s), Excess(s.slots));
    if |kept| + Excess(s.slots) != |s.slots| {
      forall slot | slot in kept ensures slot in s.slots {
        EvictDropsOnlyIdle(s.slots, Idle(s), Excess(s.slots), slot);
      }
    }
  }

  // A lookup of a known key changes nothing but one count; a new key evicts nothing
  // below 512 entries and never leaves fewer than 512 at the limit.
  lemma LookupEvictsOnlyAtLimit(s: State, c: nat, key: string)
    requires Invariant(s) && c < |s.clients|
    ensures
      var s', found := LookedUp(s, c, key), Find(s.slots, key);
      && (found.Some? ==>
            && s'.slots == s.slots && |s'.entries| == |s.entries| && s'.clients[c].entry == found
            && s'.entries[found.value] == s.entries[found.value].(refs := s.entries[found.value].refs + 1)
            && forall e :: 0 <= e < |s.entries| && e != found.value ==> s'.entries[e] == s.entries[e])
      && (found.None? ==>
            && s'.entries == s.entries + [Entry(key, 1, false)] && s'.clients[c].entry == Some(|s.entries|)
            && (|s.slots| < 512 ==> s'.slots == s.slots + [Slot(key, |s.entries|)])
            && (|s.slots| >= 512 ==> |s'.slots| >= 512))
  {
    hide Count, Evict, RefsAreUsers, LocksAreOwned;
    EvictIsThorough(s.slots, Idle(s), Excess(s.slots));
    NothingToEvict(s.slots, Idle(s));
  }

  lemma NothingToEvict<E>(slots: seq<Slot<E>>, idle: set<E>)
    ensures Evict(slots, idle, 0) == slots
  {
  }

  // A request may look up any key, give up waiting, take a free lock, fail to start
  // its worker or be closed, and a worker may end, in any order the others leave.
  lemma AnythingMayHappen(s: State, c: nat, key: string)
    requires Invariant(s) && c < |s.clients|
    ensures
      var cl := s.clients[c];
      && (cl.pc.Start? ==> Enabled(s, Lookup(c, key)) && Enabled(s, Close(c)))
      && (cl.pc.Waiting? ==> Enabled(s, TimeOut(c)))
      && (cl.pc.Waiting? && !s.entries[cl.entry.value].locked ==> Enabled(s, Acquire(c)))
      && (cl.pc.Holding? ==> Enabled(s, StartWorker(c)) && Enabled(s, StartFails(c)) && Enabled(s, Close(c)))
      && (cl.pc.Draining? ==> Enabled(s, Close(c)))
      && (cl.pc.Leaving? ==> Enabled(s, Finally(c)))
      && (Working(cl) ==> Enabled(s, WorkerEnds(c)))
      && (cl.dropping ==> Enabled(s, DropRef(c)))
  {
    hide Count;
    assert ClientInvariant(s.clients[c]);
  }

  // A locked lock has an owner, so a request can only wait for one that works.
  lemma LockedLockHasOwner(s: State, e: nat) returns (c: nat)
    requires Invariant(s) && e < |s.entries| && s.entries[e].locked
    ensures c < |s.clients| && Owns(s.clients[c], e)
  {
    hide Count;
    if forall k :: 0 <= k < |s.clients| ==> !Counted(s.clients[k], e, true) {
      NoneCounted(s.clients, e, true);
      assert false;
    }
    c :| 0 <= c < |s.clients| && Counted(s.clients[c], e, true);
  }

  // ----- the objects themselves

  class LockEntry {
    var refs: int
    var locked: bool

    constructor ()
      ensures refs == 0 && !locked
    {
      refs, locked := 0, false;
    }
  }

  class LockTable {
    var slots: seq<Slot<LockEntry>>

    ghost function Entries(): set<LockEntry>
      reads this
    {
      set s | s in slots :: s.entry
    }

    ghost function IdleEntries(): set<LockEntry>
      reads this, Entries()
    {
      set e | e in Entries() && e.refs <= 0
    }

    // Return the entry of a session with one more reference, making it when it is
    // missing and evicting idle entries first when the table is full.
    method SessionLock(key: string) returns (entry: LockEntry)
      modifies this, Entries()
      ensures Find(old(slots), key).Some? ==>
        slots == old(slots) && entry == Find(old(slots), key).value && entry.refs == old(entry.refs) + 1
        && entry.locked == old(entry.locked)
      ensures Find(old(slots), key).None? ==>
        fresh(entry) && entry.refs == 1 && !entry.locked
        && slots == Evict(old(slots), old(IdleEntries()), Excess(old(slots))) + [Slot(key, entry)]
      ensures forall e :: e in old(Entries()) && e != entry ==> e.refs == old(e.refs) && e.locked == old(e.locked)
    {
      var found := Find(slots, key);
      if found.Some? {
        entry := found.value;
        entry.refs := entry.refs + 1;
        return;
      }
      var kept := slots;
      if |slots| >= MAX_SESSION_LOCKS {
        kept := EvictIdle();
      }
      entry := new LockEntry();
      slots := kept + [Slot(key, entry)];
      entry.refs := entry.refs + 1;
    }

    // Scan the slots oldest first; stop as soon as there is room.
    method EvictIdle() returns (kept: seq<Slot<LockEntry>>)
      requires |slots| >= MAX_SESSION_LOCKS
      ensures kept == Evict(slots, IdleEntries(), Excess(slots))
    {
      kept := [];
      var excess := |slots| - (MAX_SESSION_LOCKS - 1);
      var i := 0;
      assert slots[0..] == slots;
      while i < |slots| && excess > 0
        invariant 0 <= i <= |slots| && 0 <= excess
        invariant kept + Evict(slots[i..], IdleEntries(), excess) == Evict(slots, IdleEntries(), Excess(slots))
      {
        assert slots[i..][1..] == slots[i + 1..];
        if slots[i].entry.refs > 0 {
          kept := kept + [slots[i]];
        } else {
          excess := excess - 1;
        }
        i := i + 1;
      }
      kept := kept + slots[i..];
    }

    // Give one reference back; the count never goes below zero.
    method DropRef(entry: LockEntry)
      modifies entry
      ensures entry.refs == if old(entry.refs) > 0 then old(entry.refs) - 1 else 0
      ensures entry.locked == old(entry.locked)
    {
      entry.refs := if entry.refs - 1 > 0 then entry.refs - 1 else 0;
    }
  }
}
