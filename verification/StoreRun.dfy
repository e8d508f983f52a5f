/**
  The store object at work: any possible sequence of events, each carried out by
  the object's own methods, moves its fields as the protocol says.
 */
module StoreRun {
  import opened Options
  import opened StrategyArray
  import opened SavedStrategyStore

  // The continuation of a load: it installs what it read or records the failure.
  method SettleOneLoad(cfg: Config, store: Store, w: World, load: nat) returns (after: World)
    requires w.store == store.View() && Enabled(w, SettleLoad(load))
    modifies store
    ensures after == Do(cfg, w, SettleLoad(load)) && store.View() == after.store
  {
    if w.loads[load].Read? {
      store.ResolveLoad(load, cfg.builtins + w.loads[load].items);
    } else {
      store.RejectLoad(load);
    }
    after := w.(loads := w.loads - {load}, store := store.View());
  }

  // A load is issued and joins those in flight.
  method StartOneLoad(store: Store, w: World) returns (after: World)
    requires w.store == store.View()
    modifies store
    ensures after == Started(w) && store.View() == after.store
  {
    var started := store.initialLoad.Some?;
    store.Start();
    if started {
      after := w;
    } else {
      after := w.(loads := w.loads[store.loadCounter := Issued], store := store.View());
    }
  }

  // The ready check of a mutation: go on with the list shown, or give up.
  method CheckOneMutation(cfg: Config, store: Store, w: World) returns (after: World)
    requires w.store == store.View() && Enabled(w, CheckReady)
    modifies store
    ensures after == Do(cfg, w, CheckReady) && store.View() == after.store
  {
    if store.status == Ready {
      after := w.(running := InFlight(EditOf(cfg, w.running.mutation, store.strategies), store.strategies));
    } else {
      store.Settle();
      after := w.(running := Idle, outcomes := w.outcomes + [NotReady], store := store.View());
    }
  }

  // One event: what happens around the store, and what the store's methods do.
  method Perform(cfg: Config, store: Store, w: World, a: Action) returns (after: World)
    requires w.store == store.View() && Enabled(w, a)
    modifies store
    ensures after == Do(cfg, w, a) && store.View() == after.store
  {
    hide EditOf, Applied, BrowserNext;
    match a {
      case Start => after := StartOneLoad(store, w);
      case Reload =>
        store.Reload();
        after := w.(loads := w.loads[store.loadCounter := Issued], store := store.View());
      case Refresh =>
        var id := store.IssueLoad(false);
        after := w.(loads := w.loads[id := Issued], store := store.View());
      case ReadDisk(id) => after := w.(loads := w.loads[id := Read(w.disk)]);
      case FailRead(id) => after := w.(loads := w.loads[id := ReadFailed]);
      case SettleLoad(id) => after := SettleOneLoad(cfg, store, w, id);
      case Enqueue(m) =>
        store.Enqueue();
        after := w.(submitted := w.submitted + [m], store := store.View());
      case Begin =>
        var started := StartOneLoad(store, w);
        after := BegunNext(started);
      case CheckReady => after := CheckOneMutation(cfg, store, w);
      case Write => after := WrittenNext(cfg, w);
      case Reject =>
        store.Settle();
        after := w.(running := Idle, outcomes := w.outcomes + [Rejected], store := store.View());
      case Complete =>
        store.FinishMutation(w.running.result);
        store.Settle();
        var outcome := OutcomeOf(w.running.edit, w.running.snapshot);
        after := w.(running := Idle, outcomes := w.outcomes + [outcome], store := store.View());
    }
  }

  // A whole run of a new store.
  method Play(cfg: Config, initial: seq<Preset>, disk: seq<Preset>, trace: seq<Action>)
    returns (store: Store, w: World)
    requires Possible(cfg, InitialWorld(initial, disk), trace)
    ensures fresh(store)
    ensures w == After(cfg, InitialWorld(initial, disk), trace) && store.View() == w.store
  {
    hide Do, Enabled;
    store := new Store(initial);
    w := InitialWorld(initial, disk);
    AllPrefixesPossible(cfg, w, trace, 0);
    for i := 0 to |trace|
      invariant Possible(cfg, InitialWorld(initial, disk), trace[..i])
      invariant w == After(cfg, InitialWorld(initial, disk), trace[..i]) && store.View() == w.store
      invariant fresh(store)
    {
      AllPrefixesPossible(cfg, InitialWorld(initial, disk), trace, i + 1);
      assert trace[..i + 1][..i] == trace[..i];
      w := Perform(cfg, store, w, trace[i]);
    }
    assert trace[..|trace|] == trace;
  }

  lemma {:induction false} AllPrefixesPossible(cfg: Config, w: World, trace: seq<Action>, k: nat)
    requires Possible(cfg, w, trace) && k <= |trace|
    ensures Possible(cfg, w, trace[..k])
  {
    hide Do, Enabled;
    if k < |trace| {
      AllPrefixesPossible(cfg, w, trace[..|trace| - 1], k);
      assert trace[..|trace| - 1][..k] == trace[..k];
    } else {
      assert trace[..k] == trace;
    }
  }
}
