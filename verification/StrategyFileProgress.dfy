/**
  The stored strategy list from the side of its callers: which requests are
  accepted, that no caller gets an error without a cause, and that the workers
  never block each other for good.
 */
module StrategyFileProgress {
  import opened Options
  import opened StrategyArray
  import opened StrategyFile

  // ----- what is accepted, and what it does

  // A request is accepted when the file is absent or an array of valid entries, and
  // the preset to store is valid.
  lemma AcceptsInFields(f: File, r: Request, valid: Preset -> bool)
    ensures Accepts(f, r, valid) <==>
            && (f.Absent? || (f.Stored? && forall k :: 0 <= k < |f.items| ==> valid(f.items[k])))
            && (r.Upsert? ==> valid(r.preset))
  {
  }

  // A removal of an unknown id leaves the file alone, an absent one absent; all
  // other requests store the edited list.
  lemma EffectInFields(f: File, r: Request)
    ensures r.Upsert? ==> Effect(f, r) == Stored(Upserted(ItemsOf(f), r.preset))
    ensures r.Delete? && (forall p :: p in ItemsOf(f) ==> p.id != r.id) ==> Effect(f, r) == f
    ensures r.Delete? && (exists p :: p in ItemsOf(f) && p.id == r.id) ==>
            Effect(f, r) == Stored(Without(ItemsOf(f), r.id))
  {
    if r.Delete? {
      WithoutMembers(ItemsOf(f), r.id);
      if forall p :: p in ItemsOf(f) ==> p.id != r.id {
        WithoutAbsent(ItemsOf(f), r.id);
      } else if |Without(ItemsOf(f), r.id)| == |ItemsOf(f)| {
        SameLengthMeansSame(ItemsOf(f), r.id);
      }
    }
  }

  // ----- no error without a cause

  ghost predicate CalmStep(valid: Preset -> bool, w: World, w': World) {
    exists step :: Enabled(w, step) && !step.FailWrite? && w' == Next(valid, w, step)
  }

  // A behaviour in which no write to the disk fails; processes may still crash.
  ghost predicate CalmBehaviour(valid: Preset -> bool, file: File, b: seq<World>) {
    && b != [] && Initial(b[0], file)
    && forall k :: 0 <= k < |b| - 1 ==> CalmStep(valid, b[k], b[k + 1])
  }

  predicate Untroubled(s: Stage) {
    && !s.Stopping?
    && (s.MutexReleased? ==> s.outcome.Ok?)
    && (s.Done? ==> s.outcome.Ok?)
  }

  ghost predicate AllUntroubled(valid: Preset -> bool, w: World) {
    forall i :: i in w.workers ==>
      Untroubled(w.workers[i].stage) && (w.workers[i].request.Upsert? ==> valid(w.workers[i].request.preset))
  }

  lemma CalmStepKeepsUntroubled(valid: Preset -> bool, w: World, step: Step)
    requires AllUntroubled(valid, w) && Readable(w.file, valid) && Enabled(w, step) && !step.FailWrite?
    ensures AllUntroubled(valid, Next(valid, w, step))
  {
    hide Writes, Edited, Readable;
    var after := Next(valid, w, step);
    forall i | i in after.workers
      ensures Untroubled(after.workers[i].stage)
      ensures after.workers[i].request.Upsert? ==> valid(after.workers[i].request.preset)
    {
      assert Untroubled(w.workers[i].stage);
    }
  }

  lemma CalmIsBehaviour(valid: Preset -> bool, file: File, b: seq<World>)
    requires CalmBehaviour(valid, file, b)
    ensures Behaviour(valid, file, b)
  {
    hide Enabled, Next;
    forall k | 0 <= k < |b| - 1 ensures StepBetween(valid, b[k], b[k + 1]) {
      assert CalmStep(valid, b[k], b[k + 1]);
    }
  }

  // Over every behaviour in which no disk write fails, on a file that can be read
  // and with valid presets, every request that ends succeeds.
  lemma {:induction false} NoErrorWithoutCause(valid: Preset -> bool, file: File, b: seq<World>, k: nat)
    requires CalmBehaviour(valid, file, b) && k < |b| && Readable(file, valid)
    requires forall i :: i in b[0].workers && b[0].workers[i].request.Upsert? ==> valid(b[0].workers[i].request.preset)
    ensures AllUntroubled(valid, b[k])
  {
    hide Enabled, Next, Readable;
    if k > 0 {
      NoErrorWithoutCause(valid, file, b, k - 1);
      CalmIsBehaviour(valid, file, b);
      ReadersSeeCompleteFiles(valid, file, b, k - 1);
      assert CalmStep(valid, b[k - 1], b[k - 1 + 1]);
      var step :| Enabled(b[k - 1], step) && !step.FailWrite? && b[k] == Next(valid, b[k - 1], step);
      CalmStepKeepsUntroubled(valid, b[k - 1], step);
    }
  }

  // A process may crash at any time, and a write may fail from the moment it is
  // prepared until it is renamed.
  lemma AnythingMayFail(w: World, process: nat, i: nat, cleaned: bool)
    ensures Enabled(w, CrashProcess(process))
    ensures i in w.workers && (w.workers[i].stage.Prepared? || w.workers[i].stage.Staged?) ==>
      Enabled(w, FailWrite(i, cleaned))
  {
  }

  // ----- no deadlock

  // Whoever the file lock belongs to is at work.
  ghost predicate LockIsHeld(w: World) {
    w.fileLock.Some? ==> w.fileLock.value in w.workers && Holding(w.workers[w.fileLock.value].stage)
  }

  lemma StepKeepsLockHeld(valid: Preset -> bool, w: World, step: Step)
    requires LockIsHeld(w) && FileLocked(w) && Enabled(w, step)
    ensures LockIsHeld(Next(valid, w, step))
  {
    hide Accepts, Writes, Edited;
  }

  lemma {:induction false} LockIsAlwaysHeld(valid: Preset -> bool, file: File, b: seq<World>, k: nat)
    requires Behaviour(valid, file, b) && k < |b|
    ensures LockIsHeld(b[k])
  {
    hide Enabled, Next, WorkerSound, Behaviour;
    if k == 0 {
      NobodyHolds(valid, file, b);
    } else {
      LockIsAlwaysHeld(valid, file, b, k - 1);
      var step := StepBefore(valid, file, b, k);
      StepKeepsLockHeld(valid, b[k - 1], step);
    }
  }

  lemma NobodyHolds(valid: Preset -> bool, file: File, b: seq<World>)
    requires Behaviour(valid, file, b)
    ensures b != [] && LockIsHeld(b[0])
  {
  }

  predicate AtWork(s: Stage) {
    !s.Done? && !s.Crashed?
  }

  // The next step of a worker that holds the file lock.
  function OwnStep(w: World, i: nat): Step
    requires i in w.workers
  {
    match w.workers[i].stage
    case HasFileLock => TakeMutex(i)
    case HasBothLocks => ReadAndEdit(i)
    case Prepared(_) => CreateTemp(i)
    case Staged(_, synced) => if synced then Rename(i) else SyncTemp(i)
    case Finished(_, _) => DropMutex(i)
    case Stopping => DropMutex(i)
    case MutexReleased(_, _) => DropFileLock(i)
    case _ => TakeFileLock(i)
  }

  // The holder of the file lock can always go on: nobody else holds its mutex.
  lemma HolderGoesOn(valid: Preset -> bool, w: World, file: File, i: nat)
    requires Inv(valid, w, file) && i in w.workers && w.fileLock == Some(i)
    requires Holding(w.workers[i].stage)
    ensures Enabled(w, OwnStep(w, i))
  {
    hide Accepts, Writes, Edited, Replay;
    assert WorkerSound(valid, w, file, i);
    if w.workers[i].stage.HasFileLock? {
      MutexIsFree(w, i);
    }
  }

  lemma MutexIsFree(w: World, i: nat)
    requires Locked(w) && i in w.workers && w.fileLock == Some(i) && w.workers[i].stage.HasFileLock?
    ensures w.workers[i].process !in w.mutexes
  {
  }

  // In every world of every behaviour in which some worker is not done, one of them
  // can take a step, without a failure or a crash.
  lemma SomeWorkerGoesOn(valid: Preset -> bool, file: File, b: seq<World>, k: nat, i: nat) returns (j: nat)
    requires Behaviour(valid, file, b) && k < |b|
    requires i in b[k].workers && AtWork(b[k].workers[i].stage)
    ensures j in b[k].workers && Enabled(b[k], OwnStep(b[k], j))
    ensures b[k].fileLock.None? ==> j == i
  {
    hide Behaviour, WorkerSound;
    EveryWorldIsSound(valid, file, b, k);
    LockIsAlwaysHeld(valid, file, b, k);
    if b[k].fileLock.Some? {
      j := b[k].fileLock.value;
      HolderGoesOn(valid, b[k], file, j);
    } else {
      j := i;
    }
  }

  // How many steps a worker has left at most.
  function StepsLeft(s: Stage): nat {
    match s
    case Waiting => 8
    case HasFileLock => 7
    case HasBothLocks => 6
    case Prepared(_) => 5
    case Staged(_, synced) => if synced then 3 else 4
    case Finished(_, _) => 2
    case Stopping => 2
    case MutexReleased(_, _) => 1
    case Done(_, _) => 0
    case Crashed => 0
  }

  // Each step brings its worker nearer to its end and moves no other; so every
  // worker that is let go on is done within eight steps of its own.
  lemma StepsRunOut(valid: Preset -> bool, w: World, step: Step)
    requires Enabled(w, step) && !step.CrashProcess?
    ensures
      var after := Next(valid, w, step);
      && step.w in w.workers && after.workers.Keys == w.workers.Keys
      && StepsLeft(after.workers[step.w].stage) < StepsLeft(w.workers[step.w].stage)
      && forall i :: i in w.workers && i != step.w ==> after.workers[i] == w.workers[i]
  {
    hide Accepts, Writes, Edited;
  }
}
