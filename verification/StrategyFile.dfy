/**
  The stored strategy list on disk: one edit as the backend performs it, and any
  number of edits from threads of several processes under the cross-process file
  lock and the in-process mutex, with a temporary file and an atomic rename.
 */
module StrategyFile {
  import opened Options
  import opened StrategyArray

  // What the path holds. Garbage stands for anything that does not parse to an array.
  datatype File = Absent | Garbage | Stored(items: seq<Preset>)

  datatype Request = Upsert(preset: Preset) | Delete(id: string)

  datatype Outcome = Ok(items: seq<Preset>) | Error

  // Reading succeeds on an absent file and on an array of valid entries.
  predicate Readable(f: File, valid: Preset -> bool) {
    match f
    case Absent => true
    case Garbage => false
    case Stored(items) => forall k :: 0 <= k < |items| ==> valid(items[k])
  }

  function ItemsOf(f: File): seq<Preset> {
    if f.Stored? then f.items else []
  }

  function Edited(items: seq<Preset>, r: Request): seq<Preset> {
    match r
    case Upsert(p) => Upserted(items, p)
    case Delete(id) => Without(items, id)
  }

  // A delete that removes nothing does not write.
  predicate Writes(items: seq<Preset>, r: Request) {
    r.Upsert? || |Edited(items, r)| != |items|
  }

  predicate Accepts(f: File, r: Request, valid: Preset -> bool) {
    Readable(f, valid) && (r.Upsert? ==> valid(r.preset))
  }

  // The file after an accepted request.
  function Effect(f: File, r: Request): File {
    if Writes(ItemsOf(f), r) then Stored(Edited(ItemsOf(f), r)) else f
  }

  // ----- one edit

  class StrategyFile {
    var content: File

    constructor (f: File)
      ensures content == f
    {
      content := f;
    }

    method Upsert(preset: Preset, valid: Preset -> bool) returns (r: Outcome)
      modifies this
      ensures Accepts(old(content), Request.Upsert(preset), valid) ==>
        content == Effect(old(content), Request.Upsert(preset)) && r == Ok(ItemsOf(content))
      ensures !Accepts(old(content), Request.Upsert(preset), valid) ==> content == old(content) && r == Error
    {
      if !Readable(content, valid) || !valid(preset) {
        return Error;
      }
      var items := UpsertInPlace(ItemsOf(content), preset);
      content := Stored(items);
      return Ok(items);
    }

    method Delete(id: string, valid: Preset -> bool) returns (r: Outcome)
      modifies this
      ensures Accepts(old(content), Request.Delete(id), valid) ==>
        content == Effect(old(content), Request.Delete(id)) && r == Ok(Without(ItemsOf(old(content)), id))
      ensures !Accepts(old(content), Request.Delete(id), valid) ==> content == old(content) && r == Error
    {
      if !Readable(content, valid) {
        return Error;
      }
      var before := ItemsOf(content);
      var items := RetainOthers(before, id);
      if |items| != |before| {
        content := Stored(items);
      }
      return Ok(items);
    }
  }

  // A delete that does not write would not change the list either.
  lemma {:induction false} SameLengthMeansSame(items: seq<Preset>, id: string)
    requires |Without(items, id)| == |items|
    ensures Without(items, id) == items
  {
    if items != [] {
      SameLengthMeansSame(items[..|items| - 1], id);
    }
  }

  lemma EffectIsEdit(f: File, r: Request)
    ensures ItemsOf(Effect(f, r)) == Edited(ItemsOf(f), r)
  {
    if r.Delete? && !Writes(ItemsOf(f), r) {
      SameLengthMeansSame(ItemsOf(f), r.id);
    }
  }

  // ----- many workers

  // Where a worker stands. Staged has created its temporary file, and has written
  // and synced it or not; Finished and Stopping still hold the locks.
  datatype Stage =
    | Waiting
    | HasFileLock
    | HasBothLocks
    | Prepared(items: seq<Preset>)
    | Staged(items: seq<Preset>, synced: bool)
    | Finished(result: seq<Preset>, at: nat)
    | Stopping
    | MutexReleased(outcome: Outcome, at: nat)
    | Done(outcome: Outcome, at: nat)
    | Crashed

  datatype Worker = Worker(process: nat, request: Request, stage: Stage)

  // The path, the temporary file of each worker, the two kinds of lock, and the
  // order in which requests took effect.
  datatype World = World(
    file: File,
    temps: map<nat, File>,
    fileLock: Option<nat>,
    mutexes: map<nat, nat>,
    workers: map<nat, Worker>,
    log: seq<nat>)

  datatype Step =
    | TakeFileLock(w: nat)
    | TakeMutex(w: nat)
    | ReadAndEdit(w: nat)
    | CreateTemp(w: nat)
    | SyncTemp(w: nat)
    | FailWrite(w: nat, cleaned: bool)
    | Rename(w: nat)
    | DropMutex(w: nat)
    | DropFileLock(w: nat)
    | CrashProcess(process: nat)

  predicate Holding(s: Stage) {
    !s.Waiting? && !s.Done? && !s.Crashed?
  }

  predicate HoldingMutex(s: Stage) {
    Holding(s) && !s.HasFileLock? && !s.MutexReleased?
  }

  predicate Enabled(w: World, step: Step) {
    match step
    case TakeFileLock(i) => i in w.workers && w.workers[i].stage.Waiting? && w.fileLock.None?
    case TakeMutex(i) =>
      i in w.workers && w.workers[i].stage.HasFileLock? && w.workers[i].process !in w.mutexes
    case ReadAndEdit(i) => i in w.workers && w.workers[i].stage.HasBothLocks?
    case CreateTemp(i) => i in w.workers && w.workers[i].stage.Prepared?
    case SyncTemp(i) => i in w.workers && w.workers[i].stage.Staged? && !w.workers[i].stage.synced
    case FailWrite(i, _) => i in w.workers && (w.workers[i].stage.Prepared? || w.workers[i].stage.Staged?)
    case Rename(i) =>
      i in w.workers && w.workers[i].stage.Staged? && w.workers[i].stage.synced && i in w.temps
    case DropMutex(i) => i in w.workers && (w.workers[i].stage.Finished? || w.workers[i].stage.Stopping?)
    case DropFileLock(i) => i in w.workers && w.workers[i].stage.MutexReleased?
    case CrashProcess(_) => true
  }

  function Moved(w: World, i: nat, stage: Stage): World
    requires i in w.workers
  {
    w.(workers := w.workers[i := w.workers[i].(stage := stage)])
  }

  function Next(valid: Preset -> bool, w: World, step: Step): World
    requires Enabled(w, step)
  {
    match step
    case TakeFileLock(i) => Moved(w, i, HasFileLock).(fileLock := Some(i))
    case TakeMutex(i) => Moved(w, i, HasBothLocks).(mutexes := w.mutexes[w.workers[i].process := i])
    case ReadAndEdit(i) =>
      var r := w.workers[i].request;
      if !Accepts(w.file, r, valid) then Moved(w, i, Stopping)
      else if Writes(ItemsOf(w.file), r) then Moved(w, i, Prepared(Edited(ItemsOf(w.file), r)))
      else Moved(w, i, Finished(Edited(ItemsOf(w.file), r), |w.log|)).(log := w.log + [i])
    case CreateTemp(i) =>
      // Until it is written and synced, the temporary file is no complete array.
      Moved(w, i, Staged(w.workers[i].stage.items, false)).(temps := w.temps[i := Garbage])
    case SyncTemp(i) =>
      var items := w.workers[i].stage.items;
      Moved(w, i, Staged(items, true)).(temps := w.temps[i := Stored(items)])
    case FailWrite(i, cleaned) =>
      // The clean-up of the temporary file may fail as well.
      Moved(w, i, Stopping).(temps := if cleaned then w.temps - {i} else w.temps)
    case Rename(i) =>
      Moved(w, i, Finished(w.workers[i].stage.items, |w.log|))
      .(file := w.temps[i], temps := w.temps - {i}, log := w.log + [i])
    case DropMutex(i) =>
      var s := w.workers[i].stage;
      Moved(w, i, MutexReleased(if s.Finished? then Ok(s.result) else Error, if s.Finished? then s.at else 0))
      .(mutexes := w.mutexes - {w.workers[i].process})
    case DropFileLock(i) =>
      Moved(w, i, Done(w.workers[i].stage.outcome, w.workers[i].stage.at)).(fileLock := None)
    case CrashProcess(p) =>
      // The operating system drops the file lock with the process; its mutex is
      // gone with its memory; its temporary file stays as it is.
      var workers :=
        map i | i in w.workers ::
          if w.workers[i].process == p && !w.workers[i].stage.Done? then w.workers[i].(stage := Crashed)
          else w.workers[i];
      w.(workers := workers,
         mutexes := w.mutexes - {p},
         fileLock := if w.fileLock.Some? && w.fileLock.value in w.workers && w.workers[w.fileLock.value].process == p
                     then None else w.fileLock)
  }

  // A behaviour: the worlds passed through, starting with nobody at work.
  ghost predicate Initial(w: World, file: File) {
    && w.file == file && w.fileLock.None? && w.mutexes == map[] && w.temps == map[] && w.log == []
    && forall i :: i in w.workers ==> w.workers[i].stage.Waiting?
  }

  ghost predicate Behaviour(valid: Preset -> bool, file: File, b: seq<World>) {
    && b != [] && Initial(b[0], file)
    && forall k :: 0 <= k < |b| - 1 ==> StepBetween(valid, b[k], b[k + 1])
  }

  ghost predicate StepBetween(valid: Preset -> bool, w: World, w': World) {
    exists step :: Enabled(w, step) && w' == Next(valid, w, step)
  }

  // The file after the logged requests, one after the other.
  function Replay(file: File, workers: map<nat, Worker>, log: seq<nat>): File {
    if log == [] then file
    else
      var before := Replay(file, workers, log[..|log| - 1]);
      if log[|log| - 1] in workers then Effect(before, workers[log[|log| - 1]].request) else before
  }

  // ----- the invariant

  // The result a worker reports is the list after its own place in the log.
  ghost predicate ResultFrom(w: World, file: File, i: nat, items: seq<Preset>, at: nat) {
    at < |w.log| && w.log[at] == i && items == ItemsOf(Replay(file, w.workers, w.log[..at + 1]))
  }

  ghost predicate WorkerSound(valid: Preset -> bool, w: World, file: File, i: nat)
    requires i in w.workers
  {
    var r := w.workers[i].request;
    match w.workers[i].stage
    case Prepared(items) =>
      && i !in w.log && i !in w.temps && Accepts(w.file, r, valid) && Writes(ItemsOf(w.file), r)
      && items == Edited(ItemsOf(w.file), r)
    case Staged(items, synced) =>
      && i !in w.log && Accepts(w.file, r, valid) && Writes(ItemsOf(w.file), r)
      && items == Edited(ItemsOf(w.file), r)
      && i in w.temps && w.temps[i] == (if synced then Stored(items) else Garbage)
    case Finished(items, at) => ResultFrom(w, file, i, items, at) && i !in w.temps
    case MutexReleased(outcome, at) => OutcomeSound(w, file, i, outcome, at)
    case Done(outcome, at) => OutcomeSound(w, file, i, outcome, at)
    case Crashed => true
    case Stopping => i !in w.log
    case _ => i !in w.log && i !in w.temps
  }

  // A success has its place in the log and leaves no temporary file; a failure
  // has none.
  ghost predicate OutcomeSound(w: World, file: File, i: nat, outcome: Outcome, at: nat) {
    if outcome.Ok? then ResultFrom(w, file, i, outcome.items, at) && i !in w.temps else i !in w.log
  }

  ghost predicate Locked(w: World) {
    FileLocked(w) && MutexesHeld(w)
  }

  ghost predicate FileLocked(w: World) {
    forall i :: i in w.workers && Holding(w.workers[i].stage) ==> w.fileLock == Some(i)
  }

  ghost predicate MutexesHeld(w: World) {
    forall p :: p in w.mutexes ==>
      && w.mutexes[p] in w.workers
      && w.workers[w.mutexes[p]].process == p
      && HoldingMutex(w.workers[w.mutexes[p]].stage)
  }

  ghost predicate Inv(valid: Preset -> bool, w: World, file: File) {
    && Locked(w)
    && w.file == Replay(file, w.workers, w.log)
    && (forall i :: i in w.workers ==> WorkerSound(valid, w, file, i))
    && (forall j, k :: 0 <= j < k < |w.log| ==> w.log[j] != w.log[k])
    && (forall k :: 0 <= k < |w.log| ==> w.log[k] in w.workers)
  }

  // Replay reads the requests only.
  lemma {:induction false} ReplayDependsOnRequests(file: File, a: map<nat, Worker>, b: map<nat, Worker>, log: seq<nat>)
    requires a.Keys == b.Keys && forall i :: i in a ==> a[i].request == b[i].request
    ensures Replay(file, a, log) == Replay(file, b, log)
  {
    hide Effect;
    if log != [] {
      ReplayDependsOnRequests(file, a, b, log[..|log| - 1]);
    }
  }

  lemma ReplayOfMoved(w: World, file: File, i: nat, stage: Stage)
    requires i in w.workers
    ensures forall log :: Replay(file, Moved(w, i, stage).workers, log) == Replay(file, w.workers, log)
  {
    forall log: seq<nat>
      ensures Replay(file, Moved(w, i, stage).workers, log) == Replay(file, w.workers, log)
    {
      ReplayDependsOnRequests(file, Moved(w, i, stage).workers, w.workers, log);
    }
  }

  // The world after worker i commits the given result.
  function Committed(w: World, i: nat, items: seq<Preset>, file: File): World
    requires i in w.workers
  {
    Moved(w, i, Finished(items, |w.log|)).(file := file, temps := w.temps - {i}, log := w.log + [i])
  }

  // Committing appends to the log without touching earlier results.
  lemma CommitKeepsResults(
    w: World, file: File, i: nat, newItems: seq<Preset>, newFile: File, j: nat, items: seq<Preset>, at: nat)
    requires i in w.workers && ResultFrom(w, file, j, items, at)
    ensures ResultFrom(Committed(w, i, newItems, newFile), file, j, items, at)
  {
    ReplayOfMoved(w, file, i, Finished(newItems, |w.log|));
    assert (w.log + [i])[..at + 1] == w.log[..at + 1];
  }

  lemma OnlyHolderWorks(w: World, i: nat, j: nat)
    requires Locked(w) && i in w.workers && j in w.workers && i != j && Holding(w.workers[i].stage)
    ensures !Holding(w.workers[j].stage)
  {
  }

  // A step that changes neither file nor log.
  lemma QuietStepKeepsSoundness(valid: Preset -> bool, w: World, file: File, i: nat, stage: Stage, j: nat)
    requires Inv(valid, w, file) && i in w.workers && j in w.workers && i != j
    ensures
      var after := Moved(w, i, stage);
      forall lock, mutexes, temps ::
        (j in temps <==> j in w.temps) && (j in temps ==> temps[j] == w.temps[j]) ==>
          WorkerSound(valid, after.(fileLock := lock, mutexes := mutexes, temps := temps), file, j)
  {
    hide Accepts, Writes, Edited;
    hide Replay, Locked;
    assert WorkerSound(valid, w, file, j);
    ReplayOfMoved(w, file, i, stage);
  }

  lemma CommitKeepsSoundness(
    valid: Preset -> bool, w: World, file: File, i: nat, items: seq<Preset>, newFile: File, j: nat)
    requires Locked(w) && i in w.workers && Holding(w.workers[i].stage) && j in w.workers && i != j
    requires WorkerSound(valid, w, file, j)
    ensures WorkerSound(valid, Committed(w, i, items, newFile), file, j)
  {
    hide Accepts, Writes, Edited, ResultFrom;
    OnlyHolderWorks(w, i, j);
    var s := w.workers[j].stage;
    if s.Done? && s.outcome.Ok? {
      CommitKeepsResults(w, file, i, items, newFile, j, s.outcome.items, s.at);
    }
  }

  // Both commit steps: a rename, and a delete with nothing to remove.
  lemma CommitKeepsInvariant(valid: Preset -> bool, w: World, file: File, i: nat, newFile: File)
    requires Inv(valid, w, file) && i in w.workers && HoldingMutex(w.workers[i].stage) && i !in w.log
    requires newFile == Effect(w.file, w.workers[i].request)
    ensures Inv(valid, Committed(w, i, Edited(ItemsOf(w.file), w.workers[i].request), newFile), file)
  {
    hide WorkerSound, Edited, Effect;
    var items := Edited(ItemsOf(w.file), w.workers[i].request);
    var after := Committed(w, i, items, newFile);
    CommitReplays(w, file, i, items, newFile);
    forall j | j in after.workers
      ensures WorkerSound(valid, after, file, j)
    {
      if j == i {
        FinishedIsSound(valid, after, file, i, items);
      } else {
        CommitKeepsSoundness(valid, w, file, i, items, newFile, j);
      }
    }
  }

  lemma CommitReplays(w: World, file: File, i: nat, items: seq<Preset>, newFile: File)
    requires i in w.workers && w.file == Replay(file, w.workers, w.log)
    requires newFile == Effect(w.file, w.workers[i].request) && items == Edited(ItemsOf(w.file), w.workers[i].request)
    ensures
      var after := Committed(w, i, items, newFile);
      after.file == Replay(file, after.workers, after.log) && items == ItemsOf(after.file)
  {
    hide Edited, Effect;
    var after := Committed(w, i, items, newFile);
    ReplayOfMoved(w, file, i, Finished(items, |w.log|));
    assert after.log[..|w.log|] == w.log;
    EffectIsEdit(w.file, w.workers[i].request);
  }

  lemma FinishedIsSound(valid: Preset -> bool, w: World, file: File, i: nat, items: seq<Preset>)
    requires i in w.workers && w.log != [] && w.log[|w.log| - 1] == i
    requires w.workers[i].stage == Finished(items, |w.log| - 1)
    requires items == ItemsOf(Replay(file, w.workers, w.log)) && i !in w.temps
    ensures WorkerSound(valid, w, file, i)
  {
    assert w.log[..|w.log|] == w.log;
  }

  lemma CrashKeepsLocked(valid: Preset -> bool, w: World, p: nat)
    requires Locked(w)
    ensures Locked(Next(valid, w, CrashProcess(p)))
  {
    hide Accepts, Writes, Edited;
    var after := Next(valid, w, CrashProcess(p));
    forall i | i in after.workers && Holding(after.workers[i].stage)
      ensures after.fileLock == Some(i)
    {
      assert Holding(w.workers[i].stage);
    }
  }

  lemma CrashKeepsSoundness(valid: Preset -> bool, w: World, file: File, p: nat, i: nat)
    requires i in w.workers && WorkerSound(valid, w, file, i)
    ensures WorkerSound(valid, Next(valid, w, CrashProcess(p)), file, i)
  {
    hide Accepts, Writes, Edited;
    var after := Next(valid, w, CrashProcess(p));
    forall log: seq<nat>
      ensures Replay(file, after.workers, log) == Replay(file, w.workers, log)
    {
      ReplayDependsOnRequests(file, after.workers, w.workers, log);
    }
  }

  lemma CrashKeepsInvariant(valid: Preset -> bool, w: World, file: File, p: nat)
    requires Inv(valid, w, file)
    ensures Inv(valid, Next(valid, w, CrashProcess(p)), file)
  {
    hide WorkerSound, Locked, Accepts, Writes, Edited;
    var after := Next(valid, w, CrashProcess(p));
    CrashKeepsLocked(valid, w, p);
    ReplayDependsOnRequests(file, after.workers, w.workers, w.log);
    forall i | i in after.workers
      ensures WorkerSound(valid, after, file, i)
    {
      CrashKeepsSoundness(valid, w, file, p, i);
    }
  }

  lemma QuietMoveKeepsInvariant(
    valid: Preset -> bool, w: World, file: File, i: nat, stage: Stage, after: World)
    requires Inv(valid, w, file) && i in w.workers
    requires
      after == Moved(w, i, stage).(fileLock := after.fileLock, mutexes := after.mutexes, temps := after.temps)
    requires forall j :: j != i ==> (j in after.temps <==> j in w.temps)
    requires forall j :: j != i && j in w.temps ==> after.temps[j] == w.temps[j]
    requires Locked(after) && WorkerSound(valid, after, file, i)
    ensures Inv(valid, after, file)
  {
    hide WorkerSound, Locked;
    ReplayOfMoved(w, file, i, stage);
    forall j | j in after.workers
      ensures WorkerSound(valid, after, file, j)
    {
      if j != i {
        QuietStepKeepsSoundness(valid, w, file, i, stage, j);
      }
    }
  }

  lemma LockedIs(w: World)
    requires FileLocked(w) && MutexesHeld(w)
    ensures Locked(w)
  {
  }

  lemma StepKeepsFileLock(valid: Preset -> bool, w: World, step: Step)
    requires FileLocked(w) && Enabled(w, step) && !step.CrashProcess?
    ensures FileLocked(Next(valid, w, step))
  {
    hide Accepts, Writes, Edited;
  }

  lemma StepKeepsMutexes(valid: Preset -> bool, w: World, step: Step)
    requires Locked(w) && Enabled(w, step) && !step.CrashProcess?
    ensures MutexesHeld(Next(valid, w, step))
  {
    hide Accepts, Writes, Edited;
    var after := Next(valid, w, step);
    forall p | p in after.mutexes
      ensures after.mutexes[p] in after.workers && after.workers[after.mutexes[p]].process == p
      ensures HoldingMutex(after.workers[after.mutexes[p]].stage)
    {
      if p in w.mutexes {
        assert w.mutexes[p] in w.workers;
      }
    }
  }

  predicate Commits(valid: Preset -> bool, w: World, step: Step)
    requires Enabled(w, step)
  {
    || step.Rename?
    || (step.ReadAndEdit?
        && Accepts(w.file, w.workers[step.w].request, valid)
        && !Writes(ItemsOf(w.file), w.workers[step.w].request))
  }

  // A step that neither commits nor crashes leaves the moving worker sound.
  lemma MoverStaysSound(valid: Preset -> bool, w: World, file: File, step: Step)
    requires Enabled(w, step) && !step.CrashProcess? && !Commits(valid, w, step)
    requires WorkerSound(valid, w, file, step.w)
    ensures WorkerSound(valid, Next(valid, w, step), file, step.w)
    ensures
      var after := Next(valid, w, step);
      && after == Moved(w, step.w, after.workers[step.w].stage)
                  .(fileLock := after.fileLock, mutexes := after.mutexes, temps := after.temps)
      && (forall j :: j != step.w ==> (j in after.temps <==> j in w.temps))
      && (forall j :: j != step.w && j in w.temps ==> after.temps[j] == w.temps[j])
  {
    hide Accepts, Writes, Edited;
    ReplayOfMoved(w, file, step.w, Next(valid, w, step).workers[step.w].stage);
  }

  lemma StepKeepsInvariant(valid: Preset -> bool, w: World, file: File, step: Step)
    requires Inv(valid, w, file) && Enabled(w, step)
    ensures Inv(valid, Next(valid, w, step), file)
  {
    if step.CrashProcess? {
      CrashKeepsInvariant(valid, w, file, step.process);
    } else {
      assert WorkerSound(valid, w, file, step.w);
      if Commits(valid, w, step) {
        CommitStepKeepsInvariant(valid, w, file, step);
      } else {
        hide Next, Inv, Locked, FileLocked, MutexesHeld, WorkerSound;
        assert Locked(w) && FileLocked(w) && Inv(valid, w, file);
        StepKeepsFileLock(valid, w, step);
        StepKeepsMutexes(valid, w, step);
        assert Locked(Next(valid, w, step)) by { LockedIs(Next(valid, w, step)); }
        MoverStaysSound(valid, w, file, step);
        var after := Next(valid, w, step);
        QuietMoveKeepsInvariant(valid, w, file, step.w, after.workers[step.w].stage, after);
      }
    }
  }

  lemma CommitStepKeepsInvariant(valid: Preset -> bool, w: World, file: File, step: Step)
    requires Inv(valid, w, file) && Enabled(w, step) && !step.CrashProcess? && Commits(valid, w, step)
    ensures Inv(valid, Next(valid, w, step), file)
  {
    hide Accepts, Writes, Edited;
    assert WorkerSound(valid, w, file, step.w);
    if step.Rename? {
      CommitKeepsInvariant(valid, w, file, step.w, w.temps[step.w]);
    } else {
      CommitKeepsInvariant(valid, w, file, step.w, w.file);
      assert w.temps - {step.w} == w.temps;
    }
  }

  // ----- main results

  lemma {:induction false} EveryWorldIsSound(valid: Preset -> bool, file: File, b: seq<World>, k: nat)
    requires Behaviour(valid, file, b) && k < |b|
    ensures Inv(valid, b[k], file)
  {
    if k == 0 {
      InitialIsSound(valid, b[0], file);
    } else {
      hide Inv, Enabled, Next;
      EveryWorldIsSound(valid, file, b, k - 1);
      assert StepBetween(valid, b[k - 1], b[k - 1 + 1]);
      var step :| Enabled(b[k - 1], step) && b[k] == Next(valid, b[k - 1], step);
      StepKeepsInvariant(valid, b[k - 1], file, step);
    }
  }

  lemma InitialIsSound(valid: Preset -> bool, w: World, file: File)
    requires Initial(w, file)
    ensures Inv(valid, w, file)
  {
  }

  // The step that led to world k.
  lemma StepBefore(valid: Preset -> bool, file: File, b: seq<World>, k: nat) returns (step: Step)
    requires Behaviour(valid, file, b) && 0 < k < |b|
    ensures Inv(valid, b[k - 1], file) && Enabled(b[k - 1], step) && b[k] == Next(valid, b[k - 1], step)
  {
    hide Inv, Enabled, Next;
    EveryWorldIsSound(valid, file, b, k - 1);
    assert StepBetween(valid, b[k - 1], b[k - 1 + 1]);
    step :| Enabled(b[k - 1], step) && b[k] == Next(valid, b[k - 1], step);
  }

  // At every moment the file is the initial file with the logged requests
  // applied one after the other; every successful caller got the list as it was
  // right after its own request; no failed request took part.
  lemma EditsAreSerial(valid: Preset -> bool, file: File, b: seq<World>, k: nat)
    requires Behaviour(valid, file, b) && k < |b|
    ensures
      var w := b[k];
      && w.file == Replay(file, w.workers, w.log)
      && (forall m, n :: 0 <= m < n < |w.log| ==> w.log[m] != w.log[n])
      && (forall i :: i in w.workers && w.workers[i].stage.Done? ==>
            var s := w.workers[i].stage;
            if s.outcome.Ok? then ResultFrom(w, file, i, s.outcome.items, s.at) else i !in w.log)
  {
    EveryWorldIsSound(valid, file, b, k);
    forall i | i in b[k].workers && b[k].workers[i].stage.Done?
      ensures
        var s := b[k].workers[i].stage;
        if s.outcome.Ok? then ResultFrom(b[k], file, i, s.outcome.items, s.at) else i !in b[k].log
    {
      assert WorkerSound(valid, b[k], file, i);
    }
  }

  // A reader without the lock, at any step and across crashes, sees the complete
  // old list or the complete new one.
  lemma EachStepKeepsOrCommits(valid: Preset -> bool, w: World, file: File, step: Step)
    requires Inv(valid, w, file) && Enabled(w, step)
    ensures
      var after := Next(valid, w, step);
      || (after.file == w.file && after.log == w.log)
      || (&& !step.CrashProcess? && after.log == w.log + [step.w]
          && Accepts(w.file, w.workers[step.w].request, valid)
          && after.file == Effect(w.file, w.workers[step.w].request))
  {
    hide Accepts, Writes, Edited;
    if !step.CrashProcess? {
      assert WorkerSound(valid, w, file, step.w);
    }
  }

  // What is in the log keeps its place.
  lemma {:induction false} LogOnlyGrows(valid: Preset -> bool, file: File, b: seq<World>, j: nat, k: nat)
    requires Behaviour(valid, file, b) && j <= k < |b|
    ensures b[j].log <= b[k].log
  {
    hide Inv, Enabled, Next, Behaviour;
    if j < k {
      LogOnlyGrows(valid, file, b, j, k - 1);
      var step := StepBefore(valid, file, b, k);
      EachStepKeepsOrCommits(valid, b[k - 1], file, step);
    }
  }

  // The serial order respects real time: a request that succeeded before another
  // one started comes before it in every later log.
  lemma FinishedEditsComeFirst(
    valid: Preset -> bool, file: File, b: seq<World>, k: nat, later: nat, i: nat, j: nat, n: nat)
    requires Behaviour(valid, file, b) && k <= later < |b|
    requires i in b[k].workers && b[k].workers[i].stage.Done? && b[k].workers[i].stage.outcome.Ok?
    requires j in b[k].workers && b[k].workers[j].stage.Waiting?
    requires n < |b[later].log| && b[later].log[n] == j
    ensures exists m :: 0 <= m < n && b[later].log[m] == i
  {
    hide Behaviour;
    EveryWorldIsSound(valid, file, b, k);
    assert WorkerSound(valid, b[k], file, i) && WorkerSound(valid, b[k], file, j);
    LogOnlyGrows(valid, file, b, k, later);
    var at := b[k].workers[i].stage.at;
    assert b[later].log[at] == i;
    assert j !in b[k].log;
    assert forall m :: 0 <= m < |b[k].log| ==> b[later].log[m] == b[k].log[m];
  }

  // What a reader without the lock finds at the path at any moment, crashes
  // included: the initial file, or the complete array after the logged requests;
  // never part of a temporary file.
  lemma {:induction false} ReadersSeeCompleteFiles(valid: Preset -> bool, file: File, b: seq<World>, k: nat)
    requires Behaviour(valid, file, b) && k < |b|
    ensures b[k].file == file || b[k].file == Stored(ItemsOf(Replay(file, b[k].workers, b[k].log)))
    ensures Readable(file, valid) ==> Readable(b[k].file, valid)
  {
    hide Inv, Enabled, Next, Behaviour, Effect, Replay, Readable, Accepts;
    if k == 0 {
      BehaviourStarts(valid, file, b);
    } else {
      ReadersSeeCompleteFiles(valid, file, b, k - 1);
      var step := StepBefore(valid, file, b, k);
      StepLeavesCompleteFile(valid, b[k - 1], file, step);
      FileIsReplay(valid, file, b, k);
    }
  }

  lemma StepLeavesCompleteFile(valid: Preset -> bool, w: World, file: File, step: Step)
    requires Inv(valid, w, file) && Enabled(w, step)
    ensures
      var after := Next(valid, w, step).file;
      && (after == w.file || after.Stored?)
      && (Readable(w.file, valid) ==> Readable(after, valid))
  {
    hide Inv, Next, Effect, Accepts, Readable;
    EachStepKeepsOrCommits(valid, w, file, step);
    if !step.CrashProcess? && Accepts(w.file, w.workers[step.w].request, valid) {
      EffectIsCompleteAndReadable(w.file, w.workers[step.w].request, valid);
    }
  }

  lemma BehaviourStarts(valid: Preset -> bool, file: File, b: seq<World>)
    requires Behaviour(valid, file, b)
    ensures b != [] && b[0].file == file
  {
  }

  lemma FileIsReplay(valid: Preset -> bool, file: File, b: seq<World>, k: nat)
    requires Behaviour(valid, file, b) && k < |b|
    ensures b[k].file == Replay(file, b[k].workers, b[k].log)
  {
    hide Replay, Behaviour;
    EveryWorldIsSound(valid, file, b, k);
  }

  lemma EffectIsCompleteAndReadable(f: File, r: Request, valid: Preset -> bool)
    requires Accepts(f, r, valid)
    ensures Effect(f, r) == f || Effect(f, r).Stored?
    ensures Readable(Effect(f, r), valid)
  {
    if r.Delete? && Effect(f, r).Stored? {
      WithoutMembers(ItemsOf(f), r.id);
      forall k | 0 <= k < |Without(ItemsOf(f), r.id)| ensures valid(Without(ItemsOf(f), r.id)[k]) {
        assert Without(ItemsOf(f), r.id)[k] in ItemsOf(f);
      }
    }
  }

  // Temporary files are left behind only by writes that failed or crashed.
  lemma LeftoversAreFailures(valid: Preset -> bool, file: File, b: seq<World>, k: nat, i: nat)
    requires Behaviour(valid, file, b) && k < |b| && i in b[k].workers && i in b[k].temps
    ensures
      var stage := b[k].workers[i].stage;
      || stage.Staged? || stage.Stopping? || stage.Crashed?
      || (stage.MutexReleased? && stage.outcome.Error?)
      || (stage.Done? && stage.outcome.Error?)
  {
    hide Behaviour;
    EveryWorldIsSound(valid, file, b, k);
    assert WorkerSound(valid, b[k], file, i);
  }

  // A file that cannot be read is never overwritten.
  lemma {:induction false} UnreadableFileIsNeverTouched(valid: Preset -> bool, file: File, b: seq<World>, k: nat)
    requires Behaviour(valid, file, b) && k < |b| && !Readable(file, valid)
    ensures b[k].file == file && b[k].log == []
  {
    if k > 0 {
      UnreadableFileIsNeverTouched(valid, file, b, k - 1);
      hide Inv, Enabled, Next;
      var step := StepBefore(valid, file, b, k);
      EachStepKeepsOrCommits(valid, b[k - 1], file, step);
    }
  }

  lemma {:induction false} ReplayKeepsIdsUnique(file: File, workers: map<nat, Worker>, log: seq<nat>)
    requires UniqueIds(ItemsOf(file))
    ensures UniqueIds(ItemsOf(Replay(file, workers, log)))
  {
    hide UniqueIds, Effect;
    if log != [] {
      ReplayKeepsIdsUnique(file, workers, log[..|log| - 1]);
      var before := Replay(file, workers, log[..|log| - 1]);
      if log[|log| - 1] in workers {
        var r := workers[log[|log| - 1]].request;
        EffectIsEdit(before, r);
        match r {
          case Upsert(p) => UpsertKeepsIdsUnique(ItemsOf(before), p);
          case Delete(id) => WithoutKeepsIdsUnique(ItemsOf(before), id);
        }
      }
    }
  }

  // Ids that start unique stay unique under any number of concurrent edits.
  lemma IdsStayUnique(valid: Preset -> bool, file: File, b: seq<World>, k: nat)
    requires Behaviour(valid, file, b) && k < |b| && UniqueIds(ItemsOf(file))
    ensures UniqueIds(ItemsOf(b[k].file))
  {
    EveryWorldIsSound(valid, file, b, k);
    ReplayKeepsIdsUnique(file, b[k].workers, b[k].log);
  }
}
