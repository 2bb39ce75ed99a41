/**
  The runtime supervisor: one slot per project, a bounded semaphore that limits the loaded runtimes, and
  the operations that start, close, evict, report and refresh. Each step below is what one task does
  between two awaits. The task that holds a slot's lock is represented by the slot's activity.
  */
module Supervisor {
  import opened Results

  datatype LeaseState = Opening | Ready | Failed

  datatype Lease = Lease(id: nat, generation: nat, state: LeaseState)

  /** A running `list_models` call and the runtime it asks. */
  datatype RefreshTask = RefreshTask(id: nat, of: nat)

  datatype Phase =
    | WantsStartLock
    | ChoosesVictim
    | Evicts(victim: nat)
    | WantsPermit(parked: bool)
    | CreatesLease
    | Launches
    | Probes(runtime: nat)
    | CleansUp(loaded: Option<nat>, closeFailed: bool)

  datatype CloseStage = MarksStopping | StopsRuntime | MarksStopped

  /** Who closes a slot, and so what happens afterwards. */
  datatype Purpose = Restart | Retirement | IdleTimeout | Eviction(starter: nat) | Shutdown

  datatype Activity = Free | Starting(phase: Phase) | Closing(stage: CloseStage, purpose: Purpose) | Reporting

  /** `catalog` is identified with the runtime that it was read from. */
  datatype Slot = Slot(runtime: Option<nat>, lease: Option<Lease>, reserved: bool, catalog: Option<nat>,
                       refresh: Option<RefreshTask>, activity: Activity)

  /** A caller that waits for a refresh task, with the runtime and the lease it started from. */
  datatype Waiter = Waiter(slot: nat, runtime: nat, lease: Lease, task: RefreshTask)

  /**
    `permits` is the value of the semaphore; `handed` says that a release has passed its permit to the
    parked waiter, which has not run yet. `startLock` names the slot whose task holds that lock. `living` is
    not a variable of the supervisor: it holds the runtimes whose process has been launched and not ended.
    */
  datatype State = State(max: nat, slots: seq<Slot>, permits: nat, handed: bool, inUse: int, startLock: Option<nat>,
                         closing: bool, waiters: seq<Waiter>, nextLease: nat, nextRuntime: nat, nextTask: nat,
                         living: set<nat>)

  // ---------- Helpers ----------

  function Put(s: State, k: nat, slot: Slot): State
    requires k < |s.slots|
  {
    s.(slots := s.slots[k := slot])
  }

  function Turn(s: State, k: nat, activity: Activity): State
    requires k < |s.slots|
  {
    Put(s, k, s.slots[k].(activity := activity))
  }

  predicate At(s: State, k: nat, activity: Activity) { k < |s.slots| && s.slots[k].activity == activity }

  predicate Idle(s: State, k: nat) { At(s, k, Free) }

  /** Is there a task waiting for the semaphore? It is the one that holds the start lock. */
  predicate Parked(s: State) { s.startLock.Some? && At(s, s.startLock.value, Starting(WantsPermit(true))) && !s.handed }

  /** Releasing the semaphore: to the parked waiter, or back into the pool. */
  function ReleasePermit(s: State): State { if Parked(s) then s.(handed := true) else s.(permits := s.permits + 1) }

  function ReleaseCapacity(s: State, k: nat): State
    requires k < |s.slots|
  {
    if !s.slots[k].reserved then s
    else ReleasePermit(Put(s, k, s.slots[k].(reserved := false)).(inUse := s.inUse - 1))
  }

  /** Nothing is loaded any more. */
  function Emptied(slot: Slot): Slot { slot.(runtime := None, lease := None, catalog := None, refresh := None) }

  function Clear(s: State, k: nat): State
    requires k < |s.slots|
  {
    ReleaseCapacity(Put(s, k, Emptied(s.slots[k])), k)
  }

  predicate Loaded(slot: Slot) { slot.runtime.Some? && slot.lease.Some? }

  predicate IsReady(slot: Slot) { Loaded(slot) && slot.lease.value.state == Ready }

  predicate Matches(slot: Slot, id: nat, generation: nat) {
    Loaded(slot) && slot.lease.value.id == id && slot.lease.value.generation == generation
  }

  // ---------- Starting a runtime ----------

  /** `ensure` has the slot's lock; `backoff` says that the slot may not restart yet. */
  function Ensure(s: State, k: nat, backoff: bool): State
    requires Idle(s, k)
  {
    var slot := s.slots[k];
    if s.closing || IsReady(slot) then s
    else if Loaded(slot) then Turn(s, k, Closing(MarksStopping, Restart))
    else if slot.runtime.Some? || slot.lease.Some? then s
    else if backoff then s
    else Turn(s, k, Starting(WantsStartLock))
  }

  function TakeStartLock(s: State, k: nat): State
    requires At(s, k, Starting(WantsStartLock))
  {
    if s.startLock.Some? then s
    else Turn(s, k, Starting(if s.inUse >= s.max then ChoosesVictim else WantsPermit(false))).(startLock := Some(k))
  }

  /** Has the lock of slot `c`; evicts it when it is loaded and ready and has no live work. */
  function TryVictim(s: State, k: nat, c: nat, liveWork: bool): State
    requires At(s, k, Starting(ChoosesVictim)) && Idle(s, c)
  {
    if !IsReady(s.slots[c]) || liveWork then s
    else Turn(Turn(s, k, Starting(Evicts(c))), c, Closing(MarksStopping, Eviction(k)))
  }

  /** The permit is there: reserve, or give it back when the supervisor is closing. */
  function TakePermit(s: State, k: nat): State
    requires k < |s.slots|
  {
    if s.closing then
      ReleasePermit(Turn(s, k, Starting(CleansUp(None, false))).(startLock := None))
    else
      Put(s, k, s.slots[k].(reserved := true, activity := Starting(CreatesLease)))
        .(inUse := s.inUse + 1, startLock := None)
  }

  function AcquirePermit(s: State, k: nat): State
    requires At(s, k, Starting(WantsPermit(false)))
  {
    if s.permits > 0 then TakePermit(s.(permits := s.permits - 1), k)
    else Turn(s, k, Starting(WantsPermit(true)))
  }

  /** The parked waiter runs with the permit that a release handed to it. */
  function ResumeWithPermit(s: State, k: nat): State
    requires At(s, k, Starting(WantsPermit(true)))
  {
    if s.handed then TakePermit(s.(handed := false), k) else s
  }

  /** An exception or a cancellation ends a startup; a permit that was already handed over goes back. */
  function FailStart(s: State, k: nat): State
    requires k < |s.slots| && s.slots[k].activity.Starting?
  {
    match s.slots[k].activity.phase
    case Evicts(_) => s
    case CleansUp(_, _) => s
    case Probes(runtime) => Turn(s, k, Starting(CleansUp(Some(runtime), false)))
    case WantsPermit(parked) =>
      var s' := Turn(s, k, Starting(CleansUp(None, false))).(startLock := None);
      if s.handed then ReleasePermit(s'.(handed := false)) else s'
    case ChoosesVictim => Turn(s, k, Starting(CleansUp(None, false))).(startLock := None)
    case _ => Turn(s, k, Starting(CleansUp(None, false)))
  }

  function CreateLease(s: State, k: nat, generation: nat): State
    requires At(s, k, Starting(CreatesLease))
  {
    Put(s, k, s.slots[k].(lease := Some(Lease(s.nextLease, generation, Opening)), activity := Starting(Launches)))
      .(nextLease := s.nextLease + 1)
  }

  function Launch(s: State, k: nat): State
    requires At(s, k, Starting(Launches))
  {
    Turn(s, k, Starting(Probes(s.nextRuntime)))
      .(nextRuntime := s.nextRuntime + 1, living := s.living + {s.nextRuntime})
  }

  /** The runtime passed its checks and is marked ready. */
  function FinishStart(s: State, k: nat): State
    requires k < |s.slots| && s.slots[k].activity.Starting? && s.slots[k].activity.phase.Probes?
    requires s.slots[k].lease.Some?
  {
    var runtime := s.slots[k].activity.phase.runtime;
    Put(s, k, s.slots[k].(runtime := Some(runtime), lease := Some(s.slots[k].lease.value.(state := Ready)),
                          catalog := Some(runtime),
                          activity := if s.closing then Closing(MarksStopping, Shutdown) else Free))
  }

  /** The process of a runtime has ended. */
  function Ended(s: State, runtime: Option<nat>): State {
    if runtime.Some? then s.(living := s.living - {runtime.value}) else s
  }

  /** Closing the runtime of a failed startup. */
  function CleanUp(s: State, k: nat, closed: bool): State
    requires k < |s.slots| && s.slots[k].activity.Starting? && s.slots[k].activity.phase.CleansUp?
  {
    var loaded := s.slots[k].activity.phase.loaded;
    if loaded.None? || s.slots[k].activity.phase.closeFailed then s
    else if closed then Ended(Turn(s, k, Starting(CleansUp(None, false))), loaded)
    else Turn(s, k, Starting(CleansUp(loaded, true)))
  }

  /** The end of a failed startup: a runtime that could not be closed stays in the slot, with its reservation. */
  function FinishCleanUp(s: State, k: nat): State
    requires k < |s.slots| && s.slots[k].activity.Starting? && s.slots[k].activity.phase.CleansUp?
  {
    var phase := s.slots[k].activity.phase;
    if phase.loaded.Some? && !phase.closeFailed then s
    else if phase.loaded.Some? && s.slots[k].lease.Some? then
      var failed := s.slots[k].lease.value.(state := Failed);
      Put(s, k, s.slots[k].(runtime := phase.loaded, lease := Some(failed), activity := Free))
    else Turn(Clear(s, k), k, Free)
  }

  // ---------- Closing a slot ----------

  /** The next await of a close succeeded; `runtime.close()` returns when the process has ended. */
  function AdvanceClose(s: State, k: nat): State
    requires k < |s.slots| && s.slots[k].activity.Closing?
  {
    match s.slots[k].activity
    case Closing(MarksStopping, purpose) => Turn(s, k, Closing(StopsRuntime, purpose))
    case Closing(StopsRuntime, purpose) => Ended(Turn(s, k, Closing(MarksStopped, purpose)), s.slots[k].runtime)
    case Closing(MarksStopped, _) => s
  }

  /** An await of the close raised: the slot keeps everything. An eviction takes its starter down with it. */
  function FailClose(s: State, k: nat): State
    requires k < |s.slots| && s.slots[k].activity.Closing?
    requires s.slots[k].activity.purpose.Eviction? ==> s.slots[k].activity.purpose.starter < |s.slots|
  {
    match s.slots[k].activity.purpose
    case Eviction(starter) => Turn(Turn(s, k, Free), starter, Starting(CleansUp(None, false))).(startLock := None)
    case _ => Turn(s, k, Free)
  }

  function FinishClose(s: State, k: nat, backoff: bool): State
    requires k < |s.slots| && s.slots[k].activity.Closing?
    requires s.slots[k].activity.purpose.Eviction? ==> s.slots[k].activity.purpose.starter < |s.slots|
  {
    if s.slots[k].activity.stage != MarksStopped then s
    else
      match s.slots[k].activity.purpose
      case Eviction(starter) => Turn(Turn(Clear(s, k), k, Free), starter, Starting(WantsPermit(false)))
      case Restart => Turn(Clear(s, k), k, if backoff then Free else Starting(WantsStartLock))
      case _ => Turn(Clear(s, k), k, Free)
  }

  function Retire(s: State, k: nat, id: nat, generation: nat): State
    requires Idle(s, k)
  {
    if Matches(s.slots[k], id, generation) then Turn(s, k, Closing(MarksStopping, Retirement)) else s
  }

  function CloseIdle(s: State, k: nat): State
    requires Idle(s, k)
  {
    if IsReady(s.slots[k]) then Turn(s, k, Closing(MarksStopping, IdleTimeout)) else s
  }

  function CloseForShutdown(s: State, k: nat): State
    requires Idle(s, k)
  {
    if !s.closing then s
    else if s.slots[k].runtime.Some? then Turn(s, k, Closing(MarksStopping, Shutdown))
    else ReleaseCapacity(s, k)
  }

  // ---------- Failure reports ----------

  /** A report for another lease or generation is ignored. */
  function Report(s: State, k: nat, id: nat, generation: nat): State
    requires Idle(s, k)
  {
    if Matches(s.slots[k], id, generation) then Turn(s, k, Reporting) else s
  }

  function AbortReport(s: State, k: nat): State
    requires At(s, k, Reporting)
  {
    Turn(s, k, Free)
  }

  function FinishReport(s: State, k: nat, closed: bool): State
    requires At(s, k, Reporting) && s.slots[k].lease.Some?
  {
    if closed then Ended(Turn(Clear(s, k), k, Free), s.slots[k].runtime)
    else Put(s, k, s.slots[k].(lease := Some(s.slots[k].lease.value.(state := Failed)), activity := Free))
  }

  // ---------- Model catalogs ----------

  /** `done` says that the slot's refresh task, if any, has finished. */
  function BeginRefresh(s: State, k: nat, runtime: nat, lease: Lease, done: bool): State
    requires Idle(s, k)
  {
    var slot := s.slots[k];
    if slot.runtime != Some(runtime) || slot.lease.None? then s
    else
      var task := if slot.refresh.None? || done then RefreshTask(s.nextTask, runtime) else slot.refresh.value;
      Put(s, k, slot.(refresh := Some(task)))
        .(waiters := s.waiters + [Waiter(k, runtime, lease, task)], nextTask := s.nextTask + 1)
  }

  /** A waiter takes the result of its task to the slot, unless the runtime has changed. */
  function FinishRefresh(s: State, i: nat): State
    requires i < |s.waiters| && Idle(s, s.waiters[i].slot)
  {
    var w := s.waiters[i];
    var slot := s.slots[w.slot];
    var s' := s.(waiters := s.waiters[..i] + s.waiters[i + 1..]);
    if slot.runtime != Some(w.runtime) || !Matches(slot, w.lease.id, w.lease.generation) then s'
    else
      Put(s', w.slot, slot.(catalog := Some(w.task.of),
                            refresh := if slot.refresh == Some(w.task) then None else slot.refresh))
  }

  // ---------- All steps ----------

  datatype Step =
    | DoEnsure(k: nat, backoff: bool)
    | DoTakeStartLock(k: nat)
    | DoTryVictim(k: nat, c: nat, liveWork: bool)
    | NoVictim(k: nat)
    | DoAcquirePermit(k: nat)
    | DoResume(k: nat)
    | DoFailStart(k: nat)
    | DoCreateLease(k: nat, generation: nat)
    | DoLaunch(k: nat)
    | DoFinishStart(k: nat)
    | DoCleanUp(k: nat, closed: bool)
    | DoFinishCleanUp(k: nat)
    | DoAdvanceClose(k: nat)
    | DoFailClose(k: nat)
    | DoFinishClose(k: nat, backoff: bool)
    | DoRetire(k: nat, id: nat, generation: nat)
    | DoCloseIdle(k: nat)
    | BeginShutdown
    | DoCloseForShutdown(k: nat)
    | DoReport(k: nat, id: nat, generation: nat)
    | DoAbortReport(k: nat)
    | DoFinishReport(k: nat, closed: bool)
    | DoBeginRefresh(k: nat, runtime: nat, lease: Lease, done: bool)
    | DoFinishRefresh(i: nat)

  predicate IsStarting(s: State, k: nat) { k < |s.slots| && s.slots[k].activity.Starting? }

  predicate IsClosing(s: State, k: nat) {
    && k < |s.slots| && s.slots[k].activity.Closing?
    && (s.slots[k].activity.purpose.Eviction? ==> s.slots[k].activity.purpose.starter < |s.slots|)
  }

  predicate Enabled(s: State, step: Step) {
    match step
    case DoEnsure(k, _) => Idle(s, k)
    case DoTakeStartLock(k) => At(s, k, Starting(WantsStartLock))
    case DoTryVictim(k, c, _) => At(s, k, Starting(ChoosesVictim)) && Idle(s, c)
    case NoVictim(k) => At(s, k, Starting(ChoosesVictim))
    case DoAcquirePermit(k) => At(s, k, Starting(WantsPermit(false)))
    case DoResume(k) => At(s, k, Starting(WantsPermit(true)))
    case DoFailStart(k) => IsStarting(s, k)
    case DoCreateLease(k, _) => At(s, k, Starting(CreatesLease))
    case DoLaunch(k) => At(s, k, Starting(Launches))
    case DoFinishStart(k) => IsStarting(s, k) && s.slots[k].activity.phase.Probes? && s.slots[k].lease.Some?
    case DoCleanUp(k, _) => IsStarting(s, k) && s.slots[k].activity.phase.CleansUp?
    case DoFinishCleanUp(k) => IsStarting(s, k) && s.slots[k].activity.phase.CleansUp?
    case DoAdvanceClose(k) => IsClosing(s, k)
    case DoFailClose(k) => IsClosing(s, k)
    case DoFinishClose(k, _) => IsClosing(s, k)
    case DoRetire(k, _, _) => Idle(s, k)
    case DoCloseIdle(k) => Idle(s, k)
    case BeginShutdown => true
    case DoCloseForShutdown(k) => Idle(s, k)
    case DoReport(k, _, _) => Idle(s, k)
    case DoAbortReport(k) => At(s, k, Reporting)
    case DoFinishReport(k, _) => At(s, k, Reporting) && s.slots[k].lease.Some?
    case DoBeginRefresh(k, _, _, _) => Idle(s, k)
    case DoFinishRefresh(i) => i < |s.waiters| && Idle(s, s.waiters[i].slot)
  }

  function Apply(s: State, step: Step): State
    requires Enabled(s, step)
  {
    match step
    case DoEnsure(k, backoff) => Ensure(s, k, backoff)
    case DoTakeStartLock(k) => TakeStartLock(s, k)
    case DoTryVictim(k, c, liveWork) => TryVictim(s, k, c, liveWork)
    case NoVictim(k) => Turn(s, k, Starting(WantsPermit(false)))
    case DoAcquirePermit(k) => AcquirePermit(s, k)
    case DoResume(k) => ResumeWithPermit(s, k)
    case DoFailStart(k) => FailStart(s, k)
    case DoCreateLease(k, generation) => CreateLease(s, k, generation)
    case DoLaunch(k) => Launch(s, k)
    case DoFinishStart(k) => FinishStart(s, k)
    case DoCleanUp(k, closed) => CleanUp(s, k, closed)
    case DoFinishCleanUp(k) => FinishCleanUp(s, k)
    case DoAdvanceClose(k) => AdvanceClose(s, k)
    case DoFailClose(k) => FailClose(s, k)
    case DoFinishClose(k, backoff) => FinishClose(s, k, backoff)
    case DoRetire(k, id, generation) => Retire(s, k, id, generation)
    case DoCloseIdle(k) => CloseIdle(s, k)
    case BeginShutdown => s.(closing := true)
    case DoCloseForShutdown(k) => CloseForShutdown(s, k)
    case DoReport(k, id, generation) => Report(s, k, id, generation)
    case DoAbortReport(k) => AbortReport(s, k)
    case DoFinishReport(k, closed) => FinishReport(s, k, closed)
    case DoBeginRefresh(k, runtime, lease, done) => BeginRefresh(s, k, runtime, lease, done)
    case DoFinishRefresh(i) => FinishRefresh(s, i)
  }
}
