/**
  What the supervisor gets done when nothing fails: slots are filled while there is room, one makes room for
  another when there is none, and a close ends the process and frees the capacity. And what it does not do.
  */
module SupervisorProgress {
  import opened Results
  import opened Runs
  import opened Supervisor
  import opened SupervisorRuns

  const EMPTY := Slot(None, None, false, None, None, Free)

  /** From `s` the machine comes to `t`, and with one more step to the result. */
  lemma Does(s: State, t: State, step: Step) returns (t': State)
    requires Leads(Supervision(), s, t) && Enabled(t, step)
    ensures Leads(Supervision(), s, t') && t' == Apply(t, step)
  {
    t' := Apply(t, step);
    LeadsOn(Supervision(), s, t, step, t');
  }

  // ---------- Starting ----------

  /** The slot is ready under a new runtime whose process lives. */
  ghost predicate Started(s: State, s': State, k: nat, before: set<nat>) {
    && k < |s'.slots| == |s.slots| && IsReady(s'.slots[k]) && s'.slots[k].activity == Free
    && s'.slots[k].runtime == Some(s.nextRuntime) && s'.living == before + {s.nextRuntime}
  }

  ghost predicate OnlyChanges(s: State, s': State, k: nat) {
    |s'.slots| == |s.slots| && forall j :: 0 <= j < |s.slots| && j != k ==> s'.slots[j] == s.slots[j]
  }

  /** A startup that has its permit publishes a living runtime when nothing fails. */
  lemma StartupPublishes(s: State, t: State, k: nat, generation: nat) returns (t': State)
    requires Leads(Supervision(), s, t) && At(t, k, Starting(CreatesLease)) && !t.closing
    ensures Leads(Supervision(), s, t') && Started(t, t', k, t.living)
    ensures OnlyChanges(t, t', k) && t'.inUse == t.inUse
  {
    t' := Does(s, t, DoCreateLease(k, generation));
    t' := Does(s, t', DoLaunch(k));
    t' := Does(s, t', DoFinishStart(k));
  }

  /** With a permit in the pool and the start lock free, a slot that wants to start comes to be ready. */
  lemma StartGoesThrough(s: State, t: State, k: nat, generation: nat) returns (t': State)
    requires Leads(Supervision(), s, t) && Inv(t) && At(t, k, Starting(WantsStartLock))
    requires t.startLock.None? && t.permits > 0 && !t.closing
    ensures Leads(Supervision(), s, t') && Started(t, t', k, t.living)
    ensures OnlyChanges(t, t', k) && t'.inUse == t.inUse + 1
  {
    assert GoodSlot(t.slots[k]);
    t' := Does(s, t, DoTakeStartLock(k));
    t' := Does(s, t', DoAcquirePermit(k));
    t' := StartupPublishes(s, t', k, generation);
  }

  /** While there is room, an empty slot can be started at once. */
  lemma EmptySlotStarts(s: State, k: nat, generation: nat) returns (s': State)
    requires Inv(s) && Idle(s, k) && !Loaded(s.slots[k])
    requires s.startLock.None? && s.permits > 0 && !s.closing
    ensures Leads(Supervision(), s, s') && Started(s, s', k, s.living)
    ensures OnlyChanges(s, s', k) && s'.inUse == s.inUse + 1
  {
    assert GoodSlot(s.slots[k]);
    LeadsToItself(Supervision(), s);
    s' := Does(s, s, DoEnsure(k, false));
    EnsureKeeps(s, k, false);
    s' := StartGoesThrough(s, s', k, generation);
  }

  // ---------- Closing ----------

  /** The step begins to close the slot's runtime. */
  predicate Begins(s: State, k: nat, step: Step) {
    && Idle(s, k) && Loaded(s.slots[k])
    && match step
       case DoRetire(j, id, generation) => j == k && Matches(s.slots[k], id, generation)
       case DoCloseIdle(j) => j == k && IsReady(s.slots[k])
       case DoCloseForShutdown(j) => j == k && s.closing
       case DoEnsure(j, _) => j == k && !IsReady(s.slots[k]) && !s.closing
       case _ => false
  }

  /** The slot is empty, its process has ended and its permit is there for the next start. */
  ghost predicate Closed(s: State, s': State, k: nat, activity: Activity) {
    && k < |s'.slots| == |s.slots| && s'.slots[k] == EMPTY.(activity := activity)
    && s.slots[k].runtime.Some? && s'.living == s.living - {s.slots[k].runtime.value}
    && s'.inUse == s.inUse - 1 && s'.permits + One(s'.handed) == s.permits + One(s.handed) + 1
    && s'.nextRuntime == s.nextRuntime && s'.startLock == s.startLock && s'.closing == s.closing
  }

  lemma CloseGoesThrough(s: State, k: nat, purpose: Purpose, backoff: bool) returns (s': State)
    requires Inv(s) && Idle(s, k) && Loaded(s.slots[k]) && !purpose.Eviction?
    requires Leads(Supervision(), s, Turn(s, k, Closing(MarksStopping, purpose)))
    ensures Leads(Supervision(), s, s') && OnlyChanges(s, s', k)
    ensures Closed(s, s', k, if purpose == Restart && !backoff then Starting(WantsStartLock) else Free)
  {
    assert GoodSlot(s.slots[k]);
    var activity := if purpose == Restart && !backoff then Starting(WantsStartLock) else Free;
    s' := ProcessStops(s, k, purpose);
    StoppedIsCleared(s, s', k, purpose, activity);
    s' := Does(s, s', DoFinishClose(k, backoff));
  }

  lemma ProcessStops(s: State, k: nat, purpose: Purpose) returns (t: State)
    requires k < |s.slots| && Leads(Supervision(), s, Turn(s, k, Closing(MarksStopping, purpose)))
    requires !purpose.Eviction?
    ensures t == Ended(Turn(s, k, Closing(MarksStopped, purpose)), s.slots[k].runtime) && Leads(Supervision(), s, t)
  {
    t := Turn(s, k, Closing(MarksStopping, purpose));
    t := Does(s, t, DoAdvanceClose(k));
    t := Does(s, t, DoAdvanceClose(k));
  }

  lemma StoppedIsCleared(s: State, t: State, k: nat, purpose: Purpose, activity: Activity)
    requires k < |s.slots| && s.slots[k].reserved && s.slots[k].runtime.Some?
    requires t == Ended(Turn(s, k, Closing(MarksStopped, purpose)), s.slots[k].runtime)
    ensures var s' := Turn(Clear(t, k), k, activity); OnlyChanges(s, s', k) && Closed(s, s', k, activity)
  {
    ClearEffect(t, k, activity);
  }

  /** A retirement, an idle timeout and the shutdown of a loaded slot end its process and free its capacity. */
  lemma CloseEmpties(s: State, k: nat, step: Step) returns (s': State)
    requires Inv(s) && Enabled(s, step) && Begins(s, k, step) && !step.DoEnsure?
    ensures Leads(Supervision(), s, s') && OnlyChanges(s, s', k) && Closed(s, s', k, Free)
  {
    LeadsToItself(Supervision(), s);
    var closing := Does(s, s, step);
    s' := CloseGoesThrough(s, k, closing.slots[k].activity.purpose, false);
  }

  /** A start over a runtime that failed first ends that one, and then puts a new one in its place. */
  lemma FailedRuntimeIsReplaced(s: State, k: nat, generation: nat) returns (s': State)
    requires Inv(s) && Begins(s, k, DoEnsure(k, false)) && s.startLock.None?
    ensures Leads(Supervision(), s, s') && OnlyChanges(s, s', k) && s'.inUse == s.inUse
    ensures Started(s, s', k, s.living - {s.slots[k].runtime.value})
  {
    LeadsToItself(Supervision(), s);
    var closing := Does(s, s, DoEnsure(k, false));
    s' := CloseGoesThrough(s, k, Restart, false);
    ReachesInv(s, s');
    s' := StartGoesThrough(s, s', k, generation);
  }

  lemma ReachesInv(s: State, s': State)
    requires Inv(s) && Leads(Supervision(), s, s')
    ensures Inv(s')
  {
    InvIsInvariant();
    HoldsOnward(Supervision(), s => Inv(s), s, s');
  }

  /** A failure report under the current lease empties the slot, or keeps it as failed when the close failed. */
  lemma ReportTakesEffect(s: State, k: nat, id: nat, generation: nat, closed: bool) returns (s': State)
    requires Inv(s) && Idle(s, k) && Matches(s.slots[k], id, generation)
    ensures Leads(Supervision(), s, s') && OnlyChanges(s, s', k)
    ensures closed ==> Closed(s, s', k, Free)
    ensures !closed ==>
              s'.slots[k] == s.slots[k].(lease := Some(Lease(id, generation, Failed))) && s'.living == s.living
  {
    assert GoodSlot(s.slots[k]);
    LeadsToItself(Supervision(), s);
    s' := Does(s, s, DoReport(k, id, generation));
    ClearEffect(s', k, Free);
    s' := Does(s, s', DoFinishReport(k, closed));
  }

  // ---------- Making room ----------

  /** The victim of slot `k` has stopped its process and is about to be cleared. */
  ghost predicate VictimStopped(s: State, t: State, k: nat, c: nat) {
    && k < |s.slots| && c < |s.slots| && s.slots[c].runtime.Some?
    && t == Ended(Turn(Turn(s, k, Starting(Evicts(c))), c, Closing(MarksStopped, Eviction(k))), s.slots[c].runtime)
  }

  lemma VictimStops(origin: State, s: State, k: nat, c: nat) returns (t: State)
    requires Leads(Supervision(), origin, s) && Inv(s)
    requires At(s, k, Starting(ChoosesVictim)) && Idle(s, c) && IsReady(s.slots[c])
    ensures Leads(Supervision(), origin, t) && VictimStopped(s, t, k, c)
  {
    t := Does(origin, s, DoTryVictim(k, c, false));
    t := Does(origin, t, DoAdvanceClose(c));
    t := Does(origin, t, DoAdvanceClose(c));
  }

  /** The permit of the victim goes to the startup that evicted it. */
  lemma PermitPasses(origin: State, s: State, t: State, k: nat, c: nat) returns (t': State)
    requires Inv(s) && !s.closing && At(s, k, Starting(ChoosesVictim)) && Idle(s, c) && IsReady(s.slots[c])
    requires Leads(Supervision(), origin, t) && VictimStopped(s, t, k, c)
    ensures Leads(Supervision(), origin, t') && At(t', k, Starting(CreatesLease)) && |t'.slots| == |s.slots|
    ensures t'.slots[k].lease.None? && t'.slots[k].reserved && !t'.closing
    ensures t'.slots[c] == EMPTY
    ensures t'.living == s.living - {s.slots[c].runtime.value}
    ensures t'.nextRuntime == s.nextRuntime && t'.inUse == s.inUse
  {
    assert InStart(s.slots[k]) && GoodSlot(s.slots[k]) && GoodSlot(s.slots[c]);
    ClearEffect(t, c, Free);
    t' := Does(origin, t, DoFinishClose(c, false));
    assert t'.permits == s.permits + 1;
    t' := Does(origin, t', DoAcquirePermit(k));
  }

  /**
    A full supervisor can always give a ready slot without live work up for another: the starter becomes
    ready, the victim is empty with its process ended, and the capacity in use is what it was.
    */
  lemma EvictionMakesRoom(s: State, k: nat, c: nat, generation: nat) returns (s': State)
    requires Inv(s) && !s.closing && s.startLock.None? && s.inUse == s.max
    requires Idle(s, k) && !Loaded(s.slots[k]) && Idle(s, c) && IsReady(s.slots[c])
    ensures Leads(Supervision(), s, s') && s'.inUse == s.inUse
    ensures Started(s, s', k, s.living - {s.slots[c].runtime.value}) && s'.slots[c] == EMPTY
  {
    assert GoodSlot(s.slots[k]);
    LeadsToItself(Supervision(), s);
    var t := Does(s, s, DoEnsure(k, false));
    t := Does(s, t, DoTakeStartLock(k));
    ReachesInv(s, t);
    var stopped := VictimStops(s, t, k, c);
    t := PermitPasses(s, t, stopped, k, c);
    s' := StartupPublishes(s, t, k, generation);
  }

  // ---------- What it does not do ----------

  /** Only a ready slot without live work is evicted, and such a slot always is. */
  lemma EvictsExactly(s: State, k: nat, c: nat, liveWork: bool)
    requires Enabled(s, DoTryVictim(k, c, liveWork))
    ensures TryVictim(s, k, c, liveWork) == s <==> !IsReady(s.slots[c]) || liveWork
  {
    assert IsReady(s.slots[c]) && !liveWork ==> TryVictim(s, k, c, liveWork).slots[c].activity.Closing?;
  }

  /** A ready runtime is handed out as it is; after the shutdown has begun nothing is started. */
  lemma EnsureLeavesAlone(s: State, k: nat, backoff: bool)
    requires Idle(s, k) && (s.closing || IsReady(s.slots[k]))
    ensures Ensure(s, k, backoff) == s
  {
  }

  /** The slot is ready for callers, and under another runtime than before. */
  predicate ComesUp(s: State, s': State, k: nat) {
    && k < |s.slots| && k < |s'.slots| && Idle(s', k) && IsReady(s'.slots[k])
    && s'.slots[k].runtime != s.slots[k].runtime
  }

  /** After the shutdown has begun no slot comes to be ready with another runtime than before. */
  lemma NothingComesUp(s: State, step: Step, k: nat)
    requires Inv(s) && Enabled(s, step) && s.closing
    ensures Apply(s, step).closing && !ComesUp(s, Apply(s, step), k)
  {
    if StartStep(step) {
      NothingComesUpInStart(s, step, k);
    } else if LaunchStep(step) {
      NothingComesUpInLaunch(s, step, k);
    } else if step.DoFinishClose? {
      NothingComesUpInClose(s, step.k, step.backoff, k);
    } else {
      NothingComesUpOtherwise(s, step, k);
    }
  }

  lemma NothingComesUpInStart(s: State, step: Step, k: nat)
    requires Inv(s) && Enabled(s, step) && s.closing && StartStep(step)
    ensures Apply(s, step).closing && !ComesUp(s, Apply(s, step), k)
  {
    match step
    case DoTryVictim(j, c, liveWork) => RuntimesStayInEviction(s, j, c, liveWork, k);
    case DoFailStart(j) => RuntimesStayInFailure(s, j, k);
    case DoAcquirePermit(j) => RuntimesStayWithPermit(s, step, j, k);
    case DoResume(j) => RuntimesStayWithPermit(s, step, j, k);
    case _ =>
  }

  lemma RuntimesStayInEviction(s: State, k: nat, c: nat, liveWork: bool, j: nat)
    requires Enabled(s, DoTryVictim(k, c, liveWork))
    ensures TryVictim(s, k, c, liveWork).closing == s.closing && !ComesUp(s, TryVictim(s, k, c, liveWork), j)
  {
  }

  lemma RuntimesStayInFailure(s: State, k: nat, j: nat)
    requires IsStarting(s, k)
    ensures FailStart(s, k).closing == s.closing && !ComesUp(s, FailStart(s, k), j)
  {
  }

  lemma RuntimesStayWithPermit(s: State, step: Step, k: nat, j: nat)
    requires Enabled(s, step) && (step == DoAcquirePermit(k) || step == DoResume(k))
    ensures Apply(s, step).closing == s.closing && !ComesUp(s, Apply(s, step), j)
  {
  }

  lemma NothingComesUpInLaunch(s: State, step: Step, k: nat)
    requires Inv(s) && Enabled(s, step) && s.closing && LaunchStep(step)
    ensures Apply(s, step).closing && !ComesUp(s, Apply(s, step), k)
  {
    if step.DoFinishCleanUp? {
      ClearingBringsNothingUp(s, step.k, Free, k);
    }
  }

  lemma NothingComesUpInClose(s: State, k: nat, backoff: bool, j: nat)
    requires Inv(s) && IsClosing(s, k) && s.closing
    ensures FinishClose(s, k, backoff).closing && !ComesUp(s, FinishClose(s, k, backoff), j)
  {
    var activity := if s.slots[k].activity.purpose == Restart && !backoff then Starting(WantsStartLock) else Free;
    ClearingBringsNothingUp(s, k, activity, j);
  }

  lemma ReportBringsNothingUp(s: State, k: nat, closed: bool, j: nat)
    requires Enabled(s, DoFinishReport(k, closed))
    ensures FinishReport(s, k, closed).closing == s.closing && !ComesUp(s, FinishReport(s, k, closed), j)
  {
    ClearingBringsNothingUp(s, k, Free, j);
  }

  lemma ClearingBringsNothingUp(s: State, k: nat, activity: Activity, j: nat)
    requires k < |s.slots|
    ensures Turn(Clear(s, k), k, activity).closing == s.closing && !ComesUp(s, Turn(Clear(s, k), k, activity), j)
  {
  }

  lemma NothingComesUpOtherwise(s: State, step: Step, k: nat)
    requires Inv(s) && Enabled(s, step) && s.closing
    requires !StartStep(step) && !LaunchStep(step) && !step.DoFinishClose?
    ensures Apply(s, step).closing && !ComesUp(s, Apply(s, step), k)
  {
    if step.DoFinishReport? {
      ReportBringsNothingUp(s, step.k, step.closed, k);
    }
  }

  /** While a refresh is under way, further callers wait for the same task. */
  lemma RefreshesAreShared(s: State, k: nat, runtime: nat, lease: Lease)
    requires Idle(s, k) && s.slots[k].runtime == Some(runtime) && s.slots[k].lease.Some? && s.slots[k].refresh.Some?
    ensures var s' := BeginRefresh(s, k, runtime, lease, false);
            && s'.waiters == s.waiters + [Waiter(k, runtime, lease, s.slots[k].refresh.value)]
            && s'.slots == s.slots
  {
  }
}
