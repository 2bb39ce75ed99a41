/**
  What every interleaving of the supervisor's steps keeps: the capacity accounts balance, every runtime that
  may be alive has a reservation, caches belong to the loaded runtime, and old leases have no effect.
  */
module SupervisorRuns {
  import opened Results
  import opened Runs
  import opened Supervisor

  // ---------- One slot ----------

  /** A runtime that may be alive: in the slot, or in the hands of the factory or of the task that starts it. */
  predicate MayBeAlive(slot: Slot) {
    || slot.runtime.Some?
    || (slot.activity.Starting? && (slot.activity.phase.Launches? || slot.activity.phase.Probes?))
    || (slot.activity.Starting? && slot.activity.phase.CleansUp? && slot.activity.phase.loaded.Some?)
  }

  /** The cached catalog and the refresh task belong to the loaded runtime. */
  predicate Coherent(slot: Slot) {
    && (slot.catalog.Some? ==> slot.catalog == slot.runtime)
    && (slot.refresh.Some? ==> Some(slot.refresh.value.of) == slot.runtime)
  }

  predicate HoldsStartLock(phase: Phase) { phase.ChoosesVictim? || phase.Evicts? || phase.WantsPermit? }

  predicate GoodPhase(slot: Slot, phase: Phase) {
    && slot.runtime.None?
    && match phase
       case CreatesLease => slot.reserved && slot.lease.None?
       case Launches => slot.reserved && slot.lease.Some?
       case Probes(_) => slot.reserved && slot.lease.Some?
       case CleansUp(loaded, closeFailed) =>
         && (loaded.Some? ==> slot.reserved && slot.lease.Some?)
         && (closeFailed ==> loaded.Some?) && (slot.lease.Some? ==> slot.reserved)
       case _ => !slot.reserved && slot.lease.None?
  }

  predicate GoodSlot(slot: Slot) {
    && Coherent(slot)
    && match slot.activity
       case Free => (slot.runtime.Some? <==> slot.lease.Some?) && (slot.runtime.Some? <==> slot.reserved)
       case Starting(phase) => GoodPhase(slot, phase)
       case _ => slot.runtime.Some? && slot.lease.Some? && slot.reserved
  }

  ghost predicate GoodSlots(s: State) { forall k :: 0 <= k < |s.slots| ==> GoodSlot(s.slots[k]) }

  // ---------- Who holds the start lock ----------

  predicate InStart(slot: Slot) { slot.activity.Starting? && HoldsStartLock(slot.activity.phase) }

  /** The start lock is held by the one task that chooses, evicts or waits for a permit. */
  ghost predicate LockIsHeld(s: State) {
    && (forall k :: 0 <= k < |s.slots| ==> (InStart(s.slots[k]) <==> s.startLock == Some(k)))
    && (s.startLock.Some? ==> s.startLock.value < |s.slots|)
  }

  predicate EvictedBy(slot: Slot, k: int) {
    slot.activity.Closing? && slot.activity.purpose.Eviction? && slot.activity.purpose.starter == k
  }

  predicate Evicting(slot: Slot, c: int) {
    slot.activity.Starting? && slot.activity.phase.Evicts? && slot.activity.phase.victim == c
  }

  /** An eviction and the startup that waits for it know each other. */
  ghost predicate EvictionsArePaired(s: State) {
    && (forall c :: 0 <= c < |s.slots| && s.slots[c].activity.Closing? && s.slots[c].activity.purpose.Eviction? ==>
          && s.slots[c].activity.purpose.starter < |s.slots|
          && Evicting(s.slots[s.slots[c].activity.purpose.starter], c))
    && (forall k :: 0 <= k < |s.slots| && s.slots[k].activity.Starting? && s.slots[k].activity.phase.Evicts? ==>
          && s.slots[k].activity.phase.victim < |s.slots|
          && EvictedBy(s.slots[s.slots[k].activity.phase.victim], k))
  }

  // ---------- Accounts ----------

  function Reserved(slots: seq<Slot>): nat {
    if |slots| == 0 then 0 else Reserved(slots[..|slots| - 1]) + if slots[|slots| - 1].reserved then 1 else 0
  }

  function Alive(slots: seq<Slot>): nat {
    if |slots| == 0 then 0 else Alive(slots[..|slots| - 1]) + if MayBeAlive(slots[|slots| - 1]) then 1 else 0
  }

  ghost predicate Balanced(s: State) {
    && s.permits + (if s.handed then 1 else 0) + s.inUse == s.max
    && s.inUse == Reserved(s.slots)
    && (s.handed ==> s.startLock.Some? && At(s, s.startLock.value, Starting(WantsPermit(true))))
  }

  ghost predicate WaitersAreCoherent(s: State) {
    forall i :: 0 <= i < |s.waiters| ==> s.waiters[i].slot < |s.slots| && s.waiters[i].task.of == s.waiters[i].runtime
  }

  ghost predicate Inv(s: State) {
    GoodSlots(s) && LockIsHeld(s) && EvictionsArePaired(s) && Balanced(s) && WaitersAreCoherent(s)
  }

  // ---------- Counting ----------

  lemma {:induction false} ReservedAfter(slots: seq<Slot>, k: nat, slot: Slot)
    requires k < |slots|
    ensures Reserved(slots[k := slot])
         == Reserved(slots) + (if slot.reserved then 1 else 0) - (if slots[k].reserved then 1 else 0)
  {
    var after := slots[k := slot];
    var n := |slots| - 1;
    if k == n {
      assert after[..n] == slots[..n];
    } else {
      assert after[..n] == slots[..n][k := slot];
      ReservedAfter(slots[..n], k, slot);
    }
  }

  lemma {:induction false} AliveAreReserved(slots: seq<Slot>)
    requires forall k :: 0 <= k < |slots| ==> GoodSlot(slots[k])
    ensures Alive(slots) <= Reserved(slots)
  {
    if |slots| > 0 {
      AliveAreReserved(slots[..|slots| - 1]);
      assert GoodSlot(slots[|slots| - 1]);
    }
  }

  lemma {:induction false} SomeReserved(slots: seq<Slot>, k: nat)
    requires k < |slots| && slots[k].reserved
    ensures Reserved(slots) > 0
  {
    if k < |slots| - 1 {
      SomeReserved(slots[..|slots| - 1], k);
    }
  }

  // ---------- Steps that change one slot ----------

  predicate InEviction(slot: Slot) {
    || (slot.activity.Starting? && slot.activity.phase.Evicts?)
    || (slot.activity.Closing? && slot.activity.purpose.Eviction?)
  }

  function One(b: bool): int { if b then 1 else 0 }

  /** The accounts after a change of one slot. */
  ghost predicate AccountsFollow(s: State, s': State, k: nat)
    requires k < |s.slots| == |s'.slots|
  {
    && s'.max == s.max
    && s'.inUse == s.inUse + One(s'.slots[k].reserved) - One(s.slots[k].reserved)
    && s'.permits + One(s'.handed) + s'.inUse == s.permits + One(s.handed) + s.inUse
    && (s'.handed ==> s'.startLock.Some? && At(s', s'.startLock.value, Starting(WantsPermit(true))))
  }

  lemma OneSlot(s: State, s': State, k: nat)
    requires Inv(s) && k < |s.slots| == |s'.slots| && s'.slots == s.slots[k := s'.slots[k]]
    requires GoodSlot(s'.slots[k]) && !InEviction(s.slots[k]) && !InEviction(s'.slots[k])
    requires s'.startLock == if InStart(s'.slots[k]) then Some(k) else if InStart(s.slots[k]) then None else s.startLock
    requires InStart(s'.slots[k]) && !InStart(s.slots[k]) ==> s.startLock.None?
    requires AccountsFollow(s, s', k) && s'.waiters == s.waiters
    ensures Inv(s')
  {
    ReservedAfter(s.slots, k, s'.slots[k]);
  }

  lemma EnsureKeeps(s: State, k: nat, backoff: bool)
    requires Inv(s) && Idle(s, k)
    ensures Inv(Ensure(s, k, backoff))
  {
    OneSlot(s, Ensure(s, k, backoff), k);
  }

  lemma TakeStartLockKeeps(s: State, k: nat)
    requires Inv(s) && At(s, k, Starting(WantsStartLock))
    ensures Inv(TakeStartLock(s, k))
  {
    if s.startLock.None? {
      OneSlot(s, TakeStartLock(s, k), k);
    }
  }

  lemma NoVictimKeeps(s: State, k: nat)
    requires Inv(s) && At(s, k, Starting(ChoosesVictim))
    ensures Inv(Turn(s, k, Starting(WantsPermit(false))))
  {
    OneSlot(s, Turn(s, k, Starting(WantsPermit(false))), k);
  }

  lemma AcquirePermitKeeps(s: State, k: nat)
    requires Inv(s) && At(s, k, Starting(WantsPermit(false)))
    ensures Inv(AcquirePermit(s, k))
  {
    OneSlot(s, AcquirePermit(s, k), k);
  }

  lemma ResumeKeeps(s: State, k: nat)
    requires Inv(s) && At(s, k, Starting(WantsPermit(true)))
    ensures Inv(ResumeWithPermit(s, k))
  {
    if s.handed {
      OneSlot(s, ResumeWithPermit(s, k), k);
    }
  }

  lemma FailStartKeeps(s: State, k: nat)
    requires Inv(s) && IsStarting(s, k)
    ensures Inv(FailStart(s, k))
  {
    var phase := s.slots[k].activity.phase;
    if phase.WantsPermit? {
      FailWaitKeeps(s, k);
    } else if !phase.Evicts? && !phase.CleansUp? {
      FailPhaseKeeps(s, k);
    }
  }

  lemma FailPhaseKeeps(s: State, k: nat)
    requires Inv(s) && IsStarting(s, k)
    requires !s.slots[k].activity.phase.WantsPermit? && !s.slots[k].activity.phase.Evicts?
    requires !s.slots[k].activity.phase.CleansUp?
    ensures Inv(FailStart(s, k))
  {
    OneSlot(s, FailStart(s, k), k);
  }

  /** Giving up the wait for a permit: one that was already handed over goes back into the pool. */
  lemma FailWaitKeeps(s: State, k: nat)
    requires Inv(s) && IsStarting(s, k) && s.slots[k].activity.phase.WantsPermit?
    ensures Inv(FailStart(s, k))
  {
    var s' := FailStart(s, k);
    assert s.startLock == Some(k);
    assert s'.handed == false && s'.permits == s.permits + One(s.handed);
    OneSlot(s, s', k);
  }

  lemma CreateLeaseKeeps(s: State, k: nat, generation: nat)
    requires Inv(s) && At(s, k, Starting(CreatesLease))
    ensures Inv(CreateLease(s, k, generation))
  {
    OneSlot(s, CreateLease(s, k, generation), k);
  }

  lemma LaunchKeeps(s: State, k: nat)
    requires Inv(s) && At(s, k, Starting(Launches))
    ensures Inv(Launch(s, k))
  {
    OneSlot(s, Launch(s, k), k);
  }

  lemma FinishStartKeeps(s: State, k: nat)
    requires Inv(s) && Enabled(s, DoFinishStart(k))
    ensures Inv(FinishStart(s, k))
  {
    OneSlot(s, FinishStart(s, k), k);
  }

  lemma CleanUpKeeps(s: State, k: nat, closed: bool)
    requires Inv(s) && Enabled(s, DoCleanUp(k, closed))
    ensures Inv(CleanUp(s, k, closed))
  {
    OneSlot(s, CleanUp(s, k, closed), k);
  }

  /** Clearing a slot gives its permit back, to the parked waiter if there is one. */
  lemma ClearEffect(s: State, k: nat, activity: Activity)
    requires k < |s.slots|
    requires s.slots[k].activity != Starting(WantsPermit(true))
    ensures var slot := Emptied(s.slots[k]).(reserved := false, activity := activity);
            var s' := Turn(Clear(s, k), k, activity);
            s' == if !s.slots[k].reserved then Put(s, k, slot)
                  else if Parked(s) then Put(s, k, slot).(inUse := s.inUse - 1, handed := true)
                  else Put(s, k, slot).(inUse := s.inUse - 1, permits := s.permits + 1)
  {
  }

  lemma ClearKeeps(s: State, k: nat, activity: Activity)
    requires Inv(s) && k < |s.slots| && !InEviction(s.slots[k]) && !InStart(s.slots[k])
    requires activity == Free || activity == Starting(WantsStartLock)
    ensures Inv(Turn(Clear(s, k), k, activity))
  {
    ClearEffect(s, k, activity);
    OneSlot(s, Turn(Clear(s, k), k, activity), k);
  }

  lemma FinishCleanUpKeeps(s: State, k: nat)
    requires Inv(s) && Enabled(s, DoFinishCleanUp(k))
    ensures Inv(FinishCleanUp(s, k))
  {
    if s.slots[k].activity.phase.loaded.Some? {
      OneSlot(s, FinishCleanUp(s, k), k);
    } else {
      ClearKeeps(s, k, Free);
    }
  }

  lemma BeginCloseKeeps(s: State, k: nat, purpose: Purpose)
    requires Inv(s) && Idle(s, k) && s.slots[k].runtime.Some? && !purpose.Eviction?
    ensures Inv(Turn(s, k, Closing(MarksStopping, purpose)))
  {
    OneSlot(s, Turn(s, k, Closing(MarksStopping, purpose)), k);
  }

  lemma ReportKeeps(s: State, k: nat, id: nat, generation: nat)
    requires Inv(s) && Idle(s, k)
    ensures Inv(Report(s, k, id, generation))
  {
    OneSlot(s, Report(s, k, id, generation), k);
  }

  lemma AbortReportKeeps(s: State, k: nat)
    requires Inv(s) && At(s, k, Reporting)
    ensures Inv(AbortReport(s, k))
  {
    OneSlot(s, AbortReport(s, k), k);
  }

  lemma FinishReportKeeps(s: State, k: nat, closed: bool)
    requires Inv(s) && Enabled(s, DoFinishReport(k, closed))
    ensures Inv(FinishReport(s, k, closed))
  {
    if closed {
      ClearKeeps(s, k, Free);
    } else {
      OneSlot(s, FinishReport(s, k, closed), k);
    }
  }

  // ---------- Steps of refreshes ----------

  lemma BeginRefreshKeeps(s: State, k: nat, runtime: nat, lease: Lease, done: bool)
    requires Inv(s) && Idle(s, k)
    ensures Inv(BeginRefresh(s, k, runtime, lease, done))
  {
    var s' := BeginRefresh(s, k, runtime, lease, done);
    OneSlot(s, s'.(waiters := s.waiters), k);
  }

  lemma FinishRefreshKeeps(s: State, i: nat)
    requires Inv(s) && Enabled(s, DoFinishRefresh(i))
    ensures Inv(FinishRefresh(s, i))
  {
    var s' := FinishRefresh(s, i);
    var k := s.waiters[i].slot;
    RefreshedSlotIsGood(s, i);
    OneSlot(s, s'.(waiters := s.waiters), k);
  }

  lemma RefreshedSlotIsGood(s: State, i: nat)
    requires Inv(s) && Enabled(s, DoFinishRefresh(i))
    ensures var k, s' := s.waiters[i].slot, FinishRefresh(s, i);
            && s'.slots == s.slots[k := s'.slots[k]] && GoodSlot(s'.slots[k])
            && s'.slots[k].activity == Free && s'.slots[k].reserved == s.slots[k].reserved
            && WaitersAreCoherent(s'.(slots := s.slots))
            && s' == s.(slots := s'.slots, waiters := s'.waiters)
  {
  }

  // ---------- Steps of closes and evictions ----------

  lemma AdvanceCloseKeeps(s: State, k: nat)
    requires Inv(s) && IsClosing(s, k)
    ensures Inv(AdvanceClose(s, k))
  {
    var s' := AdvanceClose(s, k);
    if s.slots[k].activity.purpose.Eviction? {
      AdvanceEvictionKeeps(s, k);
    } else {
      OneSlot(s, s', k);
    }
  }

  lemma AdvanceEvictionKeeps(s: State, k: nat)
    requires Inv(s) && IsClosing(s, k) && s.slots[k].activity.purpose.Eviction?
    ensures Inv(AdvanceClose(s, k))
  {
    var s' := AdvanceClose(s, k);
    ReservedAfter(s.slots, k, s'.slots[k]);
    EvictionGoesOn(s, s', k);
  }

  lemma EvictionGoesOn(s: State, s': State, k: nat)
    requires LockIsHeld(s) && EvictionsArePaired(s) && IsClosing(s, k)
    requires |s'.slots| == |s.slots| && s'.slots == s.slots[k := s'.slots[k]] && s'.startLock == s.startLock
    requires s'.slots[k].activity.Closing? && s'.slots[k].activity.purpose == s.slots[k].activity.purpose
    ensures LockIsHeld(s') && EvictionsArePaired(s')
  {
  }

  lemma TryVictimKeeps(s: State, k: nat, c: nat, liveWork: bool)
    requires Inv(s) && Enabled(s, DoTryVictim(k, c, liveWork))
    ensures Inv(TryVictim(s, k, c, liveWork))
  {
    var s' := TryVictim(s, k, c, liveWork);
    if s' != s {
      var evicting := Turn(s, k, Starting(Evicts(c)));
      ReservedAfter(s.slots, k, evicting.slots[k]);
      ReservedAfter(evicting.slots, c, s'.slots[c]);
      EvictionBegins(s, s', k, c);
    }
  }

  lemma EvictionBegins(s: State, s': State, k: nat, c: nat)
    requires LockIsHeld(s) && EvictionsArePaired(s) && Enabled(s, DoTryVictim(k, c, false))
    requires s'.startLock == s.startLock
    requires s'.slots == s.slots[k := s.slots[k].(activity := Starting(Evicts(c)))]
                                [c := s.slots[c].(activity := Closing(MarksStopping, Eviction(k)))]
    ensures EvictionsArePaired(s') && LockIsHeld(s')
  {
  }

  /** The end of an eviction: the victim is free, and its starter goes on or cleans up. */
  lemma EndEviction(s: State, s': State, k: nat, starter: nat)
    requires Inv(s) && IsClosing(s, k) && s.slots[k].activity.purpose == Eviction(starter)
    requires |s'.slots| == |s.slots| && starter != k
    requires s'.slots == s.slots[k := s'.slots[k]][starter := s'.slots[starter]]
    requires GoodSlot(s'.slots[k]) && s'.slots[k].activity == Free
    requires GoodSlot(s'.slots[starter]) && !InEviction(s'.slots[starter]) && s'.slots[starter].activity.Starting?
    requires s'.slots[starter].reserved == s.slots[starter].reserved
    requires s'.startLock == if InStart(s'.slots[starter]) then Some(starter) else None
    requires AccountsFollow(s, s', k) && !s'.handed && s'.waiters == s.waiters
    ensures Inv(s')
  {
    var middle := s.slots[k := s'.slots[k]];
    ReservedAfter(s.slots, k, s'.slots[k]);
    ReservedAfter(middle, starter, s'.slots[starter]);
    EvictionEnds(s, s', k, starter);
  }

  lemma EvictionEnds(s: State, s': State, k: nat, starter: nat)
    requires LockIsHeld(s) && EvictionsArePaired(s)
    requires IsClosing(s, k) && s.slots[k].activity.purpose == Eviction(starter)
    requires |s'.slots| == |s.slots| && starter != k
    requires s'.slots == s.slots[k := s'.slots[k]][starter := s'.slots[starter]]
    requires s'.slots[k].activity == Free
    requires !InEviction(s'.slots[starter]) && s'.slots[starter].activity.Starting?
    requires s'.startLock == if InStart(s'.slots[starter]) then Some(starter) else None
    ensures EvictionsArePaired(s') && LockIsHeld(s')
  {
    assert Evicting(s.slots[starter], k) && InStart(s.slots[starter]);
  }

  /** A close that fails leaves the slot its runtime, its reservation and the process. */
  lemma FailCloseKeeps(s: State, k: nat)
    requires Inv(s) && IsClosing(s, k)
    ensures Inv(FailClose(s, k))
    ensures var s' := FailClose(s, k);
            && s'.slots[k] == s.slots[k].(activity := Free)
            && s'.living == s.living && s'.inUse == s.inUse && s'.permits == s.permits
  {
    var s' := FailClose(s, k);
    match s.slots[k].activity.purpose
    case Eviction(starter) =>
      assert Evicting(s.slots[starter], k) && InStart(s.slots[starter]);
      EndEviction(s, s', k, starter);
    case _ => OneSlot(s, s', k);
  }

  lemma FinishCloseKeeps(s: State, k: nat, backoff: bool)
    requires Inv(s) && IsClosing(s, k)
    ensures Inv(FinishClose(s, k, backoff))
  {
    if s.slots[k].activity.stage == MarksStopped {
      match s.slots[k].activity.purpose
      case Eviction(starter) => FinishEvictionKeeps(s, k, starter);
      case Restart => ClearKeeps(s, k, if backoff then Free else Starting(WantsStartLock));
      case _ => ClearKeeps(s, k, Free);
    }
  }

  lemma FinishEvictionKeeps(s: State, k: nat, starter: nat)
    requires Inv(s) && IsClosing(s, k) && s.slots[k].activity.purpose == Eviction(starter)
    ensures Inv(Turn(Turn(Clear(s, k), k, Free), starter, Starting(WantsPermit(false))))
  {
    ClearEffect(s, k, Free);
    assert Evicting(s.slots[starter], k) && InStart(s.slots[starter]) && !Parked(s);
    EndEviction(s, Turn(Turn(Clear(s, k), k, Free), starter, Starting(WantsPermit(false))), k, starter);
  }

  // ---------- All steps ----------

  predicate StartStep(step: Step) {
    || step.DoEnsure? || step.DoTakeStartLock? || step.DoTryVictim? || step.NoVictim? || step.DoAcquirePermit?
    || step.DoResume? || step.DoFailStart?
  }

  predicate LaunchStep(step: Step) {
    || step.DoCreateLease? || step.DoLaunch? || step.DoFinishStart? || step.DoCleanUp? || step.DoFinishCleanUp?
  }

  predicate CloseStep(step: Step) {
    step.DoAdvanceClose? || step.DoFailClose? || step.DoCloseForShutdown?
  }

  lemma StartStepKeepsInv(s: State, step: Step)
    requires Inv(s) && Enabled(s, step) && StartStep(step)
    ensures Inv(Apply(s, step))
  {
    match step
    case DoEnsure(k, backoff) => EnsureKeeps(s, k, backoff);
    case DoTakeStartLock(k) => TakeStartLockKeeps(s, k);
    case DoTryVictim(k, c, liveWork) => TryVictimKeeps(s, k, c, liveWork);
    case NoVictim(k) => NoVictimKeeps(s, k);
    case DoAcquirePermit(k) => AcquirePermitKeeps(s, k);
    case DoResume(k) => ResumeKeeps(s, k);
    case DoFailStart(k) => FailStartKeeps(s, k);
  }

  lemma LaunchStepKeepsInv(s: State, step: Step)
    requires Inv(s) && Enabled(s, step) && LaunchStep(step)
    ensures Inv(Apply(s, step))
  {
    match step
    case DoCreateLease(k, generation) => CreateLeaseKeeps(s, k, generation);
    case DoLaunch(k) => LaunchKeeps(s, k);
    case DoFinishStart(k) => FinishStartKeeps(s, k);
    case DoCleanUp(k, closed) => CleanUpKeeps(s, k, closed);
    case DoFinishCleanUp(k) => FinishCleanUpKeeps(s, k);
  }

  lemma CloseStepKeepsInv(s: State, step: Step)
    requires Inv(s) && Enabled(s, step) && (CloseStep(step) || step.DoFinishClose?)
    ensures Inv(Apply(s, step))
  {
    match step
    case DoAdvanceClose(k) => AdvanceCloseKeeps(s, k);
    case DoFailClose(k) => FailCloseKeeps(s, k);
    case DoFinishClose(k, backoff) => FinishCloseKeeps(s, k, backoff);
    case DoCloseForShutdown(k) =>
      if s.closing && s.slots[k].runtime.Some? { BeginCloseKeeps(s, k, Shutdown); }
  }

  lemma OtherStepKeepsInv(s: State, step: Step)
    requires Inv(s) && Enabled(s, step)
    requires !StartStep(step) && !LaunchStep(step) && !CloseStep(step) && !step.DoFinishClose?
    ensures Inv(Apply(s, step))
  {
    match step
    case DoRetire(k, id, generation) => if Matches(s.slots[k], id, generation) { BeginCloseKeeps(s, k, Retirement); }
    case DoCloseIdle(k) => if IsReady(s.slots[k]) { BeginCloseKeeps(s, k, IdleTimeout); }
    case BeginShutdown =>
    case DoReport(k, id, generation) => ReportKeeps(s, k, id, generation);
    case DoAbortReport(k) => AbortReportKeeps(s, k);
    case DoFinishReport(k, closed) => FinishReportKeeps(s, k, closed);
    case DoBeginRefresh(k, runtime, lease, done) => BeginRefreshKeeps(s, k, runtime, lease, done);
    case DoFinishRefresh(i) => FinishRefreshKeeps(s, i);
  }

  lemma StepKeepsInv(s: State, step: Step)
    requires Inv(s) && Enabled(s, step)
    ensures Inv(Apply(s, step))
  {
    if StartStep(step) {
      StartStepKeepsInv(s, step);
    } else if LaunchStep(step) {
      LaunchStepKeepsInv(s, step);
    } else if CloseStep(step) || step.DoFinishClose? {
      CloseStepKeepsInv(s, step);
    } else {
      OtherStepKeepsInv(s, step);
    }
  }

  // ---------- Processes ----------

  /** The runtime that a slot answers for. */
  function Holds(slot: Slot): Option<nat> {
    if slot.runtime.Some? then slot.runtime
    else if !slot.activity.Starting? then None
    else
      match slot.activity.phase
      case Probes(runtime) => Some(runtime)
      case CleansUp(loaded, _) => loaded
      case _ => None
  }

  predicate HasStopped(slot: Slot) { slot.activity.Closing? && slot.activity.stage == MarksStopped }

  predicate SlotTracks(slot: Slot, living: set<nat>, next: nat) {
    && (Holds(slot).Some? ==> Holds(slot).value < next)
    && (HasStopped(slot) && slot.runtime.Some? ==> slot.runtime.value !in living)
  }

  ghost predicate HeldBySlot(slots: seq<Slot>, runtime: nat) {
    exists k :: 0 <= k < |slots| && Holds(slots[k]) == Some(runtime)
  }

  /** Every living process belongs to the runtime of some slot, and a slot past the stop has no living process. */
  ghost predicate Tracks(slots: seq<Slot>, living: set<nat>, next: nat) {
    && (forall k :: 0 <= k < |slots| ==> SlotTracks(slots[k], living, next))
    && (forall r :: r in living ==> r < next && HeldBySlot(slots, r))
  }

  ghost predicate Tracked(s: State) { Tracks(s.slots, s.living, s.nextRuntime) }

  /** A change of one slot after which every living process is still held. */
  lemma SlotChange(slots: seq<Slot>, living: set<nat>, next: nat, k: nat, slot: Slot, living': set<nat>, next': nat)
    requires Tracks(slots, living, next) && k < |slots| && next <= next'
    requires SlotTracks(slot, living', next')
    requires forall r :: r in living' ==> r in living || next <= r < next'
    requires forall r :: r in living' ==> Holds(slot) == Some(r) || (r in living && Holds(slots[k]) != Some(r))
    ensures Tracks(slots[k := slot], living', next')
  {
    var slots' := slots[k := slot];
    forall j | 0 <= j < |slots'| ensures SlotTracks(slots'[j], living', next') {
      assert j != k ==> SlotTracks(slots[j], living, next);
    }
    forall r | r in living' ensures r < next' && HeldBySlot(slots', r) {
      if Holds(slot) == Some(r) {
        assert Holds(slots'[k]) == Some(r);
      } else {
        var j :| 0 <= j < |slots| && Holds(slots[j]) == Some(r);
        assert Holds(slots'[j]) == Some(r);
      }
    }
  }

  ghost predicate HoldsStay(slots: seq<Slot>, slots': seq<Slot>) {
    && |slots'| == |slots|
    && forall k :: 0 <= k < |slots| ==>
         Holds(slots'[k]) == Holds(slots[k]) && (HasStopped(slots'[k]) ==> slots'[k] == slots[k])
  }

  /** Most steps leave every runtime where it is. */
  lemma StaysTracked(s: State, s': State)
    requires Tracked(s) && HoldsStay(s.slots, s'.slots) && s'.living == s.living && s'.nextRuntime == s.nextRuntime
    ensures Tracked(s')
  {
    forall k | 0 <= k < |s'.slots| ensures SlotTracks(s'.slots[k], s'.living, s'.nextRuntime) {
      assert SlotTracks(s.slots[k], s.living, s.nextRuntime);
    }
    forall r | r in s'.living ensures HeldBySlot(s'.slots, r) {
      var k :| 0 <= k < |s.slots| && Holds(s.slots[k]) == Some(r);
      assert Holds(s'.slots[k]) == Some(r);
    }
  }

  lemma OneSlotStays(s: State, s': State, k: nat)
    requires Tracked(s) && k < |s.slots| == |s'.slots| && s'.slots == s.slots[k := s'.slots[k]]
    requires s'.slots[k] == s.slots[k] || (Holds(s'.slots[k]) == Holds(s.slots[k]) && !HasStopped(s'.slots[k]))
    requires s'.living == s.living && s'.nextRuntime == s.nextRuntime
    ensures Tracked(s')
  {
    StaysTracked(s, s');
  }

  lemma AcquirePermitTracks(s: State, k: nat)
    requires Inv(s) && Tracked(s) && At(s, k, Starting(WantsPermit(false)))
    ensures Tracked(AcquirePermit(s, k))
  {
    OneSlotStays(s, AcquirePermit(s, k), k);
  }

  lemma ResumeTracks(s: State, k: nat)
    requires Inv(s) && Tracked(s) && At(s, k, Starting(WantsPermit(true)))
    ensures Tracked(ResumeWithPermit(s, k))
  {
    OneSlotStays(s, ResumeWithPermit(s, k), k);
  }

  lemma FailStartTracks(s: State, k: nat)
    requires Inv(s) && Tracked(s) && IsStarting(s, k)
    ensures Tracked(FailStart(s, k))
  {
    if s.slots[k].activity.phase.WantsPermit? {
      FailWaitTracks(s, k);
    } else {
      OneSlotStays(s, FailStart(s, k), k);
    }
  }

  lemma FailWaitTracks(s: State, k: nat)
    requires Inv(s) && Tracked(s) && IsStarting(s, k) && s.slots[k].activity.phase.WantsPermit?
    ensures Tracked(FailStart(s, k))
  {
    OneSlotStays(s, FailStart(s, k), k);
  }

  lemma TryVictimTracks(s: State, k: nat, c: nat, liveWork: bool)
    requires Inv(s) && Tracked(s) && Enabled(s, DoTryVictim(k, c, liveWork))
    ensures Tracked(TryVictim(s, k, c, liveWork))
  {
    StaysTracked(s, TryVictim(s, k, c, liveWork));
  }

  lemma StartStepTracks(s: State, step: Step)
    requires Inv(s) && Tracked(s) && Enabled(s, step) && StartStep(step)
    ensures Tracked(Apply(s, step))
  {
    match step
    case DoTryVictim(k, c, liveWork) => TryVictimTracks(s, k, c, liveWork);
    case DoAcquirePermit(k) => AcquirePermitTracks(s, k);
    case DoResume(k) => ResumeTracks(s, k);
    case DoFailStart(k) => FailStartTracks(s, k);
    case DoEnsure(k, backoff) => OneSlotStays(s, Ensure(s, k, backoff), k);
    case DoTakeStartLock(k) => OneSlotStays(s, TakeStartLock(s, k), k);
    case NoVictim(k) => OneSlotStays(s, Apply(s, step), k);
  }

  lemma LaunchStepTracks(s: State, step: Step)
    requires Inv(s) && Tracked(s) && Enabled(s, step) && LaunchStep(step)
    ensures Tracked(Apply(s, step))
  {
    assert GoodSlot(s.slots[step.k]);
    match step
    case DoLaunch(k) => LaunchTracks(s, k);
    case DoCleanUp(k, closed) => CleanUpTracks(s, k, closed);
    case DoCreateLease(k, generation) => OneSlotStays(s, CreateLease(s, k, generation), k);
    case DoFinishStart(k) => OneSlotStays(s, FinishStart(s, k), k);
    case DoFinishCleanUp(k) =>
      if s.slots[k].activity.phase.loaded.None? {
        ClearEffect(s, k, Free);
      }
      OneSlotStays(s, FinishCleanUp(s, k), k);
  }

  lemma LaunchTracks(s: State, k: nat)
    requires Inv(s) && Tracked(s) && At(s, k, Starting(Launches))
    ensures Tracked(Launch(s, k))
  {
    var s' := Launch(s, k);
    assert GoodSlot(s.slots[k]);
    SlotChange(s.slots, s.living, s.nextRuntime, k, s'.slots[k], s'.living, s'.nextRuntime);
  }

  lemma CleanUpTracks(s: State, k: nat, closed: bool)
    requires Inv(s) && Tracked(s) && Enabled(s, DoCleanUp(k, closed))
    ensures Tracked(CleanUp(s, k, closed))
  {
    var s' := CleanUp(s, k, closed);
    assert GoodSlot(s.slots[k]);
    SlotChange(s.slots, s.living, s.nextRuntime, k, s'.slots[k], s'.living, s'.nextRuntime);
    assert s'.slots == s.slots[k := s'.slots[k]];
  }

  /** A slot may be cleared once its process has ended. */
  lemma ClearTracks(s: State, k: nat, activity: Activity)
    requires Inv(s) && Tracked(s) && k < |s.slots| && !InStart(s.slots[k])
    requires s.slots[k].runtime.Some? && s.slots[k].runtime.value !in s.living
    requires activity == Free || activity == Starting(WantsStartLock)
    ensures Tracked(Turn(Clear(s, k), k, activity))
  {
    var s' := Turn(Clear(s, k), k, activity);
    ClearEffect(s, k, activity);
    SlotChange(s.slots, s.living, s.nextRuntime, k, s'.slots[k], s.living, s.nextRuntime);
    assert s'.slots == s.slots[k := s'.slots[k]];
  }

  lemma AdvanceCloseTracks(s: State, k: nat)
    requires Inv(s) && Tracked(s) && IsClosing(s, k)
    ensures Tracked(AdvanceClose(s, k))
  {
    var s' := AdvanceClose(s, k);
    SlotChange(s.slots, s.living, s.nextRuntime, k, s'.slots[k], s'.living, s'.nextRuntime);
    assert s'.slots == s.slots[k := s'.slots[k]];
  }

  lemma FinishCloseTracks(s: State, k: nat, backoff: bool)
    requires Inv(s) && Tracked(s) && IsClosing(s, k)
    ensures Tracked(FinishClose(s, k, backoff))
  {
    if s.slots[k].activity.stage == MarksStopped {
      assert GoodSlot(s.slots[k]) && SlotTracks(s.slots[k], s.living, s.nextRuntime);
      match s.slots[k].activity.purpose
      case Eviction(starter) =>
        ClearTracks(s, k, Free);
        assert Evicting(s.slots[starter], k);
        StaysTracked(Turn(Clear(s, k), k, Free), FinishClose(s, k, backoff));
      case Restart => ClearTracks(s, k, if backoff then Free else Starting(WantsStartLock));
      case _ => ClearTracks(s, k, Free);
    }
  }

  lemma FailCloseTracks(s: State, k: nat)
    requires Inv(s) && Tracked(s) && IsClosing(s, k)
    ensures Tracked(FailClose(s, k))
  {
    if s.slots[k].activity.purpose.Eviction? {
      assert Evicting(s.slots[s.slots[k].activity.purpose.starter], k);
    }
    StaysTracked(s, FailClose(s, k));
  }

  lemma FinishReportTracks(s: State, k: nat, closed: bool)
    requires Inv(s) && Tracked(s) && Enabled(s, DoFinishReport(k, closed))
    ensures Tracked(FinishReport(s, k, closed))
  {
    if closed {
      var s' := FinishReport(s, k, true);
      ClearEffect(s, k, Free);
      SlotChange(s.slots, s.living, s.nextRuntime, k, s'.slots[k], s'.living, s'.nextRuntime);
      assert s'.slots == s.slots[k := s'.slots[k]];
    } else {
      StaysTracked(s, FinishReport(s, k, false));
    }
  }

  lemma OtherStepTracks(s: State, step: Step)
    requires Inv(s) && Tracked(s) && Enabled(s, step)
    requires !StartStep(step) && !LaunchStep(step)
    requires !step.DoAdvanceClose? && !step.DoFinishClose? && !step.DoFailClose? && !step.DoFinishReport?
    ensures Tracked(Apply(s, step))
  {
    StaysTracked(s, Apply(s, step));
  }

  lemma StepTracks(s: State, step: Step)
    requires Inv(s) && Tracked(s) && Enabled(s, step)
    ensures Tracked(Apply(s, step))
  {
    if StartStep(step) {
      StartStepTracks(s, step);
    } else if LaunchStep(step) {
      LaunchStepTracks(s, step);
    } else {
      match step
      case DoAdvanceClose(k) => AdvanceCloseTracks(s, k);
      case DoFailClose(k) => FailCloseTracks(s, k);
      case DoFinishClose(k, backoff) => FinishCloseTracks(s, k, backoff);
      case DoFinishReport(k, closed) => FinishReportTracks(s, k, closed);
      case _ => OtherStepTracks(s, step);
    }
  }

  /** The runtime whose `close()` returns in a step, if any. */
  function Closes(s: State, step: Step): Option<nat>
    requires Enabled(s, step)
  {
    match step
    case DoAdvanceClose(k) => if s.slots[k].activity.stage == StopsRuntime then s.slots[k].runtime else None
    case DoFinishReport(k, closed) => if closed then s.slots[k].runtime else None
    case DoCleanUp(k, closed) =>
      if closed && !s.slots[k].activity.phase.closeFailed then s.slots[k].activity.phase.loaded else None
    case _ => None
  }

  /** Processes begin with a launch and end only where their `close()` returns. */
  lemma ProcessesFollow(s: State, step: Step)
    requires Inv(s) && Enabled(s, step)
    ensures forall r :: r in Apply(s, step).living <==>
              (r in s.living && Closes(s, step) != Some(r)) || (step.DoLaunch? && r == s.nextRuntime)
  {
    if StartStep(step) {
      NoneEndsInStart(s, step);
    } else if step.DoFinishClose? {
      NoneEndsInFinishClose(s, step.k, step.backoff);
    } else if step.DoFinishReport? {
      NoneEndsInClear(s, step.k, Free);
    } else if step.DoFinishCleanUp? {
      NoneEndsInClear(s, step.k, Free);
    } else if !LaunchStep(step) && !step.DoAdvanceClose? {
      NoneEndsOtherwise(s, step);
    }
  }

  lemma NoneEndsInClear(s: State, k: nat, activity: Activity)
    requires k < |s.slots|
    ensures Turn(Clear(s, k), k, activity).living == s.living
  {
  }

  lemma NoneEndsInFinishClose(s: State, k: nat, backoff: bool)
    requires IsClosing(s, k)
    ensures FinishClose(s, k, backoff).living == s.living
  {
  }

  lemma NoneEndsInStart(s: State, step: Step)
    requires Enabled(s, step) && StartStep(step)
    ensures Apply(s, step).living == s.living
  {
  }

  lemma NoneEndsOtherwise(s: State, step: Step)
    requires Enabled(s, step) && !StartStep(step) && !LaunchStep(step)
    requires !step.DoAdvanceClose? && !step.DoFinishClose? && !step.DoFinishReport?
    ensures Apply(s, step).living == s.living
  {
  }

  function HeldRuntimes(slots: seq<Slot>): set<nat> {
    if |slots| == 0 then {}
    else
      HeldRuntimes(slots[..|slots| - 1])
      + match Holds(slots[|slots| - 1]) case Some(runtime) => {runtime} case None => {}
  }

  lemma {:induction false} HeldAreReserved(slots: seq<Slot>)
    requires forall k :: 0 <= k < |slots| ==> GoodSlot(slots[k])
    ensures |HeldRuntimes(slots)| <= Reserved(slots)
    ensures forall r :: HeldBySlot(slots, r) ==> r in HeldRuntimes(slots)
  {
    if |slots| > 0 {
      var prefix, last := slots[..|slots| - 1], slots[|slots| - 1];
      HeldAreReserved(prefix);
      assert GoodSlot(last);
      forall r | HeldBySlot(slots, r) ensures r in HeldRuntimes(slots) {
        var k :| 0 <= k < |slots| && Holds(slots[k]) == Some(r);
        if k < |prefix| {
          assert Holds(prefix[k]) == Some(r);
        }
      }
    }
  }

  lemma {:induction false} SmallerSet(a: set<nat>, b: set<nat>)
    requires a <= b
    ensures |a| <= |b|
  {
    if a != {} {
      var x :| x in a;
      SmallerSet(a - {x}, b - {x});
    }
  }

  // ---------- Runs ----------

  ghost predicate Initial(s: State) {
    && s.permits == s.max && !s.handed && s.inUse == 0 && s.startLock.None? && s.waiters == [] && s.living == {}
    && forall k :: 0 <= k < |s.slots| ==> s.slots[k] == Slot(None, None, false, None, None, Free)
  }

  ghost function Supervision(): Machine<State, Step> {
    Machine(s => Initial(s), (s, step, s') => Enabled(s, step) && s' == Apply(s, step))
  }

  lemma {:induction false} NoneReserved(slots: seq<Slot>)
    requires forall k :: 0 <= k < |slots| ==> !slots[k].reserved
    ensures Reserved(slots) == 0
  {
    if |slots| > 0 {
      NoneReserved(slots[..|slots| - 1]);
    }
  }

  lemma InvIsInvariant()
    ensures Invariant(Supervision(), s => Inv(s))
  {
    forall s | Supervision().initial(s) ensures Inv(s) {
      NoneReserved(s.slots);
    }
    forall s, step, s' | Inv(s) && Supervision().next(s, step, s') ensures Inv(s') {
      StepKeepsInv(s, step);
    }
  }

  lemma Reachable(states: seq<State>, steps: seq<Step>, i: nat)
    requires Run(Supervision(), states, steps) && i < |states|
    ensures Inv(states[i])
  {
    InvIsInvariant();
    HoldsAlways(Supervision(), s => Inv(s), states, steps, i);
  }

  lemma TrackedReachable(states: seq<State>, steps: seq<Step>, i: nat)
    requires Run(Supervision(), states, steps) && i < |states|
    ensures Inv(states[i]) && Tracked(states[i])
  {
    InvIsInvariant();
    forall s, step, s' | Inv(s) && Tracked(s) && Supervision().next(s, step, s') ensures Inv(s') && Tracked(s') {
      StepKeepsInv(s, step);
      StepTracks(s, step);
    }
    HoldsAlways(Supervision(), s => Inv(s) && Tracked(s), states, steps, i);
  }

  /** A reserved slot answers for the runtime. */
  ghost predicate HeldUnderReservation(slots: seq<Slot>, runtime: nat) {
    exists k :: 0 <= k < |slots| && Holds(slots[k]) == Some(runtime) && slots[k].reserved
  }

  /**
    In every reachable state: the permits in the pool or handed over and the capacity in use add up to the
    limit; the capacity in use is the number of reservations; a slot whose runtime may be alive has one, and
    every process that was launched and has not ended belongs to such a slot. So at most `max` processes
    live, and no release takes the semaphore past its bound.
    */
  lemma CapacityIsRespected(states: seq<State>, steps: seq<Step>, i: nat)
    requires Run(Supervision(), states, steps) && i < |states|
    ensures var s := states[i];
            && s.permits + One(s.handed) + s.inUse == s.max
            && s.inUse == Reserved(s.slots)
            && (forall k :: 0 <= k < |s.slots| && MayBeAlive(s.slots[k]) ==> s.slots[k].reserved)
            && (forall r :: r in s.living ==> HeldUnderReservation(s.slots, r))
            && |s.living| <= s.inUse && Alive(s.slots) <= s.inUse <= s.max
            && 0 <= s.permits <= s.max
  {
    TrackedReachable(states, steps, i);
    AliveAreReserved(states[i].slots);
    HeldAreReserved(states[i].slots);
    SmallerSet(states[i].living, HeldRuntimes(states[i].slots));
    forall r | r in states[i].living ensures HeldUnderReservation(states[i].slots, r) {
      var k :| 0 <= k < |states[i].slots| && Holds(states[i].slots[k]) == Some(r);
      assert GoodSlot(states[i].slots[k]);
    }
    forall k | 0 <= k < |states[i].slots| && MayBeAlive(states[i].slots[k])
      ensures states[i].slots[k].reserved
    {
      assert GoodSlot(states[i].slots[k]);
    }
  }

  /** In every reachable state a cached catalog and a pending refresh belong to the loaded runtime. */
  lemma CachesAreCoherent(states: seq<State>, steps: seq<Step>, i: nat, k: nat)
    requires Run(Supervision(), states, steps) && i < |states| && k < |states[i].slots|
    ensures var slot := states[i].slots[k];
            && (slot.catalog.Some? ==> slot.catalog == slot.runtime)
            && (slot.refresh.Some? ==> Some(slot.refresh.value.of) == slot.runtime)
            && (slot.activity == Free ==> (slot.runtime.Some? <==> slot.lease.Some?))
  {
    Reachable(states, steps, i);
    assert GoodSlot(states[i].slots[k]);
  }

  // ---------- Old leases ----------

  predicate HasLease(slot: Slot, id: int) { slot.lease.Some? && slot.lease.value.id == id }

  /** A lease that is in a slot was there before or is new. */
  ghost predicate LeaseFollows(s: State, s': State, k: nat) {
    k < |s.slots| == |s'.slots| &&
    forall id :: HasLease(s'.slots[k], id) ==> HasLease(s.slots[k], id) || s.nextLease == id < s'.nextLease
  }

  ghost predicate LeasesFollow(s: State, s': State) {
    && |s.slots| == |s'.slots| && s.nextLease <= s'.nextLease && s'.max == s.max
    && forall k :: 0 <= k < |s.slots| ==> LeaseFollows(s, s', k)
  }

  lemma LeasesInStart(s: State, step: Step)
    requires Enabled(s, step) && StartStep(step)
    ensures LeasesFollow(s, Apply(s, step))
  {
    if step.DoTryVictim? {
      LeasesInTryVictim(s, step.k, step.c, step.liveWork);
    } else if step.DoFailStart? {
      LeasesInFailStart(s, step.k);
    }
  }

  lemma LeasesInTryVictim(s: State, k: nat, c: nat, liveWork: bool)
    requires Enabled(s, DoTryVictim(k, c, liveWork))
    ensures LeasesFollow(s, TryVictim(s, k, c, liveWork))
  {
  }

  lemma LeasesInFailStart(s: State, k: nat)
    requires IsStarting(s, k)
    ensures LeasesFollow(s, FailStart(s, k))
  {
  }

  lemma LeasesInLaunch(s: State, step: Step)
    requires Enabled(s, step) && LaunchStep(step)
    ensures LeasesFollow(s, Apply(s, step))
  {
  }

  lemma LeasesInClose(s: State, step: Step)
    requires Enabled(s, step) && CloseStep(step)
    ensures LeasesFollow(s, Apply(s, step))
  {
  }

  lemma LeasesInFinish(s: State, k: nat, backoff: bool)
    requires IsClosing(s, k)
    ensures LeasesFollow(s, FinishClose(s, k, backoff))
  {
  }

  lemma LeasesOtherwise(s: State, step: Step)
    requires Enabled(s, step) && !StartStep(step) && !LaunchStep(step) && !CloseStep(step) && !step.DoFinishClose?
    ensures LeasesFollow(s, Apply(s, step))
  {
    if step.DoFinishReport? {
      LeasesInReport(s, step.k, step.closed);
    }
  }

  lemma LeasesInReport(s: State, k: nat, closed: bool)
    requires Enabled(s, DoFinishReport(k, closed))
    ensures LeasesFollow(s, FinishReport(s, k, closed))
  {
  }

  /** How a later state's leases relate to those of an earlier one. */
  ghost predicate LaterLeases(s: State, s': State) {
    && |s.slots| == |s'.slots| && s.nextLease <= s'.nextLease && s'.max == s.max
    && forall k, id :: 0 <= k < |s.slots| && id < s.nextLease && HasLease(s'.slots[k], id) ==> HasLease(s.slots[k], id)
  }

  ghost predicate Numbered(s: State) {
    Inv(s) && forall k, id :: 0 <= k < |s.slots| && HasLease(s.slots[k], id) ==> id < s.nextLease
  }

  lemma StepOfLeases(s: State, step: Step)
    requires Enabled(s, step)
    ensures LeasesFollow(s, Apply(s, step))
  {
    if StartStep(step) {
      LeasesInStart(s, step);
    } else if LaunchStep(step) {
      LeasesInLaunch(s, step);
    } else if CloseStep(step) {
      LeasesInClose(s, step);
    } else if step.DoFinishClose? {
      LeasesInFinish(s, step.k, step.backoff);
    } else {
      LeasesOtherwise(s, step);
    }
  }

  lemma StaysNumbered(s: State, s': State)
    requires Numbered(s) && Inv(s') && LeasesFollow(s, s')
    ensures Numbered(s')
  {
    forall k, id | 0 <= k < |s'.slots| && HasLease(s'.slots[k], id) ensures id < s'.nextLease {
      assert LeaseFollows(s, s', k);
    }
  }

  lemma LaterStill(s: State, t: State, t': State)
    requires LaterLeases(s, t) && LeasesFollow(t, t')
    ensures LaterLeases(s, t')
  {
    forall k, id | 0 <= k < |s.slots| && id < s.nextLease && HasLease(t'.slots[k], id)
      ensures HasLease(s.slots[k], id)
    {
      assert LeaseFollows(t, t', k);
    }
  }

  lemma LeasesOverRuns()
    ensures Invariant(Supervision(), s => Numbered(s))
    ensures Progress(Supervision(), s => Numbered(s), (s, s') => LaterLeases(s, s'))
  {
    InvIsInvariant();
    forall s, step, s' | Numbered(s) && Supervision().next(s, step, s') ensures Numbered(s') {
      StepKeepsInv(s, step);
      StepOfLeases(s, step);
      StaysNumbered(s, s');
    }
    forall s, t, step, t' | LaterLeases(s, t) && Numbered(t) && Supervision().next(t, step, t')
      ensures LaterLeases(s, t')
    {
      StepOfLeases(t, step);
      LaterStill(s, t, t');
    }
  }

  /** A lease that left its slot never comes back. */
  lemma LeasesNeverReturn(states: seq<State>, steps: seq<Step>, k: nat, id: nat, h: nat, i: nat, j: nat)
    requires Run(Supervision(), states, steps) && h <= i <= j < |states| && k < |states[0].slots|
    ensures k < |states[h].slots| == |states[i].slots| == |states[j].slots|
    ensures HasLease(states[h].slots[k], id) && !HasLease(states[i].slots[k], id) ==> !HasLease(states[j].slots[k], id)
  {
    LeasesOverRuns();
    HoldsBetween(Supervision(), s => Numbered(s), (s, s') => LaterLeases(s, s'), states, steps, 0, h);
    HoldsBetween(Supervision(), s => Numbered(s), (s, s') => LaterLeases(s, s'), states, steps, h, i);
    HoldsBetween(Supervision(), s => Numbered(s), (s, s') => LaterLeases(s, s'), states, steps, i, j);
    HoldsAlways(Supervision(), s => Numbered(s), states, steps, h);
  }

  predicate StartedUnder(w: Waiter, k: nat, id: nat) { w.slot == k && w.lease.id == id }

  /**
    Once a lease has left its slot, no failure report and no retirement for it changes anything, and a
    refresh that started under it does not touch the slots: whatever generation runs there now is safe.
    */
  lemma OldLeasesHaveNoEffect(states: seq<State>, steps: seq<Step>, k: nat, id: nat, generation: nat, h: nat,
                              i: nat, j: nat)
    requires Run(Supervision(), states, steps) && h <= i <= j < |states|
    requires k < |states[0].slots| && k < |states[h].slots| && k < |states[i].slots|
    requires HasLease(states[h].slots[k], id) && !HasLease(states[i].slots[k], id)
    ensures Idle(states[j], k) ==>
              Report(states[j], k, id, generation) == Retire(states[j], k, id, generation) == states[j]
    ensures forall n |
              0 <= n < |states[j].waiters| && StartedUnder(states[j].waiters[n], k, id) && Idle(states[j], k) ::
              FinishRefresh(states[j], n).slots == states[j].slots
  {
    LeasesNeverReturn(states, steps, k, id, h, i, j);
  }
}
