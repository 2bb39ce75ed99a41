/** The supervisor as an object: the critical sections that change slots and capacity in place. */
module SupervisorObject {
  import opened Results
  import opened Supervisor
  import opened SupervisorRuns

  class RuntimeSupervisor {
    const max: nat
    var slots: seq<Slot>
    var permits: nat
    var handed: bool
    var inUse: int
    var startLock: Option<nat>
    var closing: bool
    var waiters: seq<Waiter>
    var nextLease: nat
    var nextRuntime: nat
    var nextTask: nat
    ghost var living: set<nat>

    ghost function Current(): State
      reads this
    {
      State(max, slots, permits, handed, inUse, startLock, closing, waiters, nextLease, nextRuntime, nextTask, living)
    }

    constructor (max: nat, keys: nat)
      ensures Current() == State(max, seq(keys, k => Slot(None, None, false, None, None, Free)), max, false, 0, None,
                                 false, [], 0, 0, 0, {})
      ensures Inv(Current())
    {
      this.max := max;
      slots := seq(keys, k => Slot(None, None, false, None, None, Free));
      permits, handed, inUse, startLock, closing, waiters := max, false, 0, None, false, [];
      nextLease, nextRuntime, nextTask, living := 0, 0, 0, {};
      new;
      NoneReserved(slots);
    }

    /** The permits that are not in use: in the pool, or on their way to the parked waiter. */
    function Unused(): int
      reads this
    {
      permits + One(handed)
    }

    /** Slots other than `k` are as they were. */
    ghost predicate OtherSlotsAre(before: seq<Slot>, k: nat)
      reads this
    {
      k < |slots| == |before| && forall j :: 0 <= j < |slots| && j != k ==> slots[j] == before[j]
    }

    method SetActivity(k: nat, activity: Activity)
      requires k < |slots|
      modifies this`slots
      ensures Current() == Turn(old(Current()), k, activity)
      ensures OtherSlotsAre(old(slots), k) && slots[k] == old(slots[k]).(activity := activity)
    {
      slots := slots[k := slots[k].(activity := activity)];
    }

    /** Gives a permit back: to the parked waiter, or to the pool. */
    method GiveBackPermit()
      modifies this`permits, this`handed
      ensures Current() == ReleasePermit(old(Current()))
      ensures Unused() == old(Unused()) + 1
      ensures handed != old(handed) ==> handed && permits == old(permits) && InStart(slots[startLock.value])
    {
      if && startLock.Some? && startLock.value < |slots|
         && slots[startLock.value].activity == Starting(WantsPermit(true)) && !handed
      {
        handed := true;
      } else {
        permits := permits + 1;
      }
    }

    /** Gives the reservation of a slot back, once: a second release changes nothing. */
    method Release(k: nat)
      requires k < |slots|
      modifies this`slots, this`inUse, this`permits, this`handed
      ensures Current() == ReleaseCapacity(old(Current()), k)
      ensures OtherSlotsAre(old(slots), k) && slots[k] == old(slots[k]).(reserved := false)
      ensures Unused() == old(Unused()) + One(old(slots[k].reserved)) && Unused() + inUse == old(Unused() + inUse)
      ensures !old(slots[k].reserved) ==> Current() == old(Current())
    {
      if !slots[k].reserved {
        return;
      }
      slots := slots[k := slots[k].(reserved := false)];
      inUse := inUse - 1;
      GiveBackPermit();
    }

    /** The permit has been acquired. */
    method Reserve(k: nat)
      requires k < |slots|
      modifies this`slots, this`inUse, this`permits, this`handed, this`startLock
      ensures Current() == TakePermit(old(Current()), k)
      ensures OtherSlotsAre(old(slots), k) && startLock == None
      ensures if closing
              then slots[k].reserved == old(slots[k].reserved) && Unused() == old(Unused()) + 1 && inUse == old(inUse)
              else slots[k].reserved && Unused() == old(Unused()) && inUse == old(inUse) + 1
    {
      if closing {
        slots := slots[k := slots[k].(activity := Starting(CleansUp(None, false)))];
        startLock := None;
        GiveBackPermit();
      } else {
        slots := slots[k := slots[k].(reserved := true)];
        inUse := inUse + 1;
        startLock := None;
        SetActivity(k, Starting(CreatesLease));
      }
    }

    method Acquire(k: nat)
      requires Inv(Current()) && At(Current(), k, Starting(WantsPermit(false)))
      modifies this
      ensures Current() == AcquirePermit(old(Current()), k) && Inv(Current())
      ensures slots[k].reserved <==> old(permits) > 0 && !closing
      ensures slots[k].reserved ==> inUse == old(inUse) + 1 <= max && startLock == None
      ensures old(permits) == 0 ==>
                inUse == old(inUse) && startLock == Some(k) && slots[k].activity == Starting(WantsPermit(true))
    {
      AcquirePermitKeeps(Current(), k);
      if permits > 0 {
        permits := permits - 1;
        Reserve(k);
      } else {
        SetActivity(k, Starting(WantsPermit(true)));
      }
    }

    method Resume(k: nat)
      requires Inv(Current()) && At(Current(), k, Starting(WantsPermit(true)))
      modifies this
      ensures Current() == ResumeWithPermit(old(Current()), k) && Inv(Current())
      ensures slots[k].reserved <==> old(handed) && !closing
      ensures slots[k].reserved ==> inUse == old(inUse) + 1 <= max && startLock == None && !handed
    {
      ResumeKeeps(Current(), k);
      if handed {
        handed := false;
        Reserve(k);
      }
    }

    /** A started runtime becomes the slot's runtime. */
    method PublishRuntime(k: nat)
      requires Inv(Current()) && Enabled(Current(), DoFinishStart(k))
      modifies this
      ensures Current() == FinishStart(old(Current()), k) && Inv(Current())
      ensures OtherSlotsAre(old(slots), k) && Unused() == old(Unused()) && inUse == old(inUse)
      ensures IsReady(slots[k]) && slots[k].reserved && slots[k].catalog == slots[k].runtime && slots[k].refresh == None
      ensures Matches(slots[k], old(slots[k]).lease.value.id, old(slots[k]).lease.value.generation)
    {
      FinishStartKeeps(Current(), k);
      var runtime := slots[k].activity.phase.runtime;
      var slot := slots[k].(runtime := Some(runtime));
      slot := slot.(lease := Some(slot.lease.value.(state := Ready)));
      slot := slot.(catalog := Some(runtime));
      slots := slots[k := slot];
      SetActivity(k, if closing then Closing(MarksStopping, Shutdown) else Free);
    }

    /** Forgets the slot's runtime and gives its capacity back. */
    method Forget(k: nat)
      requires k < |slots|
      modifies this`slots, this`inUse, this`permits, this`handed
      ensures Current() == Clear(old(Current()), k)
      ensures OtherSlotsAre(old(slots), k) && !Loaded(slots[k]) && Coherent(slots[k]) && !slots[k].reserved
      ensures Unused() == old(Unused()) + One(old(slots[k].reserved)) && Unused() + inUse == old(Unused() + inUse)
    {
      var slot := slots[k].(runtime := None);
      slot := slot.(lease := None);
      slot := slot.(catalog := None, refresh := None);
      slots := slots[k := slot];
      Release(k);
    }

    method Vacate(k: nat, activity: Activity)
      requires k < |slots|
      modifies this`slots, this`inUse, this`permits, this`handed
      ensures Current() == Turn(Clear(old(Current()), k), k, activity)
      ensures OtherSlotsAre(old(slots), k) && !Loaded(slots[k]) && Coherent(slots[k]) && !slots[k].reserved
      ensures slots[k].activity == activity
      ensures Unused() == old(Unused()) + One(old(slots[k].reserved)) && Unused() + inUse == old(Unused() + inUse)
    {
      Forget(k);
      SetActivity(k, activity);
    }

    /** The end of a failed startup. */
    method AbandonStart(k: nat)
      requires Inv(Current()) && Enabled(Current(), DoFinishCleanUp(k))
      requires slots[k].activity.phase.loaded.Some? ==> slots[k].activity.phase.closeFailed
      modifies this
      ensures Current() == FinishCleanUp(old(Current()), k) && Inv(Current())
      ensures OtherSlotsAre(old(slots), k)
      ensures if old(slots[k].activity.phase.loaded).Some?
              then slots[k].runtime == old(slots[k].activity.phase.loaded) && slots[k].reserved && !IsReady(slots[k])
                   && Unused() == old(Unused())
              else !Loaded(slots[k]) && !slots[k].reserved && Unused() == old(Unused()) + One(old(slots[k].reserved))
    {
      FinishCleanUpKeeps(Current(), k);
      var loaded := slots[k].activity.phase.loaded;
      if loaded.Some? {
        var failed := slots[k].lease.value.(state := Failed);
        slots := slots[k := slots[k].(runtime := loaded, lease := Some(failed))];
      } else {
        Forget(k);
      }
      SetActivity(k, Free);
    }

    /** The last section of a close: `mark_runtime_stopped` has succeeded. */
    method CompleteClose(k: nat, backoff: bool)
      requires Inv(Current()) && IsClosing(Current(), k) && slots[k].activity.stage == MarksStopped
      modifies this
      ensures Current() == FinishClose(old(Current()), k, backoff) && Inv(Current())
      ensures k < |slots| && !Loaded(slots[k]) && !slots[k].reserved
      ensures Unused() == old(Unused()) + 1 && inUse == old(inUse) - 1
      ensures old(slots[k].activity.purpose).Eviction? ==>
                && startLock == Some(old(slots[k].activity.purpose.starter)) && permits > 0
                && At(Current(), old(slots[k].activity.purpose.starter), Starting(WantsPermit(false)))
    {
      FinishCloseKeeps(Current(), k, backoff);
      var purpose := slots[k].activity.purpose;
      if purpose.Eviction? {
        PermitIsFree(Current(), k, purpose.starter);
        Vacate(k, Free);
        SetActivity(purpose.starter, Starting(WantsPermit(false)));
      } else {
        Vacate(k, if purpose == Restart && !backoff then Starting(WantsStartLock) else Free);
      }
    }

    /** Frees a slot whose process has ended. */
    method VacateEnded(k: nat)
      requires k < |slots| && slots[k].runtime.Some?
      modifies this`slots, this`inUse, this`permits, this`handed, this`living
      ensures Current() == Ended(Turn(Clear(old(Current()), k), k, Free), old(slots[k].runtime))
      ensures OtherSlotsAre(old(slots), k) && !Loaded(slots[k]) && slots[k].activity == Free
      ensures Unused() == old(Unused()) + One(old(slots[k].reserved))
    {
      ghost var runtime := slots[k].runtime.value;
      Vacate(k, Free);
      living := living - {runtime};
    }

    /** The last section of a failure report. */
    method CompleteReport(k: nat, closed: bool)
      requires Inv(Current()) && Enabled(Current(), DoFinishReport(k, closed))
      modifies this
      ensures Current() == FinishReport(old(Current()), k, closed) && Inv(Current())
      ensures OtherSlotsAre(old(slots), k) && slots[k].activity == Free && !IsReady(slots[k])
      ensures if closed then !Loaded(slots[k]) && Unused() == old(Unused()) + 1
              else slots[k].runtime == old(slots[k].runtime) && slots[k].reserved && Unused() == old(Unused())
    {
      FinishReportKeeps(Current(), k, closed);
      if closed {
        VacateEnded(k);
      } else {
        var failed := slots[k].lease.value.(state := Failed);
        slots := slots[k := slots[k].(lease := Some(failed))];
        SetActivity(k, Free);
      }
    }

    /** A waiter brings its catalog; false stands for the error that the runtime has changed. */
    method StoreCatalog(i: nat) returns (stored: bool)
      requires Inv(Current()) && Enabled(Current(), DoFinishRefresh(i))
      modifies this
      ensures Current() == FinishRefresh(old(Current()), i) && Inv(Current())
      ensures stored ==> var w := old(waiters[i]);
                         && slots[w.slot].runtime == Some(w.runtime)
                         && slots[w.slot].catalog == Some(w.task.of) == slots[w.slot].runtime
    {
      FinishRefreshKeeps(Current(), i);
      var w := waiters[i];
      var slot := slots[w.slot];
      assert w.task.of == w.runtime;
      waiters := waiters[..i] + waiters[i + 1..];
      stored := slot.runtime == Some(w.runtime) && Matches(slot, w.lease.id, w.lease.generation);
      if stored {
        slot := slot.(catalog := Some(w.task.of));
        if slot.refresh == Some(w.task) {
          slot := slot.(refresh := None);
        }
        slots := slots[w.slot := slot];
      }
    }
  }

  /** The starter of an eviction holds the start lock, so that no permit is on its way to a waiter. */
  lemma PermitIsFree(s: State, k: nat, starter: nat)
    requires Inv(s) && IsClosing(s, k) && s.slots[k].activity.purpose == Eviction(starter)
    ensures s.startLock == Some(starter) && starter != k && !s.handed && !Parked(s) && s.slots[k].reserved
  {
    assert Evicting(s.slots[starter], k) && InStart(s.slots[starter]) && GoodSlot(s.slots[k]);
  }
}
