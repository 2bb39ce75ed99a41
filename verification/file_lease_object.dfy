/** The runtime's lease bookkeeping as an object that is updated in place. */
module FileLeaseObject {
  import opened FileLeases

  class LeasedRuntime {
    var turns: seq<Turn>
    var pending: set<nat>
    var perTurn: map<nat, nat>
    var handles: set<nat>
    var open: set<nat>
    var blocked: bool
    var closed: bool
    var closing: bool
    var alive: bool

    ghost function Current(): State
      reads this
    {
      State(turns, pending, perTurn, handles, open, blocked, closed, closing, alive)
    }

    constructor ()
      ensures Current() == NEW_RUNTIME && Inv(Current())
    {
      turns, pending, perTurn, handles, open := [], {}, map[], {}, {};
      blocked, closed, closing, alive := false, false, false, true;
    }

    /** The start of a turn up to its first await; false when the runtime is not open. */
    method Begin(files: bool) returns (started: bool)
      requires Inv(Current())
      modifies this
      ensures Current() == BeginStart(old(Current()), files) && Inv(Current())
      ensures started == (!old(closed) && !old(blocked))
      ensures started && files ==> |turns| - 1 in open && |turns| - 1 in pending
      ensures !started ==> Current() == old(Current())
    {
      BeginStartKeeps(Current(), files);
      started := !closed && !blocked;
      if started {
        if files {
          open := open + {|turns|};
          pending := pending + {|turns|};
        }
        turns := turns + [Turn(files, Attempted)];
      }
    }

    /** The provider returned a handle; false when the start ends in an error all the same. */
    method Returned(t: nat, id: nat) returns (started: bool)
      requires Inv(Current()) && Is(Current(), t, Attempted)
      modifies this
      ensures Current() == StartReturns(old(Current()), t, id)
      ensures !old(Reused(Current(), t, id)) ==> Inv(Current())
      ensures started <==> turns[t].phase == Running(id)
    {
      if !Reused(Current(), t, id) {
        StartReturnsKeeps(Current(), t, id);
      }
      var files := turns[t].files;
      started := false;
      if files && closed {
        pending := pending - {t};
        open := open - {t};
        turns := turns[t := Turn(files, Uncertain)];
        return;
      }
      if id in perTurn {
        turns := turns[t := Turn(files, if files then Uncertain else Rejected)];
        return;
      }
      pending := pending - {t};
      if files {
        perTurn := perTurn[id := t];
      }
      handles := handles + {id};
      turns := turns[t := Turn(files, Running(id))];
      started := true;
    }

    method Release(id: nat)
      modifies this
      ensures Current() == ReleaseLease(old(Current()), id)
    {
      if blocked {
        return;
      }
      if id in perTurn {
        open := open - {perTurn[id]};
        perTurn := perTurn - {id};
      }
    }

    method Terminal(t: nat)
      requires Inv(Current()) && t < |turns| && turns[t].phase.Running?
      modifies this
      ensures Current() == SeesTerminal(old(Current()), t) && Inv(Current())
      ensures old(blocked) ==> open == old(open)
    {
      SeesTerminalKeeps(Current(), t);
      var id := turns[t].phase.id;
      turns := turns[t := Turn(turns[t].files, Over(id))];
      handles := handles - {id};
      Release(id);
    }

    /** Closes all leases one after the other. */
    method ReleaseEverything()
      modifies this
      ensures Current() == ReleaseAll(old(Current()))
    {
      var leases := perTurn.Values + pending;
      perTurn := map[];
      pending := {};
      while leases != {}
        invariant leases <= old(perTurn.Values + pending)
        invariant open == old(open) - (old(perTurn.Values + pending) - leases)
        invariant Current() == old(Current()).(perTurn := map[], pending := {}, open := open)
        decreases leases
      {
        var lease :| lease in leases;
        open := open - {lease};
        leases := leases - {lease};
      }
      blocked := false;
    }

    /** The close lock is taken; true when there is nothing left to close. */
    method StartClosing() returns (done: bool)
      requires Inv(Current()) && !closing
      modifies this
      ensures Current() == BeginClose(old(Current())) && Inv(Current())
      ensures done <==> closed
    {
      CloseKeeps(Current(), DoBeginClose);
      done := closed;
      if closed {
        ReleaseEverything();
      } else {
        blocked := true;
        closing := true;
      }
    }

    /** The client is closed or the process terminated; `confirmed` says whether its exit was seen. */
    method Finalize(confirmed: bool)
      requires Inv(Current()) && closing && (confirmed ==> !alive)
      modifies this
      ensures Current() == FinishClose(old(Current()), confirmed) && Inv(Current())
      ensures if confirmed then closed && open == {} else open == old(open) && blocked
    {
      CloseKeeps(Current(), DoFinishClose(confirmed));
      if confirmed {
        ReleaseEverything();
        closed := true;
        handles := {};
      }
      closing := false;
    }
  }
}
