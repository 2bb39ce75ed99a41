/** The mailboxes of one conversation, as the registry and the consumer update them in place. */
module MailboxObject {
  import opened Results
  import opened Mailboxes

  class Registry {
    var inserted: nat
    var queued: set<nat>
    var announced: set<nat>
    var boxes: seq<Mailbox>
    var closed: bool

    ghost function Snapshot(): State
      reads this
    {
      State(inserted, queued, announced, boxes, closed)
    }

    constructor ()
      ensures Snapshot() == State(0, {}, {}, [], false) && Inv(Snapshot())
    {
      inserted, queued, announced, boxes, closed := 0, {}, {}, [], false;
    }

    method Change(box: Mailbox)
      requires |boxes| > 0
      modifies this
      ensures Snapshot() == Put(old(Snapshot()), box)
    {
      boxes := boxes[|boxes| - 1 := box];
    }

    /** A turn is written to the store. */
    method Enqueue() returns (turn: nat)
      requires Inv(Snapshot())
      modifies this
      ensures Snapshot() == Insert(old(Snapshot())) && Inv(Snapshot())
      ensures turn in queued && turn !in old(queued) && forall t :: t in old(queued) ==> t < turn
    {
      StepKeepsInv(Snapshot(), DoInsert);
      turn := inserted;
      queued := queued + {turn};
      inserted := inserted + 1;
    }

    /** Finds the live mailbox, or makes one, and sets its event; false when the registry is closed. */
    method Announce() returns (woken: bool)
      requires Inv(Snapshot())
      modifies this
      ensures Snapshot() == Wake(old(Snapshot())) && Inv(Snapshot())
      ensures woken == !old(closed)
      ensures woken ==> Live(Snapshot()) && Current(Snapshot()).event && queued <= announced
    {
      StepKeepsInv(Snapshot(), DoWake);
      woken := !closed;
      if closed {
        return;
      }
      announced := announced + queued;
      if |boxes| == 0 || boxes[|boxes| - 1].place == Done {
        boxes := boxes + [Mailbox(Parked, false, false)];
      }
      Change(boxes[|boxes| - 1].(event := true));
    }

    /** The consumer passes its wait: it clears the event and looks at the queue, unless it is closed. */
    method PassWait()
      requires Inv(Snapshot()) && Enabled(Snapshot(), Starts)
      modifies this
      ensures Snapshot() == Apply(old(Snapshot()), Starts) && Inv(Snapshot())
      ensures |boxes| > 0 && !boxes[|boxes| - 1].event && queued == old(queued) && announced == old(announced)
      ensures boxes[|boxes| - 1].place == if closed then Done else Fetching
    {
      StepKeepsInv(Snapshot(), Starts);
      var box := boxes[|boxes| - 1].(event := false);
      if box.closed {
        Change(box.(place := Done));
      } else {
        Change(box.(place := Fetching));
      }
    }

    /** The query: the earliest queued turn, or none. */
    method Query() returns (turn: Option<nat>)
      requires Inv(Snapshot()) && Enabled(Snapshot(), Queries)
      modifies this
      ensures Snapshot() == Apply(old(Snapshot()), Queries) && Inv(Snapshot())
      ensures turn.None? <==> queued == {}
      ensures turn.Some? ==> turn.value in queued && forall t :: t in queued ==> turn.value <= t
    {
      StepKeepsInv(Snapshot(), Queries);
      EarliestFirst(Snapshot());
      turn := None;
      var candidate := 0;
      while candidate < inserted && candidate !in queued
        invariant candidate <= inserted && forall t: nat :: t < candidate ==> t !in queued
      {
        candidate := candidate + 1;
      }
      if candidate < inserted {
        turn := Some(candidate);
      }
      Change(boxes[|boxes| - 1].(place := Got(turn)));
    }

    /** The delay of a retry is over. */
    method Rearm()
      requires Inv(Snapshot()) && Enabled(Snapshot(), Rearms)
      modifies this
      ensures Snapshot() == Apply(old(Snapshot()), Rearms) && Inv(Snapshot())
      ensures !old(closed) ==> Enabled(Snapshot(), Starts)
    {
      StepKeepsInv(Snapshot(), Rearms);
      var box := boxes[|boxes| - 1];
      if !box.closed {
        box := box.(event := true);
      }
      Change(box.(place := if box.closed then Done else Parked));
    }

    /** No mailbox is made any more, and the live one is told to stop. */
    method Close()
      requires Inv(Snapshot())
      modifies this
      ensures Snapshot() == Apply(old(Snapshot()), Closes) && Inv(Snapshot())
      ensures closed && queued == old(queued) && |boxes| == old(|boxes|)
      ensures Live(Snapshot()) ==> Enabled(Snapshot(), Cancelled) && Wake(Snapshot()) == Snapshot()
    {
      StepKeepsInv(Snapshot(), Closes);
      closed := true;
      if |boxes| > 0 && boxes[|boxes| - 1].place != Done {
        Change(boxes[|boxes| - 1].(closed := true, event := true));
      }
    }
  }
}
