/**
  The mailbox of one conversation: producers insert turns into the store and then wake the mailbox, which
  reads the store and hands turns to the handler one at a time. Mailboxes can crash and are replaced.
  */
module Mailboxes {
  import opened Results
  import opened Runs

  /** Where the consumer task is. `Got` holds what the store answered, before the task runs on with it. */
  datatype Place = Parked | Fetching | Got(answer: Option<nat>) | Handling(turn: nat) | Sleeping | Done

  datatype Mailbox = Mailbox(place: Place, event: bool, closed: bool)

  /**
    Turns are numbered in the order in which they were inserted. `queued`: the turns in the store that are
    still queued. `announced`: the turns that were queued when some wake-up happened.
    */
  datatype State = State(inserted: nat, queued: set<nat>, announced: set<nat>, boxes: seq<Mailbox>, closed: bool)

  predicate Live(s: State) { |s.boxes| > 0 && s.boxes[|s.boxes| - 1].place != Done }

  /** The mailbox that the registry knows. */
  function Current(s: State): Mailbox
    requires |s.boxes| > 0
  {
    s.boxes[|s.boxes| - 1]
  }

  function Put(s: State, box: Mailbox): State
    requires |s.boxes| > 0
  {
    s.(boxes := s.boxes[|s.boxes| - 1 := box])
  }

  // ---------- Producers ----------

  function Insert(s: State): State { s.(inserted := s.inserted + 1, queued := s.queued + {s.inserted}) }

  /** Finds or makes the mailbox and sets its event. */
  function Wake(s: State): State {
    if s.closed then s
    else
      var woken := s.(announced := s.announced + s.queued);
      if Live(s) then Put(woken, Current(s).(event := true))
      else woken.(boxes := s.boxes + [Mailbox(Parked, true, false)])
  }

  // ---------- The consumer ----------

  /** Back at the head of the outer loop. */
  function AtLoop(box: Mailbox): Mailbox { box.(place := if box.closed then Done else Parked) }

  /** Back at the head of the inner loop. */
  function AtInnerLoop(box: Mailbox): Mailbox { if box.closed then AtLoop(box) else box.(place := Fetching) }

  function FirstQueued(queued: set<nat>, bound: nat): (r: Option<nat>)
    ensures r.Some? ==> r.value in queued && r.value < bound && forall t: nat :: t < r.value ==> t !in queued
    ensures r.None? ==> forall t: nat :: t < bound ==> t !in queued
  {
    if bound == 0 then None
    else
      match FirstQueued(queued, bound - 1)
      case Some(t) => Some(t)
      case None => if bound - 1 in queued then Some(bound - 1) else None
  }

  datatype Step =
    | DoInsert
    | DoWake
    | Leaves(turn: nat)
    | Starts
    | Queries
    | QueryFails
    | Continues
    | Returns(retry: bool)
    | Rearms
    | Closes
    | Cancelled

  predicate Enabled(s: State, step: Step) {
    match step
    case DoInsert => true
    case DoWake => true
    case Leaves(_) => true
    case Starts => Live(s) && Current(s).place == Parked && Current(s).event
    case Queries => Live(s) && Current(s).place == Fetching
    case QueryFails => Live(s) && Current(s).place == Fetching
    case Continues => Live(s) && Current(s).place.Got?
    case Returns(_) => Live(s) && Current(s).place.Handling?
    case Rearms => Live(s) && Current(s).place == Sleeping
    case Closes => true
    case Cancelled => Live(s) && Current(s).closed
  }

  function Apply(s: State, step: Step): State
    requires Enabled(s, step)
  {
    match step
    case DoInsert => Insert(s)
    case DoWake => Wake(s)
    case Leaves(turn) => s.(queued := s.queued - {turn})
    case Starts => Put(s, AtInnerLoop(Current(s).(event := false)))
    case Queries => Put(s, Current(s).(place := Got(FirstQueued(s.queued, s.inserted))))
    case QueryFails => Put(s, Current(s).(place := Done))
    case Continues =>
      (match Current(s).place.answer
       case None => Put(s, AtLoop(Current(s)))
       case Some(turn) => Put(s, Current(s).(place := Handling(turn))))
    case Returns(retry) => Put(s, if retry then Current(s).(place := Sleeping) else AtInnerLoop(Current(s)))
    case Rearms => Put(s, AtLoop(Current(s).(event := Current(s).event || !Current(s).closed)))
    case Closes =>
      if Live(s) then Put(s, Current(s).(closed := true, event := true)).(closed := true) else s.(closed := true)
    case Cancelled => Put(s, Current(s).(place := Done))
  }

  // ---------- Invariant ----------

  /** Nobody would look at the queue again without another wake-up. */
  predicate AtRest(box: Mailbox) { !box.event && (box.place == Parked || box.place == Got(None)) }

  ghost predicate Inv(s: State) {
    && (forall t :: t in s.queued || t in s.announced ==> t < s.inserted)
    && (forall i :: 0 <= i < |s.boxes| - 1 ==> s.boxes[i].place == Done)
    && (Live(s) ==> (Current(s).closed <==> s.closed))
    && (Live(s) && AtRest(Current(s)) ==> s.announced !! s.queued)
  }

  lemma StepKeepsInv(s: State, step: Step)
    requires Inv(s) && Enabled(s, step)
    ensures Inv(Apply(s, step))
  {
  }

  ghost function Delivery(): Machine<State, Step> {
    Machine(s => s == State(0, {}, {}, [], false), (s, step, s') => Enabled(s, step) && s' == Apply(s, step))
  }

  lemma InvIsInvariant()
    ensures Invariant(Delivery(), s => Inv(s))
  {
    forall s, step, s' | Inv(s) && Delivery().next(s, step, s') ensures Inv(s') {
      StepKeepsInv(s, step);
    }
  }

  /** In every reachable state a mailbox that waits with a clear event has left no announced turn in the queue. */
  lemma NoLostWakeups(states: seq<State>, steps: seq<Step>, k: nat)
    requires Run(Delivery(), states, steps) && k < |states|
    ensures var s := states[k];
            Live(s) && Current(s).place == Parked && !Current(s).event ==>
              forall t :: t in s.announced ==> t !in s.queued
  {
    InvIsInvariant();
    HoldsAlways(Delivery(), s => Inv(s), states, steps, k);
  }

  /** In every reachable state at most one mailbox is live, so at most one handler call is under way. */
  lemma DeliveryIsSerial(states: seq<State>, steps: seq<Step>, k: nat, i: nat, j: nat)
    requires Run(Delivery(), states, steps) && k < |states| && i < |states[k].boxes| && j < |states[k].boxes|
    requires states[k].boxes[i].place != Done && states[k].boxes[j].place != Done
    ensures i == j
  {
    InvIsInvariant();
    HoldsAlways(Delivery(), s => Inv(s), states, steps, k);
  }

  /** The consumer will look at the queue without another wake-up, or it is at a turn. */
  predicate OnItsWay(box: Mailbox) {
    && box.place != Done
    && (|| box.place == Fetching || box.place.Handling? || box.place == Sleeping
        || (box.place.Got? && box.place.answer.Some?)
        || box.event)
  }

  /** In every reachable state a queued, announced turn has a consumer on its way exactly while one is live. */
  lemma QueuedTurnsAreOnTheirWay(states: seq<State>, steps: seq<Step>, k: nat, t: nat)
    requires Run(Delivery(), states, steps) && k < |states|
    requires t in states[k].announced && t in states[k].queued
    ensures Live(states[k]) <==> |states[k].boxes| > 0 && OnItsWay(Current(states[k]))
  {
    InvIsInvariant();
    HoldsAlways(Delivery(), s => Inv(s), states, steps, k);
  }

  /** A live mailbox ends only by a failing query or once it is closed; in particular not when the queue is empty. */
  lemma EndsOnlyByCrashOrClose(s: State, step: Step)
    requires Enabled(s, step) && Live(s) && !Live(Apply(s, step))
    ensures step == QueryFails || Current(s).closed
  {
  }

  /** After any wake-up of an open registry, a live mailbox will look at the queue: also when the last one crashed. */
  lemma WakeRevives(s: State)
    requires Inv(s) && !s.closed
    ensures Live(Wake(s)) && Current(Wake(s)).event && s.queued <= Wake(s).announced
    ensures !Live(s) ==> Wake(s).boxes == s.boxes + [Mailbox(Parked, true, false)]
  {
  }

  /** A turn is handed over only when no earlier turn was queued at the time of the query. */
  lemma EarliestFirst(s: State)
    requires Inv(s) && Enabled(s, Queries)
    ensures var turn := Current(Apply(s, Queries)).place.answer;
            && (turn.None? <==> s.queued == {})
            && (turn.Some? ==> turn.value in s.queued && forall t :: t in s.queued ==> turn.value <= t)
  {
    if s.queued != {} {
      var t :| t in s.queued;
      assert t < s.inserted;
    }
  }

  /** A retry sets the event again: the consumer comes back to the queue without any producer. */
  lemma RetriesRearm(s: State)
    requires Inv(s) && Live(s) && Current(s).place.Handling? && !s.closed
    ensures var slept := Apply(s, Returns(true));
            Enabled(slept, Rearms) && Enabled(Apply(slept, Rearms), Starts)
            && Current(Apply(Apply(slept, Rearms), Starts)).place == Fetching
  {
  }

  /** The steps without wake-ups. */
  ghost function Unwoken(): Machine<State, Step> {
    Machine(s => true, (s, step, s') => step != DoWake && Enabled(s, step) && s' == Apply(s, step))
  }

  lemma DeadStaysDead(s: State, step: Step)
    requires !Live(s) && Enabled(s, step) && step != DoWake
    ensures !Live(Apply(s, step)) && (forall t :: t in s.queued && step != Leaves(t) ==> t in Apply(s, step).queued)
  {
  }

  /**
    Whatever was announced before a failing query is lost with it: until somebody wakes the mailbox, no consumer
    comes back. The next wake-up makes one.
    */
  lemma CrashLosesWakeup(s: State, s': State)
    requires Inv(s) && Enabled(s, QueryFails) && Leads(Unwoken(), Apply(s, QueryFails), s')
    ensures !Live(s') && (|s'.boxes| > 0 ==> !OnItsWay(Current(s')))
    ensures !s'.closed ==> Live(Wake(s'))
  {
    forall s, step, s' | !Live(s) && Unwoken().next(s, step, s') ensures !Live(s') {
      DeadStaysDead(s, step);
    }
    HoldsOnward(Unwoken(), s => !Live(s), Apply(s, QueryFails), s');
  }
}
