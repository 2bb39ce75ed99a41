/**
  The ledger of a schedule: its row in the store, the two compare-and-swap operations that record an
  occurrence and move the cursor, and the pass that a coordinator makes over a due schedule.
  */
module ScheduleLedger {
  import opened Results

  datatype Policy = SkipMissed | LatestOnly | Every

  datatype FireState = WasSkipped | WasMaterialized | WasBlocked

  datatype Trigger = Timer | Misfire

  /** The record of one occurrence; its key is the instant at which it was due. */
  datatype Fire = Fire(due: int, state: FireState, trigger: Trigger)

  datatype Status = Active | Paused | Blocked | Completed | Deleted

  /**
    What stays the same between two edits by a user. `start` and `base` record the cursor and the number
    of fires that the last edit left; no operation reads them.
    */
  datatype Epoch = Epoch(next: int -> Option<int>, once: bool, policy: Policy, start: Option<int>, base: nat)

  datatype Row = Row(version: nat, status: Status, cursor: Option<int>, fires: seq<Fire>, epoch: Epoch)

  predicate Recorded(fires: seq<Fire>, due: int) { exists i :: 0 <= i < |fires| && fires[i].due == due }

  // ---------- The operations of the store ----------

  datatype Call =
    | Skip(due: int, next: Option<int>)
    | Materialize(due: int, next: Option<int>, trigger: Trigger)

  /** The conversation that a schedule writes to: usable, gone, or without a prompt. */
  datatype Target = Available | Unavailable | NoPrompt

  /** `turn` says whether there is a turn for the occurrence; refused means stale or in conflict. */
  datatype Answer = Done(turn: bool) | Refused

  function Advanced(row: Row, fires: seq<Fire>, next: Option<int>): Row {
    row.(version := row.version + 1, cursor := next, fires := fires,
         status := if row.epoch.once && next.None? then Completed else row.status)
  }

  function RecordSkipped(row: Row, due: int, next: Option<int>, expected: nat): (Row, Answer) {
    if row.status != Active || row.version != expected then (row, Refused)
    else
      var fires := if Recorded(row.fires, due) then row.fires else row.fires + [Fire(due, WasSkipped, Misfire)];
      (Advanced(row, fires, next), Done(false))
  }

  function HasTurn(fires: seq<Fire>, due: int): bool {
    exists i :: 0 <= i < |fires| && fires[i].due == due && fires[i].state == WasMaterialized
  }

  /** An occurrence that is already recorded is reported as it is, and the cursor stays. */
  function MaterializeFire(row: Row, due: int, next: Option<int>, trigger: Trigger, expected: nat,
                           target: Target): (Row, Answer) {
    if Recorded(row.fires, due) then (row, Done(HasTurn(row.fires, due)))
    else if row.status != Active || row.version != expected then (row, Refused)
    else
      match target
      case Unavailable =>
        (row.(version := row.version + 1, status := Blocked, cursor := None,
              fires := row.fires + [Fire(due, WasBlocked, trigger)]),
         Done(false))
      case NoPrompt => (row, Refused)
      case Available => (Advanced(row, row.fires + [Fire(due, WasMaterialized, trigger)], next), Done(true))
  }

  function Perform(row: Row, call: Call, expected: nat, target: Target): (Row, Answer) {
    match call
    case Skip(due, next) => RecordSkipped(row, due, next, expected)
    case Materialize(due, next, trigger) => MaterializeFire(row, due, next, trigger, expected, target)
  }

  /**
    A second call for an occurrence, with whatever version and trigger, changes nothing and answers what the
    first one did: whether the occurrence has its turn.
    */
  lemma MaterializeIsIdempotent(row: Row, due: int, next: Option<int>, trigger: Trigger, expected: nat,
                                target: Target, next': Option<int>, trigger': Trigger, expected': nat,
                                target': Target)
    requires MaterializeFire(row, due, next, trigger, expected, target).1.Done?
    ensures var (row', answer) := MaterializeFire(row, due, next, trigger, expected, target);
            && MaterializeFire(row', due, next', trigger', expected', target') == (row', answer)
            && (answer.turn <==> exists fire :: fire in row'.fires && fire.due == due && fire.state == WasMaterialized)
  {
    var (row', answer) := MaterializeFire(row, due, next, trigger, expected, target);
    if !Recorded(row.fires, due) {
      assert row'.fires[|row.fires|].due == due;
    }
  }

  // ---------- The calls of one pass ----------

  /** The occurrences from the cursor up to `now`, at most `cap` of them. */
  function Batch(next: int -> Option<int>, cursor: Option<int>, now: int, cap: nat): (batch: seq<int>)
    ensures |batch| <= cap
    decreases cap
  {
    if cursor.None? || cursor.value > now || cap == 0 then []
    else [cursor.value] + Batch(next, next(cursor.value), now, cap - 1)
  }

  /** The occurrence after the batch. */
  function Beyond(next: int -> Option<int>, cursor: Option<int>, now: int, cap: nat): Option<int>
    decreases cap
  {
    if cursor.None? || cursor.value > now || cap == 0 then cursor
    else Beyond(next, next(cursor.value), now, cap - 1)
  }

  predicate ReachesPresent(beyond: Option<int>, now: int) { beyond.None? || beyond.value > now }

  function NextOf(batch: seq<int>, beyond: Option<int>, i: nat): Option<int> {
    if i + 1 < |batch| then Some(batch[i + 1]) else beyond
  }

  /** Whether a policy turns an occurrence into a turn; only the last one before the present is `latest`. */
  predicate Selects(policy: Policy, due: int, latest: bool, boundary: int) {
    match policy
    case Every => true
    case LatestOnly => latest
    case SkipMissed => latest && due >= boundary
  }

  function TriggerOf(due: int, boundary: int): Trigger { if due >= boundary then Timer else Misfire }

  function CallFor(policy: Policy, due: int, next: Option<int>, latest: bool, boundary: int): Call {
    if Selects(policy, due, latest, boundary) then Materialize(due, next, TriggerOf(due, boundary))
    else Skip(due, next)
  }

  function Plan(policy: Policy, batch: seq<int>, beyond: Option<int>, now: int, boundary: int): (calls: seq<Call>)
    ensures |calls| == |batch|
  {
    seq(|batch|, i requires 0 <= i < |batch| =>
      CallFor(policy, batch[i], NextOf(batch, beyond, i), i == |batch| - 1 && ReachesPresent(beyond, now), boundary))
  }

  // ---------- A worker, call by call ----------

  /** A pass on its way: the next call is `calls[at]`, with the version that the worker expects. */
  datatype Worker = Idle | Working(policy: Policy, calls: seq<Call>, at: nat, version: nat)
  {
    predicate Valid() { Working? ==> at < |calls| }
  }

  function Begin(row: Row, now: int, cap: nat, boundary: int): (w: Worker)
    ensures w.Valid()
  {
    var batch := Batch(row.epoch.next, row.cursor, now, cap);
    var beyond := Beyond(row.epoch.next, row.cursor, now, cap);
    if batch == [] then Idle
    else Working(row.epoch.policy, Plan(row.epoch.policy, batch, beyond, now, boundary), 0, row.version)
  }

  /**
    After a refusal the pass ends, except that a refused skip under `SkipMissed` goes on to the
    occurrence that is on time, if there is one.
    */
  function Proceed(w: Worker, answer: Answer): (w': Worker)
    requires w.Working? && w.Valid()
    ensures w'.Valid()
    ensures w'.Working? ==> w'.calls == w.calls && w'.at > w.at
  {
    var last := |w.calls| - 1;
    if answer.Done? then
      if w.at == last then Idle else w.(at := w.at + 1, version := w.version + 1)
    else if w.calls[w.at].Skip? && w.policy == SkipMissed && w.calls[last].Materialize? then w.(at := last)
    else Idle
  }

  datatype Attempt = Attempt(call: Call, expected: nat)

  /** The calls that a worker makes when the store gives these answers. */
  function Session(w: Worker, respond: nat -> Answer, n: nat): seq<Attempt>
    requires w.Valid()
    decreases if w.Working? then |w.calls| - w.at else 0
  {
    if w.Idle? then []
    else [Attempt(w.calls[w.at], w.version)] + Session(Proceed(w, respond(n)), respond, n + 1)
  }

  /** The number of turns it reports; None stands for the conflict error. */
  function Turns(w: Worker, respond: nat -> Answer, n: nat): Option<nat>
    requires w.Valid()
    decreases if w.Working? then |w.calls| - w.at else 0
  {
    if w.Idle? then Some(0)
    else if w.calls[w.at].Materialize? && respond(n).Refused? then None
    else
      match Turns(Proceed(w, respond(n)), respond, n + 1)
      case None => None
      case Some(rest) => Some(rest + if w.calls[w.at].Materialize? && respond(n).turn then 1 else 0)
  }

  // ---------- The pass itself ----------

  function AddTurns(count: nat, more: Option<nat>): Option<nat> {
    match more case None => None case Some(n) => Some(count + n)
  }

  /** The worker, the calls so far and the turns so far are midway through the pass that `begun` begins. */
  ghost function Midway(begun: Worker, respond: nat -> Answer): (Worker, seq<Attempt>, nat) -> bool {
    (w: Worker, attempts: seq<Attempt>, count: nat) =>
      && begun.Valid() && w.Valid()
      && Session(begun, respond, 0) == attempts + Session(w, respond, |attempts|)
      && Turns(begun, respond, 0) == AddTurns(count, Turns(w, respond, |attempts|))
  }

  lemma OneMoreCall(begun: Worker, w: Worker, respond: nat -> Answer, attempts: seq<Attempt>, count: nat)
    requires w.Working? && Midway(begun, respond)(w, attempts, count)
    requires w.calls[w.at].Materialize? ==> respond(|attempts|).Done?
    ensures Midway(begun, respond)(Proceed(w, respond(|attempts|)), attempts + [Attempt(w.calls[w.at], w.version)],
                   count + if w.calls[w.at].Materialize? && respond(|attempts|).turn then 1 else 0)
  {
    var w' := Proceed(w, respond(|attempts|));
    var a := Attempt(w.calls[w.at], w.version);
    var rest := Session(w', respond, |attempts| + 1);
    assert attempts + ([a] + rest) == (attempts + [a]) + rest;
  }

  lemma OneRefusal(begun: Worker, w: Worker, respond: nat -> Answer, attempts: seq<Attempt>, count: nat)
    requires w.Working? && Midway(begun, respond)(w, attempts, count)
    requires w.calls[w.at].Materialize? && respond(|attempts|).Refused?
    ensures Turns(begun, respond, 0) == None
    ensures Session(begun, respond, 0) == attempts + [Attempt(w.calls[w.at], w.version)]
  {
    assert Proceed(w, respond(|attempts|)) == Idle;
    assert Session(w, respond, |attempts|) == [Attempt(w.calls[w.at], w.version)] + [];
  }

  method GatherOccurrences(row: Row, now: int, cap: nat) returns (occurrences: seq<int>, current: Option<int>)
    ensures occurrences == Batch(row.epoch.next, row.cursor, now, cap)
    ensures current == Beyond(row.epoch.next, row.cursor, now, cap)
  {
    occurrences, current := [], row.cursor;
    while current.Some? && current.value <= now && |occurrences| < cap
      invariant |occurrences| <= cap
      invariant Batch(row.epoch.next, row.cursor, now, cap)
             == occurrences + Batch(row.epoch.next, current, now, cap - |occurrences|)
      invariant Beyond(row.epoch.next, row.cursor, now, cap)
             == Beyond(row.epoch.next, current, now, cap - |occurrences|)
      decreases cap - |occurrences|
    {
      ghost var rest := Batch(row.epoch.next, row.epoch.next(current.value), now, cap - |occurrences| - 1);
      assert occurrences + ([current.value] + rest) == (occurrences + [current.value]) + rest;
      occurrences := occurrences + [current.value];
      current := row.epoch.next(current.value);
    }
  }

  /** The worker after `n` calls that all went well. */
  function Later(w: Worker, n: nat): (w': Worker)
    requires w.Working? && w.at + n <= |w.calls|
    ensures w'.Valid()
  {
    if w.at + n == |w.calls| then Idle else w.(at := w.at + n, version := w.version + n)
  }

  ghost predicate Skips(w: Worker, occurrences: seq<int>, current: Option<int>, count: nat) {
    && w.Working? && w.at == 0 && |w.calls| == |occurrences| && count <= |occurrences| != 0
    && forall i :: 0 <= i < count ==> w.calls[i] == Skip(occurrences[i], NextOf(occurrences, current, i))
  }

  /** Records the first `count` occurrences as skipped, until the store refuses. */
  method SkipFirst(occurrences: seq<int>, current: Option<int>, count: nat, version: nat, respond: nat -> Answer,
                   ghost begun: Worker)
    returns (attempts: seq<Attempt>, refused: bool, ghost w: Worker)
    requires Skips(begun, occurrences, current, count) && begun.version == version
    ensures Midway(begun, respond)(w, attempts, 0)
    ensures !refused ==> |attempts| == count && w == Later(begun, count)
    ensures refused ==> 0 < |attempts| <= count && w == Proceed(Later(begun, |attempts| - 1), Refused)
  {
    attempts, refused, w := [], false, begun;
    var i := 0;
    while i < count
      invariant i <= count && |attempts| == i
      invariant Midway(begun, respond)(w, attempts, 0)
      invariant w == Later(begun, i)
    {
      var call := Skip(occurrences[i], NextOf(occurrences, current, i));
      attempts, refused, w := SkipOne(call, version + i, respond, attempts, begun, w);
      if refused {
        return;
      }
      i := i + 1;
    }
  }

  /** One call of `record_skipped`. */
  method SkipOne(call: Call, expected: nat, respond: nat -> Answer, attempts: seq<Attempt>,
                 ghost begun: Worker, ghost w: Worker)
    returns (attempts': seq<Attempt>, refused: bool, ghost w': Worker)
    requires w.Working? && Midway(begun, respond)(w, attempts, 0)
    requires call == w.calls[w.at] && call.Skip? && expected == w.version
    ensures Midway(begun, respond)(w', attempts', 0) && |attempts'| == |attempts| + 1
    ensures w' == if refused then Proceed(w, Refused) else Later(w, 1)
  {
    OneMoreCall(begun, w, respond, attempts, 0);
    w' := Proceed(w, respond(|attempts|));
    refused := respond(|attempts|).Refused?;
    attempts' := attempts + [Attempt(call, expected)];
  }

  /** A worker that is to materialize all occurrences from its next one on. */
  ghost function Materializes(occurrences: seq<int>, current: Option<int>, boundary: int): Worker -> bool {
    (w: Worker) =>
      && w.Working? && w.Valid() && |w.calls| == |occurrences|
      && forall i :: w.at <= i < |occurrences| ==>
           w.calls[i]
           == Materialize(occurrences[i], NextOf(occurrences, current, i), TriggerOf(occurrences[i], boundary))
  }

  ghost predicate Stands(w: Worker, at: nat, version: nat) { w.Working? && w.at == at && w.version == version }

  /** Materializes the occurrences from `first` on. */
  method MaterializeFrom(occurrences: seq<int>, current: Option<int>, first: nat, version: nat, boundary: int,
                         respond: nat -> Answer, made: seq<Attempt>, ghost begun: Worker, ghost w: Worker)
    returns (attempts: seq<Attempt>, count: Option<nat>)
    requires Stands(w, first, version) && Materializes(occurrences, current, boundary)(w)
    requires Midway(begun, respond)(w, made, 0)
    ensures begun.Valid() && attempts == Session(begun, respond, 0) && count == Turns(begun, respond, 0)
  {
    attempts := made;
    var turns, i, expected, conflict := 0, first, version, false;
    ghost var now := w;
    while i < |occurrences|
      invariant i <= |occurrences| && Midway(begun, respond)(now, attempts, turns)
      invariant if i == |occurrences| then now == Idle
                else Stands(now, i, expected) && Materializes(occurrences, current, boundary)(now)
    {
      attempts, turns, conflict, now :=
        MaterializeOne(occurrences, current, i, expected, boundary, respond, attempts, turns, begun, now);
      if conflict {
        return attempts, None;
      }
      i, expected := i + 1, expected + 1;
    }
    MidwayDone(begun, respond, attempts, turns);
    count := Some(turns);
  }

  lemma MidwayDone(begun: Worker, respond: nat -> Answer, attempts: seq<Attempt>, count: nat)
    requires Midway(begun, respond)(Idle, attempts, count)
    ensures begun.Valid() && attempts == Session(begun, respond, 0) && Some(count) == Turns(begun, respond, 0)
  {
    assert attempts + [] == attempts;
  }

  /** One call of `materialize`. */
  method MaterializeOne(occurrences: seq<int>, current: Option<int>, i: nat, expected: nat, boundary: int,
                        respond: nat -> Answer, attempts: seq<Attempt>, turns: nat,
                        ghost begun: Worker, ghost w: Worker)
    returns (attempts': seq<Attempt>, turns': nat, conflict: bool, ghost w': Worker)
    requires i < |occurrences| && Stands(w, i, expected) && Materializes(occurrences, current, boundary)(w)
    requires Midway(begun, respond)(w, attempts, turns)
    ensures conflict ==>
              begun.Valid() && attempts' == Session(begun, respond, 0) && Turns(begun, respond, 0) == None
    ensures !conflict ==> Midway(begun, respond)(w', attempts', turns')
    ensures !conflict ==>
              if i + 1 == |occurrences| then w' == Idle
              else Stands(w', i + 1, expected + 1) && Materializes(occurrences, current, boundary)(w')
  {
    var call := Materialize(occurrences[i], NextOf(occurrences, current, i), TriggerOf(occurrences[i], boundary));
    var answer := respond(|attempts|);
    attempts', turns', conflict, w' := attempts + [Attempt(call, expected)], turns, answer.Refused?, Idle;
    assert call == w.calls[w.at];
    if conflict {
      OneRefusal(begun, w, respond, attempts, turns);
    } else {
      OneMoreCall(begun, w, respond, attempts, turns);
      turns', w' := turns + if answer.turn then 1 else 0, Proceed(w, answer);
    }
  }

  function OnTimeBoundary(now: int, pollMs: int): int { now - if pollMs > 5000 then pollMs else 5000 }

  /** An occurrence is on time when it is no older than `pollMs` or no older than five seconds. */
  lemma OnTimeExactly(now: int, pollMs: int, occurrence: int)
    ensures occurrence >= OnTimeBoundary(now, pollMs) <==> now - occurrence <= pollMs || now - occurrence <= 5000
  {
  }

  /** Which calls skip and which materialize, for each policy. */
  ghost predicate Shaped(w: Worker, policy: Policy, batch: seq<int>, beyond: Option<int>, now: int, boundary: int,
                         version: nat)
  {
    && |batch| > 0 && w.Working? && w.Valid() && |batch| == |w.calls|
    && w.at == 0 && w.version == version && w.policy == policy
    && var last := |batch| - 1;
       var latest := ReachesPresent(beyond, now) && (policy == SkipMissed ==> batch[last] >= boundary);
       if policy == Every then Materializes(batch, beyond, boundary)(w)
       else if latest then
         && Skips(w, batch, beyond, last)
         && forall version: nat :: Materializes(batch, beyond, boundary)(w.(at := last, version := version))
       else Skips(w, batch, beyond, last + 1)
  }

  lemma PlanShape(row: Row, now: int, cap: nat, boundary: int)
    requires Batch(row.epoch.next, row.cursor, now, cap) != []
    ensures Shaped(Begin(row, now, cap, boundary), row.epoch.policy, Batch(row.epoch.next, row.cursor, now, cap),
                   Beyond(row.epoch.next, row.cursor, now, cap), now, boundary, row.version)
  {
  }

  /**
    One pass over a due schedule, against a store that answers as it likes: the calls it makes, each with
    the version it expects, and the number of turns, or None for a conflict. `pollMs` is twice the polling
    interval.
    */
  method ProcessDue(schedule: Row, now: int, cap: nat, pollMs: int, respond: nat -> Answer)
    returns (attempts: seq<Attempt>, count: Option<nat>)
    ensures var w := Begin(schedule, now, cap, OnTimeBoundary(now, pollMs));
            attempts == Session(w, respond, 0) && count == Turns(w, respond, 0)
  {
    var boundary := OnTimeBoundary(now, pollMs);
    var occurrences, current := GatherOccurrences(schedule, now, cap);
    if |occurrences| == 0 {
      return [], Some(0);
    }
    PlanShape(schedule, now, cap, boundary);
    attempts, count := ProcessOccurrences(schedule.epoch.policy, occurrences, current, now, boundary, schedule.version,
                                          respond, Begin(schedule, now, cap, boundary));
  }

  /** The pass over the occurrences that it gathered. */
  method ProcessOccurrences(policy: Policy, occurrences: seq<int>, current: Option<int>, now: int, boundary: int,
                            startVersion: nat, respond: nat -> Answer, ghost begun: Worker)
    returns (attempts: seq<Attempt>, count: Option<nat>)
    requires Shaped(begun, policy, occurrences, current, now, boundary, startVersion)
    ensures attempts == Session(begun, respond, 0) && count == Turns(begun, respond, 0)
  {
    match policy
    case SkipMissed =>
      attempts, count := ProcessSkipMissed(occurrences, current, now, boundary, startVersion, respond, begun);
    case LatestOnly =>
      attempts, count := ProcessLatestOnly(occurrences, current, now, boundary, startVersion, respond, begun);
    case Every =>
      attempts, count := MaterializeFrom(occurrences, current, 0, startVersion, boundary, respond, [], begun, begun);
  }

  /** After `k` skips, all of them or those before a refusal, the last occurrence is left to materialize. */
  lemma LastIsLeft(policy: Policy, batch: seq<int>, beyond: Option<int>, now: int, boundary: int, version: nat,
                   begun: Worker, k: nat, refused: bool)
    requires Shaped(begun, policy, batch, beyond, now, boundary, version) && policy != Every
    requires ReachesPresent(beyond, now) && (policy == SkipMissed ==> batch[|batch| - 1] >= boundary)
    requires if refused then k < |batch| - 1 && policy == SkipMissed else k == |batch| - 1
    ensures k < |begun.calls| && begun.at == 0
    ensures var w := if refused then Proceed(Later(begun, k), Refused) else Later(begun, k);
            Stands(w, |batch| - 1, version + k) && Materializes(batch, beyond, boundary)(w)
  {
    var last := |batch| - 1;
    var w := begun.(at := last, version := version + k);
    assert Materializes(batch, beyond, boundary)(w);
    assert w.calls[last].Materialize?;
    assert k < last ==> begun.calls[k].Skip?;
  }

  /** Skips all but the occurrence that is on time, if there is one; a refusal goes on with that one. */
  method ProcessSkipMissed(occurrences: seq<int>, current: Option<int>, now: int, boundary: int,
                           version: nat, respond: nat -> Answer, ghost begun: Worker)
    returns (attempts: seq<Attempt>, count: Option<nat>)
    requires Shaped(begun, SkipMissed, occurrences, current, now, boundary, version)
    ensures attempts == Session(begun, respond, 0) && count == Turns(begun, respond, 0)
  {
    var last := |occurrences| - 1;
    var onTime := ReachesPresent(current, now) && occurrences[last] >= boundary;
    var skipped := if onTime then last else last + 1;
    var refused;
    ghost var w;
    attempts, refused, w := SkipFirst(occurrences, current, skipped, version, respond, begun);
    if !onTime {
      MidwayDone(begun, respond, attempts, 0);
      return attempts, Some(0);
    }
    var expected := version + if refused then |attempts| - 1 else last;
    LastIsLeft(SkipMissed, occurrences, current, now, boundary, version, begun,
               if refused then |attempts| - 1 else last, refused);
    attempts, count := MaterializeFrom(occurrences, current, last, expected, boundary, respond, attempts, begun, w);
  }

  /** Skips all but the latest occurrence before the present; a refusal ends the pass. */
  method ProcessLatestOnly(occurrences: seq<int>, current: Option<int>, now: int, boundary: int,
                           version: nat, respond: nat -> Answer, ghost begun: Worker)
    returns (attempts: seq<Attempt>, count: Option<nat>)
    requires Shaped(begun, LatestOnly, occurrences, current, now, boundary, version)
    ensures attempts == Session(begun, respond, 0) && count == Turns(begun, respond, 0)
  {
    var last := |occurrences| - 1;
    var reaches := ReachesPresent(current, now);
    var refused;
    ghost var w;
    attempts, refused, w :=
      SkipFirst(occurrences, current, if reaches then last else last + 1, version, respond, begun);
    if !reaches || refused {
      MidwayDone(begun, respond, attempts, 0);
      return attempts, Some(0);
    }
    LastIsLeft(LatestOnly, occurrences, current, now, boundary, version, begun, last, false);
    attempts, count :=
      MaterializeFrom(occurrences, current, last, version + last, boundary, respond, attempts, begun, w);
  }
}
