/**
  Any number of coordinators over one schedule, with crashes, stale snapshots and edits by users between
  any two calls of the store: the fires of an epoch are an exact prefix of its enumeration.
  */
module LedgerRuns {
  import opened Results
  import opened Runs
  import opened ScheduleLedger

  // ---------- The enumeration ----------

  ghost predicate Advancing(next: int -> Option<int>) { forall t :: next(t).Some? ==> next(t).value > t }

  /** Number `k` of start, next(start), next(next(start)), ... */
  function Nth(next: int -> Option<int>, start: Option<int>, k: nat): Option<int> {
    if k == 0 then start
    else match Nth(next, start, k - 1) case None => None case Some(t) => next(t)
  }

  lemma {:induction false} NthGrows(next: int -> Option<int>, start: Option<int>, j: nat, k: nat)
    requires Advancing(next) && j < k && Nth(next, start, k).Some?
    ensures Nth(next, start, j).Some? && Nth(next, start, j).value < Nth(next, start, k).value
  {
    if j < k - 1 {
      NthGrows(next, start, j, k - 1);
    }
  }

  // ---------- What every row satisfies ----------

  ghost predicate Increasing(fires: seq<Fire>) { forall i, j :: 0 <= i < j < |fires| ==> fires[i].due < fires[j].due }

  ghost predicate AllBefore(fires: seq<Fire>, t: int) { forall i :: 0 <= i < |fires| ==> fires[i].due < t }

  /** The fires since the last edit are the first elements of the enumeration, in order. */
  ghost predicate Enumerated(fires: seq<Fire>, epoch: Epoch) {
    epoch.base <= |fires| &&
    forall i :: epoch.base <= i < |fires| ==> Some(fires[i].due) == Nth(epoch.next, epoch.start, i - epoch.base)
  }

  /** The first occurrence that is not recorded yet. */
  ghost function FirstUnrecorded(row: Row): Option<int>
    requires row.epoch.base <= |row.fires|
  {
    Nth(row.epoch.next, row.epoch.start, |row.fires| - row.epoch.base)
  }

  ghost predicate Exact(row: Row) {
    && Advancing(row.epoch.next)
    && Increasing(row.fires) && Enumerated(row.fires, row.epoch)
    && |row.fires| <= row.version
    && (row.status == Active ==> row.cursor == FirstUnrecorded(row))
    && (row.status != Active ==> row.cursor == None)
    && (row.status == Completed ==> FirstUnrecorded(row) == None)
    && (row.cursor.Some? ==> AllBefore(row.fires, row.cursor.value))
  }

  /** Every record and every edit bumps the version, so what is left counts the edits. */
  function Edits(row: Row): int { row.version - |row.fires| }

  // ---------- Steps ----------

  /** A coordinator: its pass and the snapshot of the row that the pass is based on. */
  datatype Process = Process(worker: Worker, seen: Row)

  datatype State = State(row: Row, processes: seq<Process>)

  /** An edit: pause, resume, update, block or delete. An edit that leaves the schedule active sets a cursor. */
  ghost predicate Edited(row: Row, row': Row) {
    && row'.version == row.version + 1 && row'.fires == row.fires
    && row'.status != Completed && (row'.status == Active <==> row'.cursor.Some?)
    && Advancing(row'.epoch.next)
    && row'.epoch.start == row'.cursor && row'.epoch.base == |row.fires|
  }

  /** An edit that sets a cursor sets it past everything recorded. */
  ghost predicate FreshEdit(s: State, step: Step) {
    step.Edit? && step.edited.cursor.Some? ==> AllBefore(s.row.fires, step.edited.cursor.value)
  }

  datatype Step =
    | BeginPass(i: nat, now: int, cap: nat, boundary: int)
    | NextCall(i: nat, target: Target)
    | Crash(i: nat)
    | Edit(edited: Row)

  ghost predicate Enabled(s: State, step: Step) {
    match step
    case BeginPass(i, now, _, _) =>
      && i < |s.processes| && s.processes[i].worker.Idle?
      && s.row.status == Active && s.row.cursor.Some? && s.row.cursor.value <= now
    case NextCall(i, _) => i < |s.processes| && s.processes[i].worker.Working? && s.processes[i].worker.Valid()
    case Crash(i) => i < |s.processes|
    case Edit(edited) => Edited(s.row, edited)
  }

  ghost function CallResult(s: State, i: nat, target: Target): (Row, Answer)
    requires i < |s.processes| && s.processes[i].worker.Working? && s.processes[i].worker.Valid()
  {
    var w := s.processes[i].worker;
    Perform(s.row, w.calls[w.at], w.version, target)
  }

  ghost function Apply(s: State, step: Step): State
    requires Enabled(s, step)
  {
    match step
    case BeginPass(i, now, cap, boundary) =>
      s.(processes := s.processes[i := Process(Begin(s.row, now, cap, boundary), s.row)])
    case NextCall(i, target) =>
      var p := s.processes[i];
      var (row, answer) := CallResult(s, i, target);
      State(row, s.processes[i := p.(worker := Proceed(p.worker, answer))])
    case Crash(i) => s.(processes := s.processes[i := s.processes[i].(worker := Idle)])
    case Edit(edited) => s.(row := edited)
  }

  // ---------- What every process satisfies ----------

  /** How the row can differ from what it was. */
  ghost predicate Moved(row: Row, row': Row) {
    && row.fires <= row'.fires
    && Edits(row) <= Edits(row') && (Edits(row) == Edits(row') ==> row.epoch == row'.epoch)
    && (row.version == row'.version ==> row == row')
  }

  /** The calls go through the enumeration from the snapshot's cursor on. */
  ghost predicate Follows(calls: seq<Call>, seen: Row) {
    && Exact(seen) && seen.status == Active
    && forall i :: 0 <= i < |calls| ==> FollowsAt(calls[i], seen, i)
  }

  ghost predicate FollowsAt(call: Call, seen: Row, i: nat)
    requires seen.epoch.base <= |seen.fires|
  {
    var n := |seen.fires| - seen.epoch.base + i;
    && Some(call.due) == Nth(seen.epoch.next, seen.epoch.start, n)
    && call.next == Nth(seen.epoch.next, seen.epoch.start, n + 1)
  }

  /** The version that the worker expects will never be the current one of an active row. */
  ghost predicate Outdated(row: Row, version: nat) {
    row.version > version || (row.version == version && row.status != Active)
  }

  ghost predicate UpToDate(w: Worker, seen: Row, row: Row)
    requires w.Working? && w.Valid()
  {
    w.version == seen.version + w.at && forall i :: 0 <= i < w.at ==> Recorded(row.fires, w.calls[i].due)
  }

  ghost predicate Consistent(p: Process, row: Row) {
    p.worker.Idle? ||
    (&& p.worker.Valid() && Follows(p.worker.calls, p.seen)
     && Moved(p.seen, row)
     && (UpToDate(p.worker, p.seen, row)
         || (Outdated(row, p.worker.version) && p.worker.calls[p.worker.at].Materialize?
             && p.worker.at == |p.worker.calls| - 1)))
  }

  ghost predicate Inv(s: State) {
    Exact(s.row) && forall i :: 0 <= i < |s.processes| ==> Consistent(s.processes[i], s.row)
  }

  // ---------- A batch follows the enumeration ----------

  lemma {:induction false} BatchFollows(next: int -> Option<int>, start: Option<int>, k: nat, now: int, cap: nat,
                                        i: nat)
    requires i < |Batch(next, Nth(next, start, k), now, cap)|
    ensures var batch := Batch(next, Nth(next, start, k), now, cap);
            var beyond := Beyond(next, Nth(next, start, k), now, cap);
            && Some(batch[i]) == Nth(next, start, k + i)
            && NextOf(batch, beyond, i) == Nth(next, start, k + i + 1)
    decreases cap
  {
    var cursor := Nth(next, start, k);
    var rest := Batch(next, next(cursor.value), now, cap - 1);
    assert Nth(next, start, k + 1) == next(cursor.value);
    if i > 0 {
      BatchFollows(next, start, k + 1, now, cap - 1, i - 1);
    } else if |rest| > 0 {
      BatchFollows(next, start, k + 1, now, cap - 1, 0);
    } else {
      EmptyBatch(next, next(cursor.value), now, cap - 1);
    }
  }

  lemma EmptyBatch(next: int -> Option<int>, cursor: Option<int>, now: int, cap: nat)
    requires Batch(next, cursor, now, cap) == []
    ensures Beyond(next, cursor, now, cap) == cursor
  {
  }

  lemma BeginIsConsistent(row: Row, now: int, cap: nat, boundary: int)
    requires Exact(row) && row.status == Active
    ensures Consistent(Process(Begin(row, now, cap, boundary), row), row)
  {
    var w := Begin(row, now, cap, boundary);
    if w.Working? {
      forall i | 0 <= i < |w.calls|
        ensures FollowsAt(w.calls[i], row, i)
      {
        BatchFollows(row.epoch.next, row.epoch.start, |row.fires| - row.epoch.base, now, cap, i);
      }
    }
  }

  // ---------- Counting ----------

  /** Calls that are all recorded take up as many fires after those of the snapshot. */
  lemma {:induction false} EnoughFires(calls: seq<Call>, seen: Row, fires: seq<Fire>, n: nat) returns (p: nat)
    requires Follows(calls, seen) && seen.fires <= fires && Increasing(fires)
    requires 0 < n <= |calls| && forall i :: 0 <= i < n ==> Recorded(fires, calls[i].due)
    ensures |seen.fires| + n - 1 <= p < |fires| && fires[p].due == calls[n - 1].due
  {
    assert Recorded(fires, calls[n - 1].due);
    p :| 0 <= p < |fires| && fires[p].due == calls[n - 1].due;
    assert FollowsAt(calls[n - 1], seen, n - 1);
    if n == 1 {
      assert Some(calls[0].due) == seen.cursor;
      forall j | 0 <= j < |seen.fires| ensures fires[j].due < calls[0].due {
        assert fires[j] == seen.fires[j];
      }
    } else {
      var q := EnoughFires(calls, seen, fires, n - 1);
      assert FollowsAt(calls[n - 2], seen, n - 2);
      assert calls[n - 2].due < calls[n - 1].due;
    }
  }

  /** An up-to-date worker never expects a version from the future. */
  lemma VersionReached(p: Process, row: Row)
    requires Exact(row) && Consistent(p, row) && p.worker.Working? && UpToDate(p.worker, p.seen, row)
    ensures |row.fires| >= |p.seen.fires| + p.worker.at && row.version >= p.worker.version
  {
    if p.worker.at > 0 {
      var q := EnoughFires(p.worker.calls, p.seen, row.fires, p.worker.at);
    }
  }

  /** When the version is the expected one, the next call is for the cursor. */
  lemma CallIsForCursor(p: Process, row: Row)
    requires Exact(row) && Consistent(p, row) && p.worker.Working? && UpToDate(p.worker, p.seen, row)
    requires row.status == Active && row.version == p.worker.version
    ensures var call := p.worker.calls[p.worker.at];
            && row.cursor == Some(call.due) && !Recorded(row.fires, call.due)
            && call.next == Nth(row.epoch.next, row.epoch.start, |row.fires| + 1 - row.epoch.base)
  {
    VersionReached(p, row);
    assert FollowsAt(p.worker.calls[p.worker.at], p.seen, p.worker.at);
  }

  // ---------- What the calls keep ----------

  /** The row after one more fire at the cursor. */
  lemma RecordAtCursor(row: Row, row': Row, fire: Fire)
    requires Exact(row) && row.cursor == Some(fire.due)
    requires row'.fires == row.fires + [fire] && row'.version == row.version + 1 && row'.epoch == row.epoch
    requires row'.cursor == if row'.status == Active then FirstUnrecorded(row') else None
    requires row'.status == Completed ==> FirstUnrecorded(row') == None
    ensures Exact(row') && Moved(row, row')
  {
    var n := |row.fires| - row.epoch.base;
    if row'.cursor.Some? {
      NthGrows(row.epoch.next, row.epoch.start, n, n + 1);
    }
  }

  lemma CallKeepsRow(p: Process, row: Row, target: Target)
    requires Exact(row) && Consistent(p, row) && p.worker.Working?
    ensures var (row', answer) := Perform(row, p.worker.calls[p.worker.at], p.worker.version, target);
            && Exact(row') && Moved(row, row')
            && (answer.Done? ==> Recorded(row'.fires, p.worker.calls[p.worker.at].due))
            && (answer.Refused? ==> row' == row)
  {
    var w := p.worker;
    var call := w.calls[w.at];
    var (row', answer) := Perform(row, call, w.version, target);
    if row' != row {
      assert UpToDate(w, p.seen, row);
      CallIsForCursor(p, row);
      var fire := row'.fires[|row.fires|];
      assert row'.fires == row.fires + [fire];
      RecordAtCursor(row, row', fire);
      assert Recorded(row'.fires, call.due);
    }
  }

  lemma CallKeepsProcess(p: Process, row: Row, target: Target)
    requires Exact(row) && Consistent(p, row) && p.worker.Working?
    ensures var (row', answer) := Perform(row, p.worker.calls[p.worker.at], p.worker.version, target);
            Consistent(p.(worker := Proceed(p.worker, answer)), row')
  {
    var w := p.worker;
    var (row', answer) := Perform(row, w.calls[w.at], w.version, target);
    CallKeepsRow(p, row, target);
    StaysConsistent(p, row, row');
    if w.calls[w.at].Skip? && answer.Refused? {
      VersionReached(p, row);
    }
  }

  /** What other workers and users do to the row leaves a process consistent. */
  lemma StaysConsistent(p: Process, row: Row, row': Row)
    requires Consistent(p, row) && Moved(row, row')
    ensures Consistent(p, row')
  {
    if p.worker.Working? && UpToDate(p.worker, p.seen, row) {
      forall i | 0 <= i < p.worker.at ensures Recorded(row'.fires, p.worker.calls[i].due) {
        assert Recorded(row.fires, p.worker.calls[i].due);
      }
    }
  }

  lemma EditKeepsRow(row: Row, row': Row)
    requires Exact(row) && Edited(row, row') && (row'.cursor.Some? ==> AllBefore(row.fires, row'.cursor.value))
    ensures Exact(row') && Moved(row, row')
  {
  }

  lemma RowMoves(s: State, step: Step)
    requires Inv(s) && Enabled(s, step) && FreshEdit(s, step)
    ensures Exact(Apply(s, step).row) && Moved(s.row, Apply(s, step).row)
  {
    match step
    case BeginPass(_, _, _, _) =>
    case Crash(_) =>
    case NextCall(i, target) => CallKeepsRow(s.processes[i], s.row, target);
    case Edit(edited) => EditKeepsRow(s.row, edited);
  }

  lemma StepKeepsInv(s: State, step: Step)
    requires Inv(s) && Enabled(s, step) && FreshEdit(s, step)
    ensures Inv(Apply(s, step))
  {
    var s' := Apply(s, step);
    RowMoves(s, step);
    forall i | 0 <= i < |s'.processes|
      ensures Consistent(s'.processes[i], s'.row)
    {
      StaysConsistent(s.processes[i], s.row, s'.row);
      if step.NextCall? && step.i == i {
        CallKeepsProcess(s.processes[i], s.row, step.target);
      }
      if step.BeginPass? && step.i == i {
        BeginIsConsistent(s.row, step.now, step.cap, step.boundary);
      }
    }
  }

  // ---------- Runs ----------

  ghost predicate Initial(s: State) {
    && s.row.fires == [] && s.row.status == Active && s.row.cursor.Some?
    && s.row.epoch.start == s.row.cursor && s.row.epoch.base == 0 && Advancing(s.row.epoch.next)
    && forall i :: 0 <= i < |s.processes| ==> s.processes[i].worker.Idle?
  }

  /** The runs in which every edit is fresh. */
  ghost function Scheduling(): Machine<State, Step> {
    Machine(s => Initial(s), (s, step, s') => Enabled(s, step) && FreshEdit(s, step) && s' == Apply(s, step))
  }

  ghost predicate KeepsRecords(s: State, s': State) { s.row.fires <= s'.row.fires }

  lemma InvIsInvariant()
    ensures Invariant(Scheduling(), s => Inv(s))
    ensures Progress(Scheduling(), s => Inv(s), (s, s') => KeepsRecords(s, s'))
  {
    forall s, step, s' | Inv(s) && Scheduling().next(s, step, s') ensures Inv(s') && s.row.fires <= s'.row.fires {
      StepKeepsInv(s, step);
      RowMoves(s, step);
    }
  }

  /**
    No occurrence is recorded twice; the fires since the last edit are exactly the first ones of the enumeration,
    in order; the cursor of an active schedule is the first unrecorded one.
    */
  ghost predicate LedgerOk(row: Row) {
    && (forall i, j :: 0 <= i < j < |row.fires| ==> row.fires[i].due < row.fires[j].due)
    && row.epoch.base <= |row.fires|
    && (forall i :: row.epoch.base <= i < |row.fires| ==>
          Some(row.fires[i].due) == Nth(row.epoch.next, row.epoch.start, i - row.epoch.base))
    && (row.status == Active ==>
          row.cursor == Nth(row.epoch.next, row.epoch.start, |row.fires| - row.epoch.base))
    && (row.status == Completed ==>
          Nth(row.epoch.next, row.epoch.start, |row.fires| - row.epoch.base) == None)
    && (row.cursor.Some? ==> !Recorded(row.fires, row.cursor.value))
  }

  lemma ExactIsOk(row: Row)
    requires Exact(row)
    ensures LedgerOk(row)
  {
  }

  /** In every reachable state the ledger is in order. */
  lemma LedgerIsExact(states: seq<State>, steps: seq<Step>, k: nat)
    requires Run(Scheduling(), states, steps) && k < |states|
    ensures LedgerOk(states[k].row)
  {
    InvIsInvariant();
    HoldsAlways(Scheduling(), s => Inv(s), states, steps, k);
    ExactIsOk(states[k].row);
  }

  /** A record is never changed or taken back. */
  lemma RecordsStay(states: seq<State>, steps: seq<Step>, j: nat, k: nat)
    requires Run(Scheduling(), states, steps) && j <= k < |states|
    ensures states[j].row.fires <= states[k].row.fires
  {
    InvIsInvariant();
    HoldsBetween(Scheduling(), s => Inv(s), (s, s') => KeepsRecords(s, s'), states, steps, j, k);
  }

  // ---------- Edits that are not fresh ----------

  /** A pass at the very instant of the cursor, for one occurrence, is to materialize it. */
  lemma PassAtCursor(row: Row, c: int)
    requires row.cursor == Some(c) && Advancing(row.epoch.next)
    ensures Begin(row, c, 1, c) == Working(row.epoch.policy, [Materialize(c, row.epoch.next(c), Timer)], 0, row.version)
  {
    assert Batch(row.epoch.next, row.cursor, c, 1) == [c];
    assert Beyond(row.epoch.next, row.cursor, c, 1) == row.epoch.next(c);
    assert |Plan(row.epoch.policy, [c], row.epoch.next(c), c, c)| == 1;
  }

  /** An edit that puts the cursor among the records leads to a ledger out of order, if only one worker acts on it. */
  lemma StaleEditGoesWrong(s: State, edited: Row) returns (s': State)
    requires Enabled(s, Edit(edited)) && !FreshEdit(s, Edit(edited)) && |s.processes| > 0
    ensures Leads(Scheduling(), Apply(s, Edit(edited)), s') && !LedgerOk(s'.row)
  {
    var origin := Apply(s, Edit(edited));
    var c := edited.cursor.value;
    LeadsToItself(Scheduling(), origin);
    if Recorded(edited.fires, c) {
      return origin;
    }
    var idle := Apply(origin, Crash(0));
    LeadsOn(Scheduling(), origin, origin, Crash(0), idle);
    var begun := Apply(idle, BeginPass(0, c, 1, c));
    LeadsOn(Scheduling(), origin, idle, BeginPass(0, c, 1, c), begun);
    PassAtCursor(edited, c);
    s' := Apply(begun, NextCall(0, Available));
    LeadsOn(Scheduling(), origin, begun, NextCall(0, Available), s');
    OutOfOrder(edited.fires, Fire(c, WasMaterialized, Timer), s'.row);
  }

  lemma OutOfOrder(fires: seq<Fire>, fire: Fire, row: Row)
    requires !AllBefore(fires, fire.due) && !Recorded(fires, fire.due) && row.fires == fires + [fire]
    ensures !LedgerOk(row)
  {
    var i :| 0 <= i < |fires| && fires[i].due >= fire.due;
    assert row.fires[i].due >= row.fires[|fires|].due;
  }

  /**
    The exact condition: where there is a worker, an edit keeps the ledger in order, now and in everything that
    fresh edits, passes and crashes lead to, if and only if it puts the cursor past all records.
    */
  lemma EditIsSafeExactly(s: State, edited: Row)
    requires Inv(s) && Enabled(s, Edit(edited)) && |s.processes| > 0
    ensures FreshEdit(s, Edit(edited))
            <==> forall s' :: Leads(Scheduling(), Apply(s, Edit(edited)), s') ==> LedgerOk(s'.row)
  {
    if FreshEdit(s, Edit(edited)) {
      StepKeepsInv(s, Edit(edited));
      InvIsInvariant();
      forall s' | Leads(Scheduling(), Apply(s, Edit(edited)), s') ensures LedgerOk(s'.row) {
        HoldsOnward(Scheduling(), s => Inv(s), Apply(s, Edit(edited)), s');
        ExactIsOk(s'.row);
      }
    } else {
      var s' := StaleEditGoesWrong(s, edited);
    }
  }
}
