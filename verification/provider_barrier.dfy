/**
  Provider effects of one conversation: a barrier is written before the provider is asked to change
  anything, and taken away only when the outcome is settled. Any await can be the last one before a crash.

  Session commands run under the conversation's lock and are turned away while a turn is live; turns are
  queued under the same lock and processed one at a time. That keeps effects apart, as long as no turn
  ceases to be live while its thread start is under way.
  */
module ProviderBarrier {
  import opened Results

  /** The durable barrier, with the interaction it was set for. */
  datatype Barrier = Open | Raised(interaction: Option<nat>)

  /**
    `Picked`: a turn that the mailbox has read. `Passed`: the gate is passed. `Uncertain` and `Refused` are
    the two branches of the failure handler; `Activated` has still to clear.
    */
  datatype Phase = Waiting | Picked | Passed | Begun | Succeeded | Activated | Uncertain | Refused | Over

  /** A session command, or the thread start of a turn. Only `new` and `resume` may meet a barrier or a fence. */
  datatype Kind = Command(strict: bool) | ThreadStart(turn: nat)

  /**
    An operation with a provider effect. `sent`: the provider may have been asked; `applied`: it has done the
    mutation; `settled`: committed, rejected for certain, or acknowledged by the owner.
    */
  datatype Op = Op(kind: Kind, interaction: Option<nat>, phase: Phase, sent: bool, applied: bool, settled: bool)

  /** `live` are the turns that are queued, starting, running or being cancelled in the store. */
  datatype State = State(barrier: Barrier, fenced: bool, ops: seq<Op>, live: set<nat>, turns: nat)

  // ---------- What the program does ----------

  function Put(s: State, i: nat, op: Op): State
    requires i < |s.ops|
  {
    s.(ops := s.ops[i := op])
  }

  function Move(s: State, i: nat, phase: Phase): State
    requires i < |s.ops|
  {
    Put(s, i, s.ops[i].(phase := phase))
  }

  const IN_FLIGHT := {Begun, Succeeded, Activated, Uncertain, Refused}

  /** Past its gate and not over. */
  predicate Busy(op: Op) { op.phase == Passed || op.phase in IN_FLIGHT }

  /** A command holds the conversation's lock from its gate to its end. */
  predicate HoldsLock(op: Op) { op.kind.Command? && Busy(op) }

  predicate LockIsFree(s: State) { forall i :: 0 <= i < |s.ops| ==> !HoldsLock(s.ops[i]) }

  /** A turn is queued under the lock. */
  function Enqueue(s: State): State { s.(live := s.live + {s.turns}, turns := s.turns + 1) }

  /** A turn is cancelled while it is queued, or ends. */
  function Leave(s: State, turn: nat): State { s.(live := s.live - {turn}) }

  /** Every command has an interaction of its own. */
  function Arrives(s: State, strict: bool): State {
    s.(ops := s.ops + [Op(Command(strict), Some(|s.ops|), Waiting, false, false, false)])
  }

  /** Under the lock: no live turn, and for strict commands neither barrier nor fence. */
  function PassGate(s: State, i: nat): State
    requires i < |s.ops| && s.ops[i].kind.Command?
  {
    if s.live != {} || (s.ops[i].kind.strict && (s.barrier.Raised? || s.fenced)) then Move(s, i, Over)
    else Move(s, i, Passed)
  }

  /** The mailbox reads a queued turn; its processing has no other turn beside it. */
  function Pick(s: State, turn: nat): State {
    s.(ops := s.ops + [Op(ThreadStart(turn), None, Picked, false, false, false)])
  }

  /** The turn looks for a barrier and for a fence, without the lock. */
  function PassTurnGate(s: State, i: nat): State
    requires i < |s.ops|
  {
    Move(s, i, if s.barrier.Raised? || s.fenced then Over else Passed)
  }

  /** The store accepts a command's barrier when there is none or when it is the command's own. */
  predicate Accepts(s: State, op: Op) {
    op.interaction.None? || s.barrier.Open? || s.barrier.interaction == op.interaction
  }

  function Begin(s: State, i: nat): State
    requires i < |s.ops|
  {
    var op := s.ops[i];
    if !Accepts(s, op) then Move(s, i, Over)
    else
      Put(s, i, op.(phase := Begun, sent := true))
        .(barrier := if op.interaction.None? && s.barrier.Raised? then s.barrier else Raised(op.interaction))
  }

  /** The provider does the mutation, whether or not anybody still waits for it. */
  function Applies(s: State, i: nat): State
    requires i < |s.ops|
  {
    Put(s, i, s.ops[i].(applied := true))
  }

  /** The local commit. A session command clears its barrier in the same transaction. */
  function Commit(s: State, i: nat): State
    requires i < |s.ops|
  {
    var op := s.ops[i].(settled := true);
    if op.kind.ThreadStart? then Put(s, i, op.(phase := Activated)).(fenced := false)
    else Put(s, i, op.(phase := Over)).(fenced := false, barrier := Open)
  }

  /** The provider refused for certain. */
  function Rejects(s: State, i: nat): State
    requires i < |s.ops|
  {
    Put(s, i, s.ops[i].(phase := Refused, settled := true))
  }

  function ClearBarrier(s: State, i: nat): State
    requires i < |s.ops|
  {
    Move(s, i, Over).(barrier := Open)
  }

  function Stopped(op: Op): Op { op.(phase := Over) }

  /** All tasks of the process are gone; the barrier, the fence and the queue are durable. */
  function Crash(s: State): State {
    s.(ops := seq(|s.ops|, i requires 0 <= i < |s.ops| => Stopped(s.ops[i])))
  }

  /** After a restart, or when it is told to look: the monitor of a raised barrier fences. */
  function Monitor(s: State): State { if s.barrier.Raised? then s.(fenced := true) else s }

  function Acknowledged(op: Op): Op { op.(settled := op.settled || op.sent) }

  /** The owner's `new` or `resume` on a fenced conversation: whatever was left open is acknowledged. */
  function Recover(s: State): State {
    s.(barrier := Open, fenced := false, ops := seq(|s.ops|, i requires 0 <= i < |s.ops| => Acknowledged(s.ops[i])))
  }

  // ---------- Steps ----------

  datatype Step =
    | DoEnqueue
    | DoLeave(turn: nat)
    | DoArrive(strict: bool)
    | DoPassGate(i: nat)
    | DoPick(turn: nat)
    | DoPassTurnGate(i: nat)
    | DoRecover(i: nat)
    | DoBegin(i: nat)
    | DoApply(i: nat)
    | Answers(i: nat)
    | DoReject(i: nat)
    | LosesTrack(i: nat)
    | DoCommit(i: nat)
    | DoClear(i: nat)
    | CleanupFails(i: nat)
    | DoFence(i: nat)
    | DoMonitor
    | DoCrash

  predicate In(s: State, i: nat, phases: set<Phase>) { i < |s.ops| && s.ops[i].phase in phases }

  /** The thread start of a turn that can still raise or lower the barrier. */
  predicate Meddles(op: Op) {
    op.kind.ThreadStart? && (op.phase == Picked || (Busy(op) && op.phase != Uncertain))
  }

  predicate NoneInProcess(s: State) { forall i :: 0 <= i < |s.ops| ==> !Meddles(s.ops[i]) }

  /** A definite refusal means that nothing was applied. */
  predicate Enabled(s: State, step: Step) {
    match step
    case DoEnqueue => LockIsFree(s)
    case DoLeave(_) => true
    case DoArrive(_) => true
    case DoPassGate(i) => In(s, i, {Waiting}) && s.ops[i].kind.Command? && LockIsFree(s)
    case DoPick(turn) => turn in s.live && NoneInProcess(s)
    case DoPassTurnGate(i) => In(s, i, {Picked})
    case DoRecover(i) => In(s, i, {Passed}) && s.ops[i].kind == Command(false) && s.fenced
    case DoBegin(i) => In(s, i, {Passed})
    case DoApply(i) => i < |s.ops| && s.ops[i].sent && !s.ops[i].settled
    case Answers(i) => In(s, i, {Begun}) && s.ops[i].applied
    case DoReject(i) => In(s, i, {Begun}) && !s.ops[i].applied
    case LosesTrack(i) => In(s, i, {Begun, Succeeded, Activated})
    case DoCommit(i) => In(s, i, {Succeeded})
    case DoClear(i) => In(s, i, {Activated, Refused})
    case CleanupFails(i) => In(s, i, {Refused, Uncertain})
    case DoFence(i) => In(s, i, {Uncertain})
    case DoMonitor => true
    case DoCrash => true
  }

  function Apply(s: State, step: Step): State
    requires Enabled(s, step)
  {
    match step
    case DoEnqueue => Enqueue(s)
    case DoLeave(turn) => Leave(s, turn)
    case DoArrive(strict) => Arrives(s, strict)
    case DoPassGate(i) => PassGate(s, i)
    case DoPick(turn) => Pick(s, turn)
    case DoPassTurnGate(i) => PassTurnGate(s, i)
    case DoRecover(_) => Recover(s)
    case DoBegin(i) => Begin(s, i)
    case DoApply(i) => Applies(s, i)
    case Answers(i) => Move(s, i, Succeeded)
    case DoReject(i) => Rejects(s, i)
    case LosesTrack(i) => Move(s, i, Uncertain)
    case DoCommit(i) => Commit(s, i)
    case DoClear(i) => ClearBarrier(s, i)
    case CleanupFails(i) => Move(s, i, Over)
    case DoFence(i) => Move(s, i, Over).(fenced := true)
    case DoMonitor => Monitor(s)
    case DoCrash => Crash(s)
  }

  /** No turn is cancelled while its thread start is between the mailbox and its end. */
  predicate Orderly(s: State, step: Step) {
    step.DoLeave? ==> forall i :: 0 <= i < |s.ops| && Meddles(s.ops[i]) ==> s.ops[i].kind.turn != step.turn
  }

  // ---------- Safety ----------

  /** The provider has done something that nothing local accounts for. */
  predicate Hidden(op: Op) { op.applied && !op.settled }

  /** It may have done so, or may still do so. */
  predicate Exposed(op: Op) { op.sent && !op.settled }

  predicate SomeHidden(s: State) { exists i :: 0 <= i < |s.ops| && Hidden(s.ops[i]) }

  predicate Safe(s: State) { SomeHidden(s) ==> s.barrier.Raised? || s.fenced }

  // ---------- The invariant ----------

  predicate GoodOp(op: Op) {
    && (op.applied ==> op.sent)
    && (op.phase in {Waiting, Picked, Passed} ==> !op.sent && !op.settled)
    && (op.phase in IN_FLIGHT ==> op.sent)
    && (op.phase == Succeeded ==> op.applied)
    && (op.phase in {Activated, Refused} ==> op.settled)
    && (op.phase == Waiting ==> op.kind.Command?) && (op.phase == Picked ==> op.kind.ThreadStart?)
  }

  /** An operation that can lower the barrier. */
  predicate Lowers(op: Op) { op.phase in IN_FLIGHT && op.phase != Uncertain }

  ghost predicate Covered(s: State) {
    && (forall i :: 0 <= i < |s.ops| && (Lowers(s.ops[i]) || Exposed(s.ops[i])) ==> s.barrier.Raised?)
    && (forall i, j :: 0 <= i < |s.ops| && 0 <= j < |s.ops| && i != j && Lowers(s.ops[i]) ==>
          !Lowers(s.ops[j]) && !Exposed(s.ops[j]))
  }

  predicate Engaged(op: Op) { HoldsLock(op) || Meddles(op) }

  /** What the lock, the check for live turns and the mailbox achieve together. */
  ghost predicate Exclusive(s: State) {
    && (forall i, j :: 0 <= i < j < |s.ops| ==> !(Engaged(s.ops[i]) && Engaged(s.ops[j])))
    && (forall i :: 0 <= i < |s.ops| && HoldsLock(s.ops[i]) ==> s.live == {})
    && (forall i :: 0 <= i < |s.ops| && Meddles(s.ops[i]) ==> s.ops[i].kind.turn in s.live)
    && (forall i :: 0 <= i < |s.ops| && Meddles(s.ops[i]) && s.ops[i].phase == Passed ==> s.barrier.Open?)
  }

  /** Interactions are those of their commands; a barrier's interaction is that of a command that has begun. */
  ghost predicate Named(s: State) {
    && (forall i :: 0 <= i < |s.ops| ==> s.ops[i].interaction == if s.ops[i].kind.Command? then Some(i) else None)
    && (s.barrier.Raised? && s.barrier.interaction.Some? ==>
          s.barrier.interaction.value < |s.ops| && s.ops[s.barrier.interaction.value].sent)
  }

  ghost predicate Inv(s: State) {
    && (forall i :: 0 <= i < |s.ops| ==> GoodOp(s.ops[i]))
    && Covered(s) && Exclusive(s) && Named(s)
  }

  /** An operation that begins, and is not turned away by the store, finds no barrier. */
  lemma BeginsFindNoBarrier(s: State, i: nat)
    requires Inv(s) && In(s, i, {Passed})
    ensures Accepts(s, s.ops[i]) <==> s.barrier.Open?
    ensures s.ops[i].kind.ThreadStart? ==> s.barrier.Open?
  {
    assert GoodOp(s.ops[i]);
    assert s.ops[i].kind.ThreadStart? ==> Meddles(s.ops[i]);
  }

  /** A recovery meets no effect that could still lower the barrier. */
  lemma RecoveriesMeetNoEffect(s: State, i: nat)
    requires Inv(s) && Enabled(s, DoRecover(i))
    ensures forall j :: 0 <= j < |s.ops| ==> !Lowers(s.ops[j])
  {
    assert HoldsLock(s.ops[i]);
    forall j | 0 <= j < |s.ops| && Lowers(s.ops[j]) ensures Engaged(s.ops[j]) {
      assert Busy(s.ops[j]);
    }
  }

  /** Nothing that matters to the others becomes more: the operation only moves on towards its end. */
  predicate Quieter(before: Op, after: Op) {
    && GoodOp(after) && after.kind == before.kind && after.interaction == before.interaction
    && (before.sent ==> after.sent) && (Exposed(after) ==> Exposed(before)) && (Lowers(after) ==> Lowers(before))
    && (HoldsLock(after) ==> HoldsLock(before)) && (Meddles(after) ==> Meddles(before))
    && (after.phase == Passed ==> before.phase == Passed)
  }

  lemma QuieterKeepsInv(s: State, s': State, i: nat)
    requires Inv(s) && i < |s.ops| == |s'.ops| && Quieter(s.ops[i], s'.ops[i])
    requires s' == s.(ops := s.ops[i := s'.ops[i]], fenced := s'.fenced)
    ensures Inv(s')
  {
  }

  lemma BeginKeepsInv(s: State, i: nat)
    requires Inv(s) && In(s, i, {Passed})
    ensures Inv(Begin(s, i))
  {
    BeginsFindNoBarrier(s, i);
    if s.barrier.Open? {
      AcceptedBeginKeepsInv(s, i);
    } else {
      QuieterKeepsInv(s, Begin(s, i), i);
    }
  }

  lemma AcceptedBeginKeepsInv(s: State, i: nat)
    requires Inv(s) && In(s, i, {Passed}) && s.barrier.Open?
    ensures Inv(Begin(s, i))
  {
    var s' := Begin(s, i);
    assert Engaged(s.ops[i]);
    assert Named(s') && Exclusive(s');
  }

  lemma CommitKeepsInv(s: State, i: nat)
    requires Inv(s) && Enabled(s, DoCommit(i))
    ensures Inv(Commit(s, i))
  {
    assert Lowers(s.ops[i]) && Engaged(s.ops[i]);
    if s.ops[i].kind.ThreadStart? {
      QuieterKeepsInv(s, Commit(s, i), i);
    } else {
      LoweringKeepsInv(s, Commit(s, i), i);
    }
  }

  /** The operation in flight is settled and over, and takes the barrier down. */
  lemma LoweringKeepsInv(s: State, s': State, i: nat)
    requires Inv(s) && i < |s.ops| == |s'.ops| && Lowers(s.ops[i])
    requires s' == s.(barrier := Open, fenced := s'.fenced, ops := s.ops[i := s'.ops[i]])
    requires s'.ops[i].phase == Over && s'.ops[i].settled && Quieter(s.ops[i], s'.ops[i])
    ensures Inv(s')
  {
  }

  lemma RecoverKeepsInv(s: State, i: nat)
    requires Inv(s) && Enabled(s, DoRecover(i))
    ensures Inv(Recover(s))
  {
    RecoveriesMeetNoEffect(s, i);
  }

  lemma QueueKeepsInv(s: State, step: Step)
    requires Inv(s) && Enabled(s, step) && Orderly(s, step) && (step.DoEnqueue? || step.DoLeave?)
    ensures Inv(Apply(s, step))
  {
  }

  lemma ArriveKeepsInv(s: State, strict: bool)
    requires Inv(s)
    ensures Inv(Arrives(s, strict))
  {
  }

  lemma PassGateKeepsInv(s: State, i: nat)
    requires Inv(s) && Enabled(s, DoPassGate(i))
    ensures Inv(PassGate(s, i))
  {
    var s' := PassGate(s, i);
    if s'.ops[i].phase == Over {
      QuieterKeepsInv(s, s', i);
    } else {
      assert forall j :: 0 <= j < |s.ops| ==> !Engaged(s.ops[j]);
    }
  }

  lemma PickKeepsInv(s: State, turn: nat)
    requires Inv(s) && Enabled(s, DoPick(turn))
    ensures Inv(Pick(s, turn))
  {
    assert forall j :: 0 <= j < |s.ops| ==> !Engaged(s.ops[j]);
  }

  lemma PassTurnGateKeepsInv(s: State, i: nat)
    requires Inv(s) && Enabled(s, DoPassTurnGate(i))
    ensures Inv(PassTurnGate(s, i))
  {
    assert GoodOp(s.ops[i]) && Meddles(s.ops[i]);
    var s' := PassTurnGate(s, i);
    if s'.ops[i].phase == Over {
      QuieterKeepsInv(s, s', i);
    }
  }

  predicate GateStep(step: Step) {
    step.DoEnqueue? || step.DoLeave? || step.DoArrive? || step.DoPassGate? || step.DoPick? || step.DoPassTurnGate?
  }

  lemma GateKeepsInv(s: State, step: Step)
    requires Inv(s) && Enabled(s, step) && Orderly(s, step) && GateStep(step)
    ensures Inv(Apply(s, step))
  {
    match step
    case DoArrive(strict) => ArriveKeepsInv(s, strict);
    case DoPassGate(i) => PassGateKeepsInv(s, i);
    case DoPick(turn) => PickKeepsInv(s, turn);
    case DoPassTurnGate(i) => PassTurnGateKeepsInv(s, i);
    case _ => QueueKeepsInv(s, step);
  }

  predicate NarrowStep(step: Step) {
    step.DoApply? || step.Answers? || step.DoReject? || step.LosesTrack? || step.CleanupFails? || step.DoFence?
  }

  lemma NarrowStepIsQuieter(s: State, step: Step)
    requires Inv(s) && Enabled(s, step) && NarrowStep(step)
    ensures var s' := Apply(s, step);
            && |s'.ops| == |s.ops| && s' == s.(ops := s.ops[step.i := s'.ops[step.i]], fenced := s'.fenced)
            && Quieter(s.ops[step.i], s'.ops[step.i])
  {
    assert GoodOp(s.ops[step.i]);
  }

  lemma StepKeepsInv(s: State, step: Step)
    requires Inv(s) && Enabled(s, step) && Orderly(s, step)
    ensures Inv(Apply(s, step))
  {
    if GateStep(step) {
      GateKeepsInv(s, step);
    } else if NarrowStep(step) {
      NarrowStepIsQuieter(s, step);
      QuieterKeepsInv(s, Apply(s, step), step.i);
    } else {
      BarrierStepKeepsInv(s, step);
    }
  }

  lemma BarrierStepKeepsInv(s: State, step: Step)
    requires Inv(s) && Enabled(s, step) && !GateStep(step) && !NarrowStep(step)
    ensures Inv(Apply(s, step))
  {
    match step
    case DoBegin(i) => BeginKeepsInv(s, i);
    case DoCommit(i) => CommitKeepsInv(s, i);
    case DoClear(i) => LoweringKeepsInv(s, ClearBarrier(s, i), i);
    case DoRecover(i) => RecoverKeepsInv(s, i);
    case DoCrash => CrashKeepsInv(s);
    case DoMonitor =>
  }

  lemma CrashKeepsInv(s: State)
    requires Inv(s)
    ensures Inv(Crash(s))
  {
    var s' := Crash(s);
    assert forall i :: 0 <= i < |s'.ops| ==> s'.ops[i] == Stopped(s.ops[i]) && GoodOp(s'.ops[i]) && !Busy(s'.ops[i]);
    assert forall i :: 0 <= i < |s'.ops| ==> !Engaged(s'.ops[i]) && (Exposed(s'.ops[i]) <==> Exposed(s.ops[i]));
  }
}
