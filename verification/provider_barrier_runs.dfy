/** Runs of provider effects: what every orderly run keeps, and what one late cancellation leads to. */
module ProviderBarrierRuns {
  import opened ProviderBarrier
  import opened Results
  import opened Runs

  /** The runs in which no turn is cancelled during its thread start. */
  ghost function Effects(): Machine<State, Step> {
    Machine(s => s == State(Open, false, [], {}, 0),
            (s, step, s') => Enabled(s, step) && Orderly(s, step) && s' == Apply(s, step))
  }

  lemma InvIsInvariant()
    ensures Invariant(Effects(), s => Inv(s))
  {
    forall s, step, s' | Inv(s) && Effects().next(s, step, s') ensures Inv(s') {
      StepKeepsInv(s, step);
    }
  }

  /**
    In every reachable state, as long as the provider may have done, or may still do, a mutation that nothing
    accounts for, the barrier is raised. Every operation that the store lets begin finds no barrier, and one
    effect at a time can lower it.
    */
  lemma BarrierCoversEffects(states: seq<State>, steps: seq<Step>, k: nat)
    requires Run(Effects(), states, steps) && k < |states|
    ensures var s := states[k];
            && Safe(s)
            && (forall i :: 0 <= i < |s.ops| && Exposed(s.ops[i]) ==> s.barrier.Raised?)
            && (forall i :: 0 <= i < |s.ops| && s.ops[i].phase == Passed && Accepts(s, s.ops[i]) ==> s.barrier.Open?)
            && (forall i, j :: 0 <= i < j < |s.ops| && Lowers(s.ops[i]) ==> !Lowers(s.ops[j]) && !Exposed(s.ops[j]))
  {
    InvIsInvariant();
    HoldsAlways(Effects(), s => Inv(s), states, steps, k);
    var s := states[k];
    forall i | 0 <= i < |s.ops| && s.ops[i].phase == Passed && Accepts(s, s.ops[i]) ensures s.barrier.Open? {
      BeginsFindNoBarrier(s, i);
    }
  }

  /** A barrier goes down only for an effect that is committed or refused for certain, or by the owner. */
  lemma BarrierGoesDownOnly(s: State, step: Step)
    requires Inv(s) && Enabled(s, step) && s.barrier.Raised? && Apply(s, step).barrier.Open?
    ensures step.DoRecover? || ((step.DoCommit? || step.DoClear?) && Apply(s, step).ops[step.i].settled)
    ensures !SomeHidden(Apply(s, step))
  {
    StepKeepsInv(s, step);
  }

  /** After a crash with a hidden mutation the monitor fences, and turns, strict and new commands stay out. */
  lemma RestartFences(s: State, i: nat)
    requires Inv(s) && SomeHidden(s)
    ensures var s' := Monitor(Crash(s));
            && s'.fenced && s'.barrier == s.barrier && s'.barrier.Raised? && SomeHidden(s')
            && (i < |s'.ops| && s'.ops[i].kind == Command(true) ==> PassGate(s', i).ops[i].phase == Over)
            && (i < |s'.ops| && s'.ops[i].kind.ThreadStart? ==> PassTurnGate(s', i).ops[i].phase == Over)
            && (i < |s'.ops| && s'.ops[i].interaction.Some? && s'.ops[i].interaction != s'.barrier.interaction ==>
                  Begin(s', i).ops[i].phase == Over && Begin(s', i).barrier == s'.barrier)
  {
    var h :| 0 <= h < |s.ops| && Hidden(s.ops[h]);
    assert Hidden(Crash(s).ops[h]);
  }

  /** A command passes its gate exactly with no turn queued or running and, if strict, nothing left open. */
  lemma GateLetsPassExactly(s: State, i: nat)
    requires Enabled(s, DoPassGate(i))
    ensures PassGate(s, i).ops[i].phase == Passed
            <==> s.live == {} && (s.ops[i].kind == Command(true) ==> s.barrier.Open? && !s.fenced)
    ensures PassGate(s, i).ops[i].phase in {Passed, Over}
  {
  }

  /** A turn passes its gate exactly with neither barrier nor fence. */
  lemma TurnGateLetsPassExactly(s: State, i: nat)
    requires Enabled(s, DoPassTurnGate(i))
    ensures PassTurnGate(s, i).ops[i].phase == Passed <==> s.barrier.Open? && !s.fenced
    ensures PassTurnGate(s, i).ops[i].phase in {Passed, Over}
  {
  }

  /** The monitor fences exactly behind a raised barrier, and changes nothing else. */
  lemma MonitorFencesExactly(s: State)
    ensures Monitor(s) == s.(fenced := s.fenced || s.barrier.Raised?)
  {
  }

  /** A strict command on a quiet, open conversation goes through, and leaves it open. */
  lemma QuietCommandGoesThrough(s: State) returns (s': State)
    requires s.live == {} && s.barrier.Open? && !s.fenced && LockIsFree(s)
    ensures Leads(Effects(), s, s') && s'.barrier.Open? && !s'.fenced && |s'.ops| == |s.ops| + 1
    ensures s'.ops == s.ops + [Op(Command(true), Some(|s.ops|), Over, true, true, true)]
  {
    var c := |s.ops|;
    LeadsToItself(Effects(), s);
    s' := On(s, s, DoArrive(true));
    assert LockIsFree(s');
    s' := On(s, s', DoPassGate(c));
    s' := On(s, s', DoBegin(c));
    s' := On(s, s', DoApply(c));
    s' := On(s, s', Answers(c));
    s' := On(s, s', DoCommit(c));
  }

  // ---------- A late cancellation ----------

  /** The other turns may leave the queue. */
  lemma {:induction false} QueueEmpties(origin: State, s: State, turn: nat)
    requires Leads(Effects(), origin, s) && turn !in s.live
    requires forall j :: 0 <= j < |s.ops| && Meddles(s.ops[j]) ==> s.ops[j].kind.turn == turn
    ensures Leads(Effects(), origin, s.(live := {}))
    decreases s.live
  {
    if s.live == {} {
      assert s == s.(live := {});
    } else {
      var t :| t in s.live;
      assert Effects().next(s, DoLeave(t), Leave(s, t));
      LeadsOn(Effects(), origin, s, DoLeave(t), Leave(s, t));
      QueueEmpties(origin, Leave(s, t), turn);
    }
  }

  lemma On(origin: State, s: State, step: Step) returns (s': State)
    requires Leads(Effects(), origin, s) && Enabled(s, step) && Orderly(s, step)
    ensures Leads(Effects(), origin, s') && s' == Apply(s, step)
  {
    s' := Apply(s, step);
    LeadsOn(Effects(), origin, s, step, s');
  }

  /** A command that passed its gate on an open, unfenced conversation. */
  predicate Ready(s: State, c: nat) {
    && c < |s.ops| && s.barrier.Open? && !s.fenced
    && s.ops[c] == Op(Command(false), Some(c), Passed, false, false, false)
  }

  /** With an empty queue and a free lock, the owner's next command gets the conversation, whatever was open. */
  lemma CommandComes(origin: State, s: State, i: nat) returns (s': State)
    requires Leads(Effects(), origin, s) && s.live == {} && LockIsFree(s) && i < |s.ops|
    ensures Leads(Effects(), origin, s') && |s'.ops| == |s.ops| + 1 && Ready(s', |s.ops|)
    ensures s'.ops[i] == s.ops[i] || s'.ops[i] == Acknowledged(s.ops[i])
  {
    var c := |s.ops|;
    var arrived := On(origin, s, DoArrive(false));
    assert LockIsFree(arrived);
    var passed := On(origin, arrived, DoPassGate(c));
    s' := On(origin, passed, DoMonitor);
    if s'.fenced {
      s' := On(origin, s', DoRecover(c));
    }
  }

  /** The command's mutation is applied and not committed. */
  predicate Waits(s: State, c: nat) { c < |s.ops| && Hidden(s.ops[c]) && !s.fenced }

  /** A thread start that can still lower the barrier lowers it under a command that waits for the provider. */
  lemma StartLowers(origin: State, s: State, i: nat, c: nat) returns (s': State)
    requires Leads(Effects(), origin, s) && Waits(s, c) && i < |s.ops| && i != c
    requires GoodOp(s.ops[i]) && s.ops[i].kind.ThreadStart? && Lowers(s.ops[i])
    ensures Leads(Effects(), origin, s') && Waits(s', c) && s'.barrier.Open?
  {
    s' := s;
    if s.ops[i].phase == Begun && !s.ops[i].applied {
      s' := On(origin, s', DoReject(i));
    } else {
      if s.ops[i].phase == Begun {
        s' := On(origin, s', Answers(i));
      }
      if s'.ops[i].phase == Succeeded {
        s' := On(origin, s', DoCommit(i));
      }
    }
    s' := On(origin, s', DoClear(i));
  }

  lemma CommandWaits(origin: State, s: State, c: nat) returns (s': State)
    requires Leads(Effects(), origin, s) && Ready(s, c)
    ensures Leads(Effects(), origin, s') && Waits(s', c) && |s'.ops| == |s.ops|
    ensures forall i :: 0 <= i < |s.ops| && i != c ==> s'.ops[i] == s.ops[i]
  {
    var begun := On(origin, s, DoBegin(c));
    s' := On(origin, begun, DoApply(c));
  }

  /** A turn that leaves while its thread start is under way can lead to a forgotten mutation. */
  lemma LateLeaveIsUnsafe(s: State, i: nat) returns (s': State)
    requires Inv(s) && i < |s.ops| && Meddles(s.ops[i])
    ensures Leads(Effects(), Leave(s, s.ops[i].kind.turn), s') && !Safe(s')
  {
    var turn := s.ops[i].kind.turn;
    var origin := Leave(s, turn);
    assert Engaged(s.ops[i]) && GoodOp(s.ops[i]);
    LeadsToItself(Effects(), origin);
    forall j | 0 <= j < |s.ops| && j != i ensures !Engaged(s.ops[j]) {
      assert i < j || j < i;
    }
    QueueEmpties(origin, origin, turn);
    var c := |s.ops|;
    s' := CommandComes(origin, origin.(live := {}), i);
    if s'.ops[i].phase == Picked {
      s' := On(origin, s', DoPassTurnGate(i));
    }
    s' := CommandWaits(origin, s', c);
    if s'.ops[i].phase == Passed {
      s' := On(origin, s', DoBegin(i));
    }
    s' := StartLowers(origin, s', i, c);
    assert Hidden(s'.ops[c]);
  }

  /**
    The exact condition: a turn may leave the store, by a cancellation or by its end, exactly when its thread
    start is not between the mailbox and its end. Then whatever follows is safe; otherwise something unsafe may.
    */
  lemma LeaveIsSafeExactly(s: State, turn: nat)
    requires Inv(s) && turn in s.live
    ensures Orderly(s, DoLeave(turn)) <==> forall s' :: Leads(Effects(), Leave(s, turn), s') ==> Safe(s')
  {
    if Orderly(s, DoLeave(turn)) {
      StepKeepsInv(s, DoLeave(turn));
      InvIsInvariant();
      forall s' | Leads(Effects(), Leave(s, turn), s') ensures Safe(s') {
        HoldsOnward(Effects(), s => Inv(s), Leave(s, turn), s');
      }
    } else {
      var i :| 0 <= i < |s.ops| && Meddles(s.ops[i]) && s.ops[i].kind.turn == turn;
      var s' := LateLeaveIsUnsafe(s, i);
    }
  }

  /** A run from the start: the turn is cancelled after its gate, and its refusal clears a command's barrier. */
  lemma CancelledStartClearsBarrier()
    ensures var s0 := PassTurnGate(Pick(Enqueue(State(Open, false, [], {}, 0)), 0), 0);
            var s1 := PassGate(Arrives(Leave(s0, 0), false), 1);
            var s2 := Begin(Applies(Begin(s1, 1), 1), 0);
            var s3 := Crash(ClearBarrier(Rejects(s2, 0), 0));
            !Safe(s3) && PassGate(Arrives(s0, false), 1).ops[1].phase == Over
  {
    var s0 := PassTurnGate(Pick(Enqueue(State(Open, false, [], {}, 0)), 0), 0);
    var s1 := PassGate(Arrives(Leave(s0, 0), false), 1);
    var s3 := Crash(ClearBarrier(Rejects(Begin(Applies(Begin(s1, 1), 1), 0), 0), 0));
    assert Hidden(s3.ops[1]);
  }

  /** An effect that begins over a barrier with a hidden mutation behind it: its commit forgets that mutation. */
  function Completed(s: State, i: nat): State
    requires i < |s.ops|
  {
    var begun := Begin(s, i);
    if begun.ops[i].phase != Begun then begun
    else
      var committed := Commit(Move(Applies(begun, i), i, Succeeded), i);
      if committed.ops[i].phase == Activated then ClearBarrier(committed, i) else committed
  }

  /**
    The store's refusal is needed: with a mutation hidden, an operation leads to a safe state exactly when
    the store turns it away. Thread starts have no interaction, so only the gate keeps them out.
    */
  lemma BeginOverBarrierIsUnsafe(s: State, i: nat, h: nat)
    requires i < |s.ops| && h < |s.ops| && h != i && Hidden(s.ops[h]) && s.barrier.Raised?
    requires s.ops[i].phase == Passed && !Exposed(s.ops[i])
    ensures Safe(Completed(s, i)) <==> s.ops[i].interaction.Some? && s.ops[i].interaction != s.barrier.interaction
  {
    var s' := Completed(s, i);
    assert s'.ops[h] == s.ops[h];
  }
}
