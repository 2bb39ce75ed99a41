/**
  File inputs of turns. A turn with files holds open, locked descriptors for as long as the provider process
  may still read them: through uncertain starts, closes that fail, and terminal events that come meanwhile.
  */
module FileLeases {
  import opened Runs

  /** `Uncertain`: the start was attempted and raised. `Rejected`: a turn without files whose start raised. */
  datatype Phase = Attempted | Running(id: nat) | Over(id: nat) | Uncertain | Rejected

  datatype Turn = Turn(files: bool, phase: Phase)

  /**
    Turns are known by their index. `open` holds the turns whose descriptors are open; `alive` is the
    provider process; `closing` is the close lock.
    */
  datatype State = State(turns: seq<Turn>, pending: set<nat>, perTurn: map<nat, nat>, handles: set<nat>, open: set<nat>,
                         blocked: bool, closed: bool, closing: bool, alive: bool)

  // ---------- What the operations do ----------

  function SetPhase(s: State, t: nat, phase: Phase): State
    requires t < |s.turns|
  {
    s.(turns := s.turns[t := s.turns[t].(phase := phase)])
  }

  /** A start begins only while the runtime is open; descriptors are open before the provider hears of them. */
  function BeginStart(s: State, files: bool): State {
    if s.closed || s.blocked then s
    else
      var t := |s.turns|;
      var s' := s.(turns := s.turns + [Turn(files, Attempted)]);
      if files then s'.(open := s.open + {t}, pending := s.pending + {t}) else s'
  }

  /** The provider answered with a handle. */
  function StartReturns(s: State, t: nat, id: nat): State
    requires t < |s.turns| && s.turns[t].phase == Attempted
  {
    var files := s.turns[t].files;
    if files && s.closed then SetPhase(s, t, Uncertain).(pending := s.pending - {t}, open := s.open - {t})
    else if id in s.perTurn then SetPhase(s, t, if files then Uncertain else Rejected)
    else
      SetPhase(s, t, Running(id))
        .(pending := s.pending - {t}, perTurn := if files then s.perTurn[id := t] else s.perTurn,
          handles := s.handles + {id})
  }

  /** The start raised; a turn with files then retires the runtime. */
  function StartRaises(s: State, t: nat): State
    requires t < |s.turns| && s.turns[t].phase == Attempted
  {
    SetPhase(s, t, if s.turns[t].files then Uncertain else Rejected)
  }

  function ReleaseLease(s: State, id: nat): State {
    if s.blocked || id !in s.perTurn then s
    else s.(perTurn := s.perTurn - {id}, open := s.open - {s.perTurn[id]})
  }

  /** The stream of a turn delivered its terminal event. */
  function SeesTerminal(s: State, t: nat): State
    requires t < |s.turns| && s.turns[t].phase.Running?
  {
    var id := s.turns[t].phase.id;
    ReleaseLease(SetPhase(s, t, Over(id)).(handles := s.handles - {id}), id)
  }

  /** `close` and the retirement after an uncertain start both begin by blocking all releases. */
  function BeginClose(s: State): State
    requires !s.closing
  {
    if s.closed then ReleaseAll(s) else s.(blocked := true, closing := true)
  }

  function ReleaseAll(s: State): State {
    s.(pending := {}, perTurn := map[], open := s.open - s.pending - s.perTurn.Values, blocked := false)
  }

  /** `confirmed`: the process exited by itself, or was terminated, and that was checked. */
  function FinishClose(s: State, confirmed: bool): State
    requires s.closing
  {
    if confirmed then ReleaseAll(s).(closed := true, handles := {}, closing := false) else s.(closing := false)
  }

  // ---------- Steps ----------

  datatype Step =
    | DoBeginStart(files: bool)
    | DoStartReturns(t: nat, id: nat)
    | DoStartRaises(t: nat)
    | DoSeesTerminal(t: nat)
    | DoBeginClose
    | ProcessDies
    | DoFinishClose(confirmed: bool)

  predicate Is(s: State, t: nat, phase: Phase) { t < |s.turns| && s.turns[t].phase == phase }

  predicate Enabled(s: State, step: Step) {
    match step
    case DoBeginStart(_) => true
    case DoStartReturns(t, _) => Is(s, t, Attempted)
    case DoStartRaises(t) => Is(s, t, Attempted)
    case DoSeesTerminal(t) => t < |s.turns| && s.turns[t].phase.Running?
    case DoBeginClose => !s.closing
    case ProcessDies => true
    case DoFinishClose(confirmed) => s.closing && (confirmed ==> !s.alive)
  }

  function Apply(s: State, step: Step): State
    requires Enabled(s, step)
  {
    match step
    case DoBeginStart(files) => BeginStart(s, files)
    case DoStartReturns(t, id) => StartReturns(s, t, id)
    case DoStartRaises(t) => StartRaises(s, t)
    case DoSeesTerminal(t) => SeesTerminal(s, t)
    case DoBeginClose => BeginClose(s)
    case ProcessDies => s.(alive := false)
    case DoFinishClose(confirmed) => FinishClose(s, confirmed)
  }

  /** A turn with files is about to get the handle under which a turn without a lease still runs. */
  predicate Reused(s: State, t: nat, id: nat) {
    && t < |s.turns| && s.turns[t].files && !s.closed && !s.blocked && id !in s.perTurn
    && exists u :: 0 <= u < |s.turns| && s.turns[u].phase == Running(id)
  }

  predicate FreshHandle(s: State, step: Step) { step.DoStartReturns? ==> !Reused(s, step.t, step.id) }

  // ---------- Safety ----------

  /** The provider may still read the files of this turn. */
  predicate MayBeRead(turn: Turn) {
    turn.files && (turn.phase.Attempted? || turn.phase.Running? || turn.phase.Uncertain?)
  }

  /** The descriptors are open, and held in exactly one of the two places. */
  predicate Held(s: State, t: nat) {
    t in s.open && ((t in s.pending && t !in s.perTurn.Values) || (t !in s.pending && t in s.perTurn.Values))
  }

  ghost predicate Safe(s: State) {
    && (!s.closed ==> forall t :: 0 <= t < |s.turns| && MayBeRead(s.turns[t]) ==> Held(s, t))
    && (s.closed ==> s.open == {} && !s.alive)
  }

  // ---------- The invariant ----------

  predicate PendingTurn(turn: Turn) { turn.files && (turn.phase.Attempted? || turn.phase.Uncertain?) }

  predicate LeasedTurn(turn: Turn, id: nat) { turn.files && (turn.phase == Running(id) || turn.phase == Over(id)) }

  ghost predicate PendingIsExact(s: State) {
    forall t :: t in s.pending <==> 0 <= t < |s.turns| && PendingTurn(s.turns[t])
  }

  ghost predicate LeasesAreExact(s: State) {
    && (forall id :: id in s.perTurn ==> s.perTurn[id] < |s.turns| && LeasedTurn(s.turns[s.perTurn[id]], id))
    && (forall t :: 0 <= t < |s.turns| && s.turns[t].files && s.turns[t].phase.Running? ==>
          s.turns[t].phase.id in s.perTurn && s.perTurn[s.turns[t].phase.id] == t)
  }

  /** Until releases are blocked, no turn runs under the handle of another turn's lease. */
  ghost predicate LeasesAreOwn(s: State) {
    !s.blocked ==>
      forall t :: 0 <= t < |s.turns| && s.turns[t].phase.Running? && s.turns[t].phase.id in s.perTurn ==>
        s.perTurn[s.turns[t].phase.id] == t
  }

  ghost predicate Inv(s: State) {
    && (s.closing ==> s.blocked && !s.closed)
    && s.open == s.pending + s.perTurn.Values
    && (s.closed ==> s.pending == {} && s.perTurn == map[] && !s.alive && !s.blocked)
    && (!s.closed ==> PendingIsExact(s) && LeasesAreExact(s) && LeasesAreOwn(s))
  }

  lemma BeginStartKeeps(s: State, files: bool)
    requires Inv(s)
    ensures Inv(BeginStart(s, files))
  {
  }

  lemma AddedValue(m: map<nat, nat>, k: nat, v: nat)
    requires k !in m
    ensures m[k := v].Values == m.Values + {v}
  {
    var after := m[k := v];
    forall x | x in m.Values ensures x in after.Values {
      var j :| j in m && m[j] == x;
      assert after[j] == x;
    }
    assert after[k] == v;
  }

  lemma RemovedValue(m: map<nat, nat>, k: nat)
    requires k in m && forall j :: j in m && j != k ==> m[j] != m[k]
    ensures (m - {k}).Values == m.Values - {m[k]}
  {
    var after := m - {k};
    forall x | x in m.Values && x != m[k] ensures x in after.Values {
      var j :| j in m && m[j] == x;
      assert after[j] == x;
    }
  }

  lemma StartReturnsKeeps(s: State, t: nat, id: nat)
    requires Inv(s) && Is(s, t, Attempted) && !Reused(s, t, id)
    ensures Inv(StartReturns(s, t, id))
  {
    if id !in s.perTurn && !s.closed && s.turns[t].files {
      LeaseBeginsKeeps(s, t, id);
    }
  }

  lemma LeaseBeginsKeeps(s: State, t: nat, id: nat)
    requires Inv(s) && Is(s, t, Attempted) && !Reused(s, t, id)
    requires id !in s.perTurn && !s.closed && s.turns[t].files
    ensures Inv(StartReturns(s, t, id))
  {
    AddedValue(s.perTurn, id, t);
  }

  lemma StartRaisesKeeps(s: State, t: nat)
    requires Inv(s) && Is(s, t, Attempted)
    ensures Inv(StartRaises(s, t))
  {
  }

  lemma SeesTerminalKeeps(s: State, t: nat)
    requires Inv(s) && t < |s.turns| && s.turns[t].phase.Running?
    ensures Inv(SeesTerminal(s, t))
  {
    var id := s.turns[t].phase.id;
    if id in s.perTurn && !s.blocked {
      ReleaseKeeps(s, t, id);
    }
  }

  lemma ReleaseKeeps(s: State, t: nat, id: nat)
    requires Inv(s) && t < |s.turns| && s.turns[t].phase == Running(id) && id in s.perTurn && !s.blocked
    ensures Inv(SeesTerminal(s, t))
  {
    forall j | j in s.perTurn && j != id ensures s.perTurn[j] != s.perTurn[id] {
      assert LeasedTurn(s.turns[s.perTurn[j]], j);
    }
    RemovedValue(s.perTurn, id);
    assert s.perTurn[id] == t;
  }

  lemma CloseKeeps(s: State, step: Step)
    requires Inv(s) && Enabled(s, step) && (step.DoBeginClose? || step.ProcessDies? || step.DoFinishClose?)
    ensures Inv(Apply(s, step))
  {
  }

  lemma StepKeepsInv(s: State, step: Step)
    requires Inv(s) && Enabled(s, step) && FreshHandle(s, step)
    ensures Inv(Apply(s, step))
  {
    match step
    case DoBeginStart(files) => BeginStartKeeps(s, files);
    case DoStartReturns(t, id) => StartReturnsKeeps(s, t, id);
    case DoStartRaises(t) => StartRaisesKeeps(s, t);
    case DoSeesTerminal(t) => SeesTerminalKeeps(s, t);
    case _ => CloseKeeps(s, step);
  }

  // ---------- Runs ----------

  const NEW_RUNTIME := State([], {}, map[], {}, {}, false, false, false, true)

  /** Runs in which no turn with files gets the handle of a running turn. */
  ghost function Leasing(): Machine<State, Step> {
    Machine(s => s == NEW_RUNTIME, (s, step, s') => Enabled(s, step) && FreshHandle(s, step) && s' == Apply(s, step))
  }

  lemma InvIsInvariant()
    ensures Invariant(Leasing(), s => Inv(s))
  {
    forall s, step, s' | Inv(s) && Leasing().next(s, step, s') ensures Inv(s') {
      StepKeepsInv(s, step);
    }
  }

  /**
    In every reachable state: until the exit of the provider is confirmed, the descriptors of every turn whose
    start was attempted and whose terminal event has not come are open and held in exactly one place; once
    the runtime is closed, the process is gone and nothing is open.
    */
  lemma LeasesAreSafe(states: seq<State>, steps: seq<Step>, i: nat)
    requires Run(Leasing(), states, steps) && i < |states|
    ensures Safe(states[i])
    ensures states[i].alive ==>
              forall t :: 0 <= t < |states[i].turns| && MayBeRead(states[i].turns[t]) ==> t in states[i].open
  {
    InvIsInvariant();
    HoldsAlways(Leasing(), s => Inv(s), states, steps, i);
  }

  /** While releases are blocked nothing is closed, except by the step that confirms the exit. */
  lemma BlockedMeansHeld(s: State, step: Step)
    requires Inv(s) && Enabled(s, step) && s.blocked
    ensures var s' := Apply(s, step);
            s.open <= s'.open || (step == DoFinishClose(true) && !s.alive && s'.closed && s'.open == {})
  {
  }

  /** Without a close, a turn gives its descriptors back exactly at its terminal event. */
  lemma TerminalReleases(s: State, t: nat)
    requires Inv(s) && !s.closed && !s.blocked && t < |s.turns| && s.turns[t].phase.Running?
    ensures SeesTerminal(s, t).open == s.open - {t}
  {
    if s.turns[t].files {
      assert s.perTurn[s.turns[t].phase.id] == t;
    } else {
      assert t !in s.perTurn.Values;
    }
  }

  // ---------- Handles that are reused ----------

  /** The terminal event of the turn that ran under the handle before closes descriptors that may still be read. */
  lemma ReuseIsUnsafe(s: State, t: nat, id: nat) returns (s': State)
    requires Inv(s) && Is(s, t, Attempted) && Reused(s, t, id)
    ensures Leads(Leasing(), StartReturns(s, t, id), s') && !Safe(s') && s'.alive == s.alive
    ensures !s'.closed && t < |s'.turns| && MayBeRead(s'.turns[t]) && t !in s'.open
  {
    var u :| 0 <= u < |s.turns| && s.turns[u].phase == Running(id);
    var returned := StartReturns(s, t, id);
    assert returned.turns[u].phase == Running(id) && returned.perTurn[id] == t;
    s' := SeesTerminal(returned, u);
    LeadsToItself(Leasing(), returned);
    LeadsOn(Leasing(), returned, returned, DoSeesTerminal(u), s');
    assert !Held(s', t);
  }

  /**
    The code looks for a reused handle only among the leases. The exact condition: a start may return a handle
    exactly when it is not one that a turn with files would share with a running turn. Then whatever follows
    is safe; otherwise descriptors that the provider still reads may be closed.
    */
  lemma ReturnIsSafeExactly(s: State, t: nat, id: nat)
    requires Inv(s) && Is(s, t, Attempted)
    ensures !Reused(s, t, id) <==> forall s' :: Leads(Leasing(), StartReturns(s, t, id), s') ==> Safe(s')
  {
    if Reused(s, t, id) {
      var s' := ReuseIsUnsafe(s, t, id);
    } else {
      StartReturnsKeeps(s, t, id);
      InvIsInvariant();
      forall s' | Leads(Leasing(), StartReturns(s, t, id), s') ensures Safe(s') {
        HoldsOnward(Leasing(), s => Inv(s), StartReturns(s, t, id), s');
      }
    }
  }

  /** A run of the code as it is, from the start to the unsafe state. */
  lemma ReusedHandleLosesLease()
    ensures var s1 := BeginStart(NEW_RUNTIME, false);
            var s2 := StartReturns(s1, 0, 7);
            var s3 := BeginStart(s2, true);
            var s4 := StartReturns(s3, 1, 7);
            var s5 := SeesTerminal(s4, 0);
            s5.alive && MayBeRead(s5.turns[1]) && 1 !in s5.open && !Safe(s5)
  {
    var s4 := StartReturns(BeginStart(StartReturns(BeginStart(NEW_RUNTIME, false), 0, 7), true), 1, 7);
    assert s4.perTurn == map[7 := 1] && s4.turns == [Turn(false, Running(7)), Turn(true, Running(7))];
    assert !Held(SeesTerminal(s4, 0), 1);
  }
}
