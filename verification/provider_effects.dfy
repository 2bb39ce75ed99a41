/** One provider effect from its barrier to its end, as the session commands and the turn start run it. */
module ProviderEffects {
  import opened ProviderBarrier

  /** What becomes of the request: an identity, a definite refusal, or an error or cancellation that tells nothing. */
  datatype Answer = Identity | Definite | Lost(applied: bool)

  /** Which of the store's transactions succeed. */
  datatype Store = Store(commits: bool, clears: bool, fences: bool)

  class Conversation {
    var barrier: Barrier
    var fenced: bool
    var ops: seq<Op>
    var live: set<nat>
    var turns: nat

    ghost function Current(): State
      reads this
    {
      State(barrier, fenced, ops, live, turns)
    }

    /** The other operations, and the queue, are as they were. */
    ghost predicate OthersAre(before: State, i: nat)
      reads this
    {
      && live == before.live && turns == before.turns && i < |ops| == |before.ops|
      && forall j :: 0 <= j < |ops| && j != i ==> ops[j] == before.ops[j]
    }

    /** Writes the barrier; false stands for the conflict error. */
    method BeginEffect(i: nat) returns (begun: bool)
      requires i < |ops|
      modifies this
      ensures Current() == Begin(old(Current()), i)
      ensures begun == Accepts(old(Current()), old(ops[i])) && OthersAre(old(Current()), i)
      ensures begun ==> barrier.Raised? && ops[i].sent && ops[i].phase == Begun
      ensures !begun ==> barrier == old(barrier) && ops[i].phase == Over
    {
      var op := ops[i];
      begun := op.interaction.None? || barrier.Open? || barrier.interaction == op.interaction;
      if !begun {
        ops := ops[i := op.(phase := Over)];
        return;
      }
      if op.interaction.Some? || barrier.Open? {
        barrier := Raised(op.interaction);
      }
      ops := ops[i := op.(phase := Begun, sent := true)];
    }

    /** The provider's side of the request, as far as it is known here. */
    method Ask(i: nat, answer: Answer)
      requires In(Current(), i, {Begun}) && ops[i].sent && !ops[i].applied && !ops[i].settled
      modifies this
      ensures old(Inv(Current())) ==> Inv(Current())
      ensures barrier == old(barrier) && fenced == old(fenced) && OthersAre(old(Current()), i)
      ensures ops[i] == old(ops[i]).(applied := answer == Identity || answer == Lost(true),
                                     phase := if answer == Identity then Succeeded else Begun)
    {
      ghost var s := Current();
      if answer == Identity || answer == Lost(true) {
        ops := ops[i := ops[i].(applied := true)];
        Follow(s, DoApply(i), Current());
      }
      if answer == Identity {
        ghost var applied := Current();
        ops := ops[i := ops[i].(phase := Succeeded)];
        Follow(applied, Answers(i), Current());
      }
    }

    /** Commits; a turn's thread start clears its barrier in a second transaction. */
    method CommitEffect(i: nat, store: Store) returns (done: bool)
      requires In(Current(), i, {Succeeded})
      modifies this
      ensures old(Inv(Current())) ==> Inv(Current())
      ensures OthersAre(old(Current()), i) && ops[i].kind == old(ops[i].kind) && ops[i].settled
      ensures done == (ops[i].kind.ThreadStart? ==> store.clears)
      ensures !fenced && (done ==> barrier.Open? && ops[i].phase == Over)
      ensures !done ==> barrier == old(barrier) && ops[i].phase == Activated
    {
      ghost var s := Current();
      var op := ops[i].(settled := true);
      fenced := false;
      if op.kind.Command? {
        ops := ops[i := op.(phase := Over)];
        barrier := Open;
        Follow(s, DoCommit(i), Current());
        return true;
      }
      ops := ops[i := op.(phase := Activated)];
      Follow(s, DoCommit(i), Current());
      done := store.clears;
      if done {
        ghost var activated := Current();
        barrier := Open;
        ops := ops[i := ops[i].(phase := Over)];
        Follow(activated, DoClear(i), Current());
      }
    }

    /**
      The failure handler: a definite refusal clears the barrier, an unknown outcome keeps it and fences,
      each as far as the store works.
      */
    method FinishFailure(i: nat, definite: bool, providerSucceeded: bool, store: Store)
      requires In(Current(), i, {Begun, Succeeded, Activated})
      requires definite && !providerSucceeded ==> ops[i].phase == Begun && !ops[i].applied
      modifies this
      ensures old(Inv(Current())) ==> Inv(Current())
      ensures OthersAre(old(Current()), i) && ops[i].phase == Over
      ensures if definite && !providerSucceeded
              then barrier == (if store.clears then Open else old(barrier)) && fenced == old(fenced) && ops[i].settled
              else
                && barrier == old(barrier) && fenced == (store.fences || old(fenced))
                && ops[i] == old(ops[i]).(phase := Over)
    {
      ghost var s := Current();
      var unknown := providerSucceeded || !definite;
      if !unknown {
        ops := ops[i := ops[i].(phase := Refused, settled := true)];
        Follow(s, DoReject(i), Current());
        ghost var refused := Current();
        ops := ops[i := ops[i].(phase := Over)];
        if store.clears {
          barrier := Open;
        }
        Follow(refused, if store.clears then DoClear(i) else CleanupFails(i), Current());
      } else {
        ops := ops[i := ops[i].(phase := Uncertain)];
        Follow(s, LosesTrack(i), Current());
        ghost var uncertain := Current();
        ops := ops[i := ops[i].(phase := Over)];
        if store.fences {
          fenced := true;
        }
        Follow(uncertain, if store.fences then DoFence(i) else CleanupFails(i), Current());
      }
    }

    /**
      The whole effect. It ends with the barrier down only when it is committed or refused for certain, and
      in every other case the barrier stays and the conversation is fenced, unless the store failed too.
      */
    method Perform(i: nat, answer: Answer, store: Store) returns (begun: bool, committed: bool)
      requires In(Current(), i, {Passed}) && GoodOp(ops[i])
      modifies this
      ensures old(Inv(Current())) ==> Inv(Current()) && Safe(Current())
      ensures OthersAre(old(Current()), i) && ops[i].phase == Over
      ensures begun == Accepts(old(Current()), old(ops[i]))
      ensures !begun ==> barrier == old(barrier) && fenced == old(fenced) && !committed
      ensures begun ==> (committed <==> answer == Identity && store.commits
                                        && (old(ops[i].kind).ThreadStart? ==> store.clears))
      ensures committed ==> !fenced
      ensures begun ==> (barrier.Open? <==> committed || (answer == Definite && store.clears))
      ensures begun && barrier.Raised? && answer != Definite && store.fences ==> fenced
      ensures begun ==> (Exposed(ops[i]) <==> answer.Lost? || (answer == Identity && !store.commits))
    {
      ghost var s := Current();
      committed := false;
      begun := BeginEffect(i);
      Follow(s, DoBegin(i), Current());
      if begun {
        Ask(i, answer);
        if answer != Identity {
          FinishFailure(i, answer == Definite, false, store);
        } else if !store.commits {
          FinishFailure(i, true, true, store);
        } else {
          committed := CommitEffect(i, store);
          if !committed {
            FinishFailure(i, true, true, store);
          }
        }
      }
    }
  }

  /** A section of the program that is a step keeps the invariant. */
  lemma Follow(s: State, step: Step, s': State)
    requires Enabled(s, step) && Orderly(s, step) && s' == Apply(s, step)
    ensures Inv(s) ==> Inv(s') && Safe(s')
  {
    if Inv(s) {
      StepKeepsInv(s, step);
    }
  }
}
