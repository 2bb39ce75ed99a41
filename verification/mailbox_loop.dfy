/** The consumer's inner loop as it runs: query, hand over, repeat. */
module MailboxLoop {
  import opened Texts

  /** The handler finished its turn, asks for a retry, or returned and left the turn queued. */
  datatype Outcome = Finished | Retry | Unfinished

  /** What happens around one query: the turns that come in before it, and what the handler does. */
  datatype Round = Round(arrivals: seq<nat>, outcome: Outcome)

  function Arrivals(rounds: seq<Round>): seq<seq<nat>> {
    seq(|rounds|, i requires 0 <= i < |rounds| => rounds[i].arrivals)
  }

  /** Why the loop stopped; `Running` when the rounds that are looked at do not bring it to an end. */
  datatype Stop = Idle | Delayed | Running

  /** The store's queue; `finished` and `calls` are the turns that left it and all handler calls, in order. */
  class Mailbox {
    var queue: seq<nat>
    var finished: seq<nat>
    var calls: seq<nat>

    constructor (queue: seq<nat>)
      ensures this.queue == queue && finished == [] && calls == []
    {
      this.queue, finished, calls := queue, [], [];
    }

    /** New turns come in at the back. */
    method Receive(arrivals: seq<nat>)
      modifies this
      ensures queue == old(queue) + arrivals && finished == old(finished) && calls == old(calls)
      ensures finished + queue == old(finished + queue) + arrivals
    {
      queue := queue + arrivals;
    }

    /** The first turn goes to the handler; it leaves the queue if the handler finished it. */
    method HandOver(outcome: Outcome)
      requires |queue| > 0
      modifies this
      ensures calls == old(calls) + [old(queue[0])]
      ensures finished + queue == old(finished + queue)
      ensures if outcome == Finished then finished == old(finished) + [old(queue[0])]
              else finished == old(finished) && queue == old(queue)
    {
      calls := calls + [queue[0]];
      if outcome == Finished {
        finished := finished + [queue[0]];
        queue := queue[1..];
      }
    }

    /** After `n` rounds and `k` calls, counted from a state with `base` finished turns and `first` calls. */
    ghost predicate Served(rounds: seq<Round>, n: nat, k: nat, order: seq<nat>, base: nat, first: nat)
      reads this
    {
      && k <= n <= |rounds| && |calls| == first + k
      && finished + queue == order + Concat(Arrivals(rounds[..n]))
      && |finished| == base + FinishedBy(rounds, k)
      && InTurn(rounds, base, finished + queue, calls[first..])
    }

    /** One round; false when the query finds nothing. */
    method RunRound(rounds: seq<Round>, n: nat, ghost order: seq<nat>, ghost base: nat, ghost first: nat)
      returns (found: bool)
      requires n < |rounds| && Served(rounds, n, n, order, base, first)
      modifies this
      ensures Served(rounds, n + 1, if found then n + 1 else n, order, base, first)
      ensures old(finished) <= finished && old(calls) <= calls
      ensures !found ==> queue == []
      ensures found && rounds[n].outcome != Finished ==> |queue| > 0 && calls[|calls| - 1] == queue[0]
    {
      ghost var made := calls[first..];
      ArrivalsOneMore(rounds, n);
      StillInTurn(rounds, base, finished + queue, rounds[n].arrivals, made);
      Receive(rounds[n].arrivals);
      found := |queue| > 0;
      if found {
        assert (finished + queue)[|finished|] == queue[0];
        HandOver(rounds[n].outcome);
        assert calls[first..] == made + [calls[|calls| - 1]];
      }
    }

    /**
      Runs for as many rounds as are given, or until a query finds nothing or the handler asks for a retry.
      Whatever the handler does, turns leave the queue in the order in which they came, none is lost or
      repeated, and every call is for the first turn that was not finished before it.
      */
    method RunUntilIdle(rounds: seq<Round>) returns (stop: Stop, n: nat)
      modifies this
      ensures n <= |rounds| && (stop == Running ==> n == |rounds|)
      ensures finished + queue == old(finished + queue) + Concat(Arrivals(rounds[..n]))
      ensures old(finished) <= finished && old(calls) <= calls
      ensures |calls| - old(|calls|) == if stop == Idle then n - 1 else n
      ensures |finished| == old(|finished|) + FinishedBy(rounds, |calls| - old(|calls|))
      ensures InTurn(rounds, old(|finished|), finished + queue, calls[old(|calls|)..])
      ensures stop == Idle ==> n > 0 && queue == []
      ensures stop == Delayed ==>
                n > 0 && |queue| > 0 && rounds[n - 1].outcome == Retry && calls[|calls| - 1] == queue[0]
    {
      n := 0;
      ghost var order, base, first := finished + queue, |finished|, |calls|;
      while n < |rounds|
        invariant Served(rounds, n, n, order, base, first)
        invariant old(finished) <= finished && old(calls) <= calls
      {
        var found := RunRound(rounds, n, order, base, first);
        n := n + 1;
        if !found {
          return Idle, n;
        }
        if rounds[n - 1].outcome == Retry {
          return Delayed, n;
        }
      }
      stop := Running;
    }
  }

  /** The number of turns that the first `k` rounds finish. */
  function FinishedBy(rounds: seq<Round>, k: int): nat
    requires k <= |rounds|
  {
    if k <= 0 then 0 else FinishedBy(rounds, k - 1) + if rounds[k - 1].outcome == Finished then 1 else 0
  }

  /** Call `c` is for the turn that follows, in the order of the queue, the `base` ones and those finished since. */
  ghost predicate InTurn(rounds: seq<Round>, base: nat, order: seq<nat>, calls: seq<nat>) {
    && |calls| <= |rounds|
    && forall c :: 0 <= c < |calls| ==>
         base + FinishedBy(rounds, c) < |order| && calls[c] == order[base + FinishedBy(rounds, c)]
  }

  lemma StillInTurn(rounds: seq<Round>, base: nat, order: seq<nat>, more: seq<nat>, calls: seq<nat>)
    requires InTurn(rounds, base, order, calls)
    ensures InTurn(rounds, base, order + more, calls)
  {
  }

  lemma ArrivalsOneMore(rounds: seq<Round>, n: nat)
    requires n < |rounds|
    ensures Concat(Arrivals(rounds[..n + 1])) == Concat(Arrivals(rounds[..n])) + rounds[n].arrivals
  {
    assert Arrivals(rounds[..n + 1])[..n] == Arrivals(rounds[..n]);
  }
}
