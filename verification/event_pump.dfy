/**
  The event pump: it reads the provider's stream, holds back mergeable events until a timer, a size bound
  or another kind of event makes it flush, and hands events to the durable sink one at a time.
  Timers and the sink's answers are parameters, so what is proved holds for every flush schedule.
  */
module EventPump {
  import opened Results
  import opened Texts

  /** How the stream stops: at its end, by an adapter error with a code, or by another exception. */
  datatype Ending = EndOfStream | AdapterFailed(code: string) | Failed(exception: string)

  /** The sink's answer to one event. */
  datatype Response = Recorded | StaleGeneration | ReportsTerminal(state: int) | JournalError

  datatype Outcome = Terminal(state: int) | Interrupted(code: string) | StaleIgnored | JournalFailed | Crashed

  // ---------- What the pump needs to know of events ----------

  datatype Merge<E> = Separate | Merged(event: E) | Raises

  /** Room for more, at the size bound, or no size at all (an exception). */
  datatype Fullness = Room | Full | Unmeasurable

  datatype Algebra<!E(!new)> = Algebra(bufferable: E -> bool, merge: (E, E) -> Merge<E>, fullness: E -> Fullness,
                                       wellTyped: E -> bool)
  {
    ghost predicate Lawful() {
      && (forall a, b :: bufferable(b) && merge(a, b).Merged? ==> bufferable(merge(a, b).event))
      && (forall a, b :: wellTyped(a) && wellTyped(b) && bufferable(b) && merge(a, b).Merged? ==>
            wellTyped(merge(a, b).event))
      && (forall a, b :: wellTyped(a) && wellTyped(b) && bufferable(b) ==> !merge(a, b).Raises?)
      && (forall e :: wellTyped(e) ==> fullness(e) != Unmeasurable)
    }
  }

  // ---------- What the sink should get ----------

  /** A run of events merged from left to right; None when they do not merge. */
  ghost function RunMerge<E(!new)>(alg: Algebra<E>, run: seq<E>): Option<E> {
    if |run| == 0 then None
    else if |run| == 1 then Some(run[0])
    else
      var last := run[|run| - 1];
      match RunMerge(alg, run[..|run| - 1])
      case None => None
      case Some(before) =>
        if alg.bufferable(last) && alg.merge(before, last).Merged? then Some(alg.merge(before, last).event)
        else None
  }

  /** Something made the pump flush `run` before it read `next`. */
  ghost predicate Breaks<E(!new)>(alg: Algebra<E>, run: seq<E>, next: E, timer: bool)
    requires RunMerge(alg, run).Some?
  {
    var merged := RunMerge(alg, run).value;
    || timer || alg.fullness(merged) == Full
    || !alg.bufferable(merged) || !alg.bufferable(next) || !alg.merge(merged, next).Merged?
  }

  /** Nothing made the pump flush a beginning of the run before it read the event that follows. */
  ghost predicate Unbroken<E(!new)>(alg: Algebra<E>, timer: nat -> bool, run: seq<E>, end: nat) {
    && |run| <= end
    && (|run| > 1 ==>
          && RunMerge(alg, run[..|run| - 1]).Some?
          && !Breaks(alg, run[..|run| - 1], run[|run| - 1], timer(end - 1))
          && Unbroken(alg, timer, run[..|run| - 1], end - 1))
  }

  /** A run that ends before position `end` of the stream: it merges, and it ends at the first reason to flush it. */
  ghost predicate GoodRun<E(!new)>(alg: Algebra<E>, raw: seq<E>, timer: nat -> bool, run: seq<E>, end: nat) {
    && RunMerge(alg, run).Some?
    && Unbroken(alg, timer, run, end)
    && (end < |raw| ==> Breaks(alg, run, raw[end], timer(end)))
  }

  ghost predicate GoodRuns<E(!new)>(alg: Algebra<E>, raw: seq<E>, timer: nat -> bool, runs: seq<seq<E>>) {
    |runs| == 0
    || (GoodRuns(alg, raw, timer, runs[..|runs| - 1]) && GoodRun(alg, raw, timer, runs[|runs| - 1], |Concat(runs)|))
  }

  /** One merged event for each run. */
  ghost function Persisted<E(!new)>(alg: Algebra<E>, raw: seq<E>, timer: nat -> bool, runs: seq<seq<E>>): (log: seq<E>)
    requires GoodRuns(alg, raw, timer, runs)
    ensures |log| == |runs|
  {
    if |runs| == 0 then []
    else Persisted(alg, raw, timer, runs[..|runs| - 1]) + [RunMerge(alg, runs[|runs| - 1]).value]
  }

  predicate Quiet(respond: nat -> Response, n: nat) {
    forall j :: 0 <= j < n ==> respond(j) == Recorded || respond(j) == StaleGeneration
  }

  /** One of the first `n` answers was that the generation is stale. */
  predicate SawStale(respond: nat -> Response, n: nat) { exists j :: 0 <= j < n && respond(j) == StaleGeneration }

  /** `stale` says whether a stale answer came between the first `n` and the first `n'` answers. */
  predicate StaleSince(respond: nat -> Response, n: nat, n': nat, stale: bool) {
    SawStale(respond, n') <==> SawStale(respond, n) || stale
  }

  function AdapterCode(code: string): string {
    if "runtime_" <= code || "stream_" <= code || code == "provider_client_aborted" then code else "stream_" + code
  }

  /** The timer did not fire while a run was held: every firing between two events of a run would have ended it. */
  ghost predicate NoTimerInside<E(!new)>(timer: nat -> bool, runs: seq<seq<E>>) {
    forall k, i :: 0 <= k < |runs| && Within(runs, k, i) ==> !timer(i)
  }

  /** Position `i` of the stream lies behind the first event of run `k`. */
  ghost predicate Within<E>(runs: seq<seq<E>>, k: nat, i: nat)
    requires k < |runs|
  {
    |Concat(runs[..k])| < i < |Concat(runs[..k])| + |runs[k]|
  }

  lemma {:induction false} NoTimerInRun<E(!new)>(alg: Algebra<E>, timer: nat -> bool, run: seq<E>, end: nat, i: nat)
    requires Unbroken(alg, timer, run, end) && end - |run| < i < end
    ensures !timer(i)
  {
    if i < end - 1 {
      NoTimerInRun(alg, timer, run[..|run| - 1], end - 1, i);
    }
  }

  lemma {:induction false} RunAt<E(!new)>(alg: Algebra<E>, raw: seq<E>, timer: nat -> bool, runs: seq<seq<E>>, k: nat)
    requires GoodRuns(alg, raw, timer, runs) && k < |runs|
    ensures GoodRun(alg, raw, timer, runs[k], |Concat(runs[..k])| + |runs[k]|)
    ensures Concat(runs[..k]) + runs[k] <= Concat(runs)
  {
    if k < |runs| - 1 {
      RunAt(alg, raw, timer, runs[..|runs| - 1], k);
      assert runs[..|runs| - 1][..k] == runs[..k];
    }
  }

  /** The runs that may end before position `end`. */
  ghost function GoodBefore<E(!new)>(alg: Algebra<E>, raw: seq<E>, timer: nat -> bool, end: nat): seq<E> -> bool {
    run => GoodRun(alg, raw, timer, run, end)
  }

  lemma GoodAt<E(!new)>(alg: Algebra<E>, raw: seq<E>, timer: nat -> bool, runs: seq<seq<E>>, k: nat, run: seq<E>,
                        end: nat)
    requires GoodRuns(alg, raw, timer, runs) && k < |runs|
    requires run == runs[k] && end == |Concat(runs[..k])| + |run|
    ensures GoodBefore(alg, raw, timer, end)(run)
  {
    RunAt(alg, raw, timer, runs, k);
  }

  lemma {:induction false} RunsHoldNoTimer<E(!new)>(alg: Algebra<E>, raw: seq<E>, timer: nat -> bool,
                                                    runs: seq<seq<E>>)
    requires GoodRuns(alg, raw, timer, runs)
    ensures NoTimerInside(timer, runs)
  {
    forall k, i | 0 <= k < |runs| && Within(runs, k, i) ensures !timer(i) {
      RunAt(alg, raw, timer, runs, k);
      NoTimerInRun(alg, timer, runs[k], |Concat(runs[..k])| + |runs[k]|, i);
    }
  }

  lemma {:induction false} UnbrokenBefore<E(!new)>(alg: Algebra<E>, timer: nat -> bool, run: seq<E>, end: nat, n: nat)
    requires Unbroken(alg, timer, run, end) && 0 < n < |run|
    ensures RunMerge(alg, run[..n]).Some? && !Breaks(alg, run[..n], run[n], timer(end - |run| + n))
  {
    if n < |run| - 1 {
      UnbrokenBefore(alg, timer, run[..|run| - 1], end - 1, n);
      assert run[..|run| - 1][..n] == run[..n];
    }
  }

  /** A run that starts where another one does is not longer. */
  lemma NotLonger<E(!new)>(alg: Algebra<E>, raw: seq<E>, timer: nat -> bool, start: nat, run: seq<E>, run': seq<E>)
    requires GoodRun(alg, raw, timer, run, start + |run|) && GoodRun(alg, raw, timer, run', start + |run'|)
    requires start + |run| <= |raw| && start + |run'| <= |raw|
    requires run == raw[start..start + |run|] && run' == raw[start..start + |run'|]
    ensures |run'| <= |run|
  {
    if |run'| > |run| {
      assert run'[..|run|] == run && run'[|run|] == raw[start + |run|];
      UnbrokenBefore(alg, timer, run', start + |run'|, |run|);
      assert false;
    }
  }

  /** Stream, timer and number of runs determine the runs: two cuttings agree as far as both go. */
  lemma {:induction false} CuttingIsUnique<E(!new)>(alg: Algebra<E>, raw: seq<E>, timer: nat -> bool,
                                                    runs: seq<seq<E>>, runs': seq<seq<E>>, k: nat)
    requires GoodRuns(alg, raw, timer, runs) && Concat(runs) <= raw
    requires GoodRuns(alg, raw, timer, runs') && Concat(runs') <= raw
    requires k <= |runs| && k <= |runs'|
    ensures runs[..k] == runs'[..k]
  {
    if k > 0 {
      CuttingIsUnique(alg, raw, timer, runs, runs', k - 1);
      RunAt(alg, raw, timer, runs, k - 1);
      RunAt(alg, raw, timer, runs', k - 1);
      NextRunIsSame(alg, raw, timer, Concat(runs[..k - 1]), runs[k - 1], runs'[k - 1]);
      assert runs[..k] == runs[..k - 1] + [runs[k - 1]] && runs'[..k] == runs'[..k - 1] + [runs'[k - 1]];
    }
  }

  lemma NextRunIsSame<E(!new)>(alg: Algebra<E>, raw: seq<E>, timer: nat -> bool, before: seq<E>, run: seq<E>,
                               run': seq<E>)
    requires before + run <= raw && before + run' <= raw
    requires GoodRun(alg, raw, timer, run, |before| + |run|) && GoodRun(alg, raw, timer, run', |before| + |run'|)
    ensures run == run'
  {
    SliceAfter(raw, before, run);
    SliceAfter(raw, before, run');
    NotLonger(alg, raw, timer, |before|, run, run');
    NotLonger(alg, raw, timer, |before|, run', run);
  }

  lemma SliceAfter<E>(raw: seq<E>, before: seq<E>, run: seq<E>)
    requires before + run <= raw
    ensures |before| + |run| <= |raw| && run == raw[|before|..|before| + |run|]
  {
    assert raw[..|before| + |run|] == before + run;
  }

  /** Recorded codes are all of the runtime's or the stream's own family, except for the aborted client. */
  lemma CodesAreAttributed(code: string)
    ensures var recorded := AdapterCode(code);
            && ("runtime_" <= recorded || "stream_" <= recorded || recorded == "provider_client_aborted")
            && (recorded == code <==>
                  "runtime_" <= code || "stream_" <= code || code == "provider_client_aborted")
            && (recorded != code ==> recorded == "stream_" + code)
  {
  }

  // ---------- The loop ----------

  /** The events read before position `i` are in the log, run by run, or in the open run. */
  ghost predicate Pumping<E(!new)>(alg: Algebra<E>, raw: seq<E>, timer: nat -> bool, respond: nat -> Response, i: nat,
                    log: seq<E>, runs: seq<seq<E>>, open: seq<E>)
  {
    && i <= |raw| && Concat(runs) + open == raw[..i]
    && GoodRuns(alg, raw, timer, runs) && log == Persisted(alg, raw, timer, runs)
    && Quiet(respond, |log|)
    && Unbroken(alg, timer, open, i)
  }

  /** The buffer holds the merge of the open run, which is not full yet. */
  ghost predicate Holding<E(!new)>(alg: Algebra<E>, open: seq<E>, buffered: Option<E>) {
    if buffered.None? then open == []
    else
      RunMerge(alg, open) == buffered && alg.bufferable(buffered.value) && alg.fullness(buffered.value) != Full
  }

  /** The events handed over are a cutting of a prefix of the stream into runs, one event each. */
  ghost predicate Refines<E(!new)>(alg: Algebra<E>, raw: seq<E>, timer: nat -> bool, respond: nat -> Response,
                            log: seq<E>, runs: seq<seq<E>>) {
    && GoodRuns(alg, raw, timer, runs) && log == Persisted(alg, raw, timer, runs)
    && Concat(runs) <= raw && NoTimerInside(timer, runs)
    && (|log| > 0 ==> Quiet(respond, |log| - 1))
  }

  /** Hands one event to the sink; a terminal report or a journal error stops the pump. */
  method Persist<E(!new)>(alg: Algebra<E>, raw: seq<E>, ghost timer: nat -> bool, respond: nat -> Response,
                   ghost i: nat,
                 log: seq<E>, ghost runs: seq<seq<E>>, ghost run: seq<E>, event: E)
    returns (log': seq<E>, ghost runs': seq<seq<E>>, stop: Option<Outcome>, stale: bool)
    requires Pumping(alg, raw, timer, respond, i, log, runs, run)
    requires RunMerge(alg, run) == Some(event) && GoodRun(alg, raw, timer, run, i)
    ensures log' == log + [event] && runs' == runs + [run]
    ensures stop.None? ==> Pumping(alg, raw, timer, respond, i, log', runs', [])
    ensures stop.Some? ==> Refines(alg, raw, timer, respond, log', runs')
    ensures match respond(|log|)
            case ReportsTerminal(state) => stop == Some(Terminal(state))
            case JournalError => stop == Some(JournalFailed)
            case _ => stop == None && stale == respond(|log|).StaleGeneration?
    ensures StaleSince(respond, |log|, |log'|, stale)
  {
    log', runs' := log + [event], runs + [run];
    assert runs'[..|runs|] == runs && runs'[|runs|] == run;
    assert Concat(runs') + [] == raw[..i];
    RunsHoldNoTimer(alg, raw, timer, runs');
    stop, stale := None, false;
    match respond(|log|)
    case ReportsTerminal(state) => stop := Some(Terminal(state));
    case JournalError => stop := Some(JournalFailed);
    case StaleGeneration => stale := true;
    case Recorded =>
  }

  /** Takes event `i` from the stream. */
  method Arrive<E(!new)>(alg: Algebra<E>, raw: seq<E>, ghost timer: nat -> bool, respond: nat -> Response, i: nat,
                log: seq<E>, ghost runs: seq<seq<E>>, ghost open: seq<E>, buffered: Option<E>)
    returns (log': seq<E>, ghost runs': seq<seq<E>>, ghost open': seq<E>, buffered': Option<E>,
             stop: Option<Outcome>, stale: bool)
    requires alg.Lawful()
    requires i < |raw| && Pumping(alg, raw, timer, respond, i, log, runs, open) && Holding(alg, open, buffered)
    requires timer(i) ==> buffered.None?
    ensures stop.None? ==>
              Pumping(alg, raw, timer, respond, i + 1, log', runs', open') && Holding(alg, open', buffered')
    ensures stop.Some? ==> Refines(alg, raw, timer, respond, log', runs')
    ensures Stopped(stop, respond, log')
    ensures stop.None? ==> StaleSince(respond, |log|, |log'|, stale)
    ensures alg.wellTyped(raw[i]) && (buffered.Some? ==> alg.wellTyped(buffered.value)) ==>
              stop != Some(Crashed) && (buffered'.Some? ==> alg.wellTyped(buffered'.value))
  {
    var event := raw[i];
    if buffered.Some? && alg.bufferable(event) {
      var merge := alg.merge(buffered.value, event);
      if merge.Raises? {
        RefinesSoFar(alg, raw, timer, respond, i, log, runs, open);
        log', runs', open', buffered', stop, stale := log, runs, open, buffered, Some(Crashed), false;
        return;
      }
      if merge.Merged? {
        JoinRun(alg, raw, timer, respond, i, log, runs, open, buffered.value);
        log', runs', open', buffered', stop, stale :=
          FlushIfFull(alg, raw, timer, respond, i + 1, log, runs, open + [event], merge.event);
        return;
      }
    }
    if buffered.Some? {
      log', runs', stop, stale := Persist(alg, raw, timer, respond, i, log, runs, open, buffered.value);
      if stop.Some? {
        open', buffered' := [], None;
        return;
      }
      var freshStale;
      log', runs', open', buffered', stop, freshStale := Fresh(alg, raw, timer, respond, i, log', runs');
      stale := stale || freshStale;
    } else {
      log', runs', open', buffered', stop, stale := Fresh(alg, raw, timer, respond, i, log, runs);
    }
  }

  /** Takes event `i` when the buffer is empty. */
  method Fresh<E(!new)>(alg: Algebra<E>, raw: seq<E>, ghost timer: nat -> bool, respond: nat -> Response, i: nat,
                        log: seq<E>, ghost runs: seq<seq<E>>)
    returns (log': seq<E>, ghost runs': seq<seq<E>>, ghost open: seq<E>, buffered: Option<E>,
             stop: Option<Outcome>, stale: bool)
    requires alg.Lawful() && i < |raw| && Pumping(alg, raw, timer, respond, i, log, runs, [])
    ensures stop.None? ==> Pumping(alg, raw, timer, respond, i + 1, log', runs', open) && Holding(alg, open, buffered)
    ensures stop.Some? ==> Refines(alg, raw, timer, respond, log', runs')
    ensures Stopped(stop, respond, log')
    ensures stop.None? ==> StaleSince(respond, |log|, |log'|, stale)
    ensures alg.wellTyped(raw[i]) ==> stop != Some(Crashed) && (buffered.Some? ==> alg.wellTyped(buffered.value))
  {
    var event := raw[i];
    StartRun(alg, raw, timer, respond, i, log, runs);
    if alg.bufferable(event) {
      log', runs', open, buffered, stop, stale :=
        FlushIfFull(alg, raw, timer, respond, i + 1, log, runs, [event], event);
    } else {
      log', runs', stop, stale := Persist(alg, raw, timer, respond, i + 1, log, runs, [event], event);
      open, buffered := [], None;
    }
  }

  ghost predicate Stopped<E>(stop: Option<Outcome>, respond: nat -> Response, log: seq<E>) {
    match stop
    case None => true
    case Some(Terminal(state)) => |log| > 0 && respond(|log| - 1) == ReportsTerminal(state)
    case Some(JournalFailed) => |log| > 0 && respond(|log| - 1) == JournalError
    case Some(Crashed) => true
    case _ => false
  }

  /** Keeps the open run in the buffer, or hands it over when it has reached the size bound. */
  method FlushIfFull<E(!new)>(alg: Algebra<E>, raw: seq<E>, ghost timer: nat -> bool, respond: nat -> Response,
                       ghost i: nat,
                     log: seq<E>, ghost runs: seq<seq<E>>, ghost run: seq<E>, event: E)
    returns (log': seq<E>, ghost runs': seq<seq<E>>, ghost open: seq<E>, buffered: Option<E>,
             stop: Option<Outcome>, stale: bool)
    requires alg.Lawful()
    requires Pumping(alg, raw, timer, respond, i, log, runs, run)
    requires RunMerge(alg, run) == Some(event) && alg.bufferable(event)
    ensures stop.None? ==> Pumping(alg, raw, timer, respond, i, log', runs', open) && Holding(alg, open, buffered)
    ensures stop.Some? ==> Refines(alg, raw, timer, respond, log', runs')
    ensures Stopped(stop, respond, log')
    ensures stop.None? ==> StaleSince(respond, |log|, |log'|, stale)
    ensures alg.wellTyped(event) ==> stop != Some(Crashed)
    ensures buffered.Some? ==> buffered.value == event
  {
    log', runs', open, buffered, stop, stale := log, runs, run, Some(event), None, false;
    match alg.fullness(event) {
      case Room =>
      case Unmeasurable =>
        RefinesSoFar(alg, raw, timer, respond, i, log, runs, run);
        stop := Some(Crashed);
      case Full =>
        log', runs', stop, stale := Persist(alg, raw, timer, respond, i, log, runs, run, event);
        open, buffered := [], None;
    }
  }

  lemma {:induction false} RefinesSoFar<E(!new)>(alg: Algebra<E>, raw: seq<E>, timer: nat -> bool,
                                          respond: nat -> Response, i: nat,
                     log: seq<E>, runs: seq<seq<E>>, open: seq<E>)
    requires Pumping(alg, raw, timer, respond, i, log, runs, open)
    ensures Refines(alg, raw, timer, respond, log, runs)
  {
    assert Concat(runs) <= Concat(runs) + open <= raw;
    RunsHoldNoTimer(alg, raw, timer, runs);
  }

  /** The next event joins the open run. */
  lemma {:induction false} JoinRun<E(!new)>(alg: Algebra<E>, raw: seq<E>, timer: nat -> bool,
                                     respond: nat -> Response, i: nat,
                log: seq<E>, runs: seq<seq<E>>, open: seq<E>, buffered: E)
    requires i < |raw| && Pumping(alg, raw, timer, respond, i, log, runs, open) && Holding(alg, open, Some(buffered))
    requires alg.bufferable(raw[i]) && alg.merge(buffered, raw[i]).Merged? && !timer(i)
    ensures Pumping(alg, raw, timer, respond, i + 1, log, runs, open + [raw[i]])
    ensures RunMerge(alg, open + [raw[i]]) == Some(alg.merge(buffered, raw[i]).event)
  {
    assert (open + [raw[i]])[..|open|] == open;
    assert raw[..i + 1] == raw[..i] + [raw[i]];
    assert Concat(runs) + (open + [raw[i]]) == (Concat(runs) + open) + [raw[i]];
  }

  /** The next event starts a run of its own. */
  lemma {:induction false} StartRun<E(!new)>(alg: Algebra<E>, raw: seq<E>, timer: nat -> bool,
                                      respond: nat -> Response, i: nat, log: seq<E>, runs: seq<seq<E>>)
    requires i < |raw| && Pumping(alg, raw, timer, respond, i, log, runs, [])
    ensures Pumping(alg, raw, timer, respond, i + 1, log, runs, [raw[i]])
  {
    assert raw[..i + 1] == raw[..i] + [raw[i]];
  }

  /** Hands over what the buffer holds, if anything: the timer fired or the stream stopped. */
  method Flush<E(!new)>(alg: Algebra<E>, raw: seq<E>, ghost timer: nat -> bool, respond: nat -> Response, ghost i: nat,
                        log: seq<E>, ghost runs: seq<seq<E>>, ghost open: seq<E>, buffered: Option<E>)
    returns (log': seq<E>, ghost runs': seq<seq<E>>, stop: Option<Outcome>, stale: bool)
    requires Pumping(alg, raw, timer, respond, i, log, runs, open) && Holding(alg, open, buffered)
    requires i < |raw| ==> timer(i)
    ensures stop.None? ==> Pumping(alg, raw, timer, respond, i, log', runs', [])
    ensures stop.Some? ==> Refines(alg, raw, timer, respond, log', runs')
    ensures Stopped(stop, respond, log') && stop != Some(Crashed)
    ensures stop.None? ==> StaleSince(respond, |log|, |log'|, stale)
  {
    log', runs', stop, stale := log, runs, None, false;
    if buffered.Some? {
      log', runs', stop, stale := Persist(alg, raw, timer, respond, i, log, runs, open, buffered.value);
    }
  }

  lemma EndOfRaw<E(!new)>(alg: Algebra<E>, raw: seq<E>, timer: nat -> bool, respond: nat -> Response,
                          log: seq<E>, runs: seq<seq<E>>)
    requires Pumping(alg, raw, timer, respond, |raw|, log, runs, [])
    ensures Refines(alg, raw, timer, respond, log, runs) && Concat(runs) == raw && Quiet(respond, |log|)
  {
    assert raw[..|raw|] == raw && Concat(runs) + [] == Concat(runs);
    RunsHoldNoTimer(alg, raw, timer, runs);
  }

  function FailureCode(ending: Ending): string {
    match ending
    case EndOfStream => "stream_ended_without_terminal"
    case AdapterFailed(code) => AdapterCode(code)
    case Failed(name) => "stream_event_pump_" + name
  }

  /**
    The persisted sequence is the raw stream cut into consecutive runs, each replaced by its merge, up to
    the first event for which the sink reports a terminal, or else all of the stream followed by one
    failure record. Cancellation is not part of this model.
    */
  method Run<E(!new)>(alg: Algebra<E>, raw: seq<E>, ending: Ending, timer: nat -> bool, respond: nat -> Response)
    returns (log: seq<E>, failure: Option<string>, outcome: Outcome, ghost runs: seq<seq<E>>)
    requires alg.Lawful()
    ensures Refines(alg, raw, timer, respond, log, runs)
    ensures failure.None? ==> Stopped(Some(outcome), respond, log)
    ensures failure.Some? && outcome != Crashed ==>
              && Concat(runs) == raw && Quiet(respond, |log|) && failure == Some(FailureCode(ending))
              && (outcome == JournalFailed <==> respond(|log|) == JournalError)
              && (outcome.Interrupted? ==> Some(outcome.code) == failure && respond(|log|) != StaleGeneration)
              && (outcome == StaleIgnored <==>
                    || respond(|log|) == StaleGeneration
                    || (ending == EndOfStream && SawStale(respond, |log|) && respond(|log|) != JournalError))
              && !outcome.Terminal?
    ensures (forall k :: 0 <= k < |raw| ==> alg.wellTyped(raw[k])) ==> outcome != Crashed
  {
    log, runs, failure := [], [], None;
    var buffered: Option<E> := None;
    ghost var open: seq<E> := [];
    var stale, stepStale := false, false;
    var stop: Option<Outcome> := None;
    var i := 0;
    while i < |raw|
      invariant Pumping(alg, raw, timer, respond, i, log, runs, open) && Holding(alg, open, buffered)
      invariant stale <==> SawStale(respond, |log|)
      invariant (forall k :: 0 <= k < |raw| ==> alg.wellTyped(raw[k])) && buffered.Some? ==>
                  alg.wellTyped(buffered.value)
    {
      if timer(i) {
        log, runs, stop, stepStale := Flush(alg, raw, timer, respond, i, log, runs, open, buffered);
        stale := stale || stepStale;
        buffered, open := None, [];
        if stop.Some? {
          outcome := stop.value;
          return;
        }
      }
      log, runs, open, buffered, stop, stepStale := Arrive(alg, raw, timer, respond, i, log, runs, open, buffered);
      stale := stale || stepStale;
      if stop.Some? {
        outcome := stop.value;
        failure := if outcome == Crashed then Some("stream_event_pump_ValueError") else None;
        return;
      }
      i := i + 1;
    }
    // a timer that fires while the pump waits for the end only flushes earlier what is flushed here
    log, runs, stop, stepStale := Flush(alg, raw, timer, respond, i, log, runs, open, buffered);
    stale := stale || stepStale;
    if stop.Some? {
      outcome := stop.value;
      return;
    }
    EndOfRaw(alg, raw, timer, respond, log, runs);
    failure := Some(FailureCode(ending));
    outcome := match respond(|log|)
               case JournalError => JournalFailed
               case StaleGeneration => StaleIgnored
               case _ => if ending == EndOfStream && stale then StaleIgnored else Interrupted(FailureCode(ending));
  }
}
