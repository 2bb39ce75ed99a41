/**
  What coalescing keeps: the text of every item, the last value of everything that is replaced, and the
  totals of hidden reasoning are the same whatever the flush schedule, because they are those of the raw stream.
  */
module StreamMeaning {
  import opened EventPump
  import opened Events
  import opened Results
  import opened Texts

  ghost const ALG := EventAlgebra()

  // ---------- One run ----------

  /** The events of a run of more than one share its key. */
  lemma {:induction false} RunHasOneKey(run: seq<Event>)
    requires RunMerge(ALG, run).Some? && |run| > 1
    ensures BufferKey(RunMerge(ALG, run).value).Some?
    ensures forall i :: 0 <= i < |run| ==> BufferKey(run[i]) == BufferKey(RunMerge(ALG, run).value)
  {
    var prefix, last := run[..|run| - 1], run[|run| - 1];
    var before := RunMerge(ALG, prefix).value;
    MergeKeepsKey(before, last);
    if |prefix| > 1 {
      RunHasOneKey(prefix);
    }
    forall i | 0 <= i < |run| ensures BufferKey(run[i]) == BufferKey(RunMerge(ALG, run).value) {
      assert i < |run| - 1 ==> run[i] == prefix[i];
    }
  }

  // ---------- Text ----------

  predicate AppendsText(k: Key) { k.kind !in REPLACE_KINDS && k.kind != HIDDEN }

  function TextPart(e: Event, k: Key): string {
    if BufferKey(e) == Some(k) && TextOf(e).Some? then TextOf(e).value else ""
  }

  /** All text that the events carry for one item, in order. */
  function TextFor(events: seq<Event>, k: Key): string {
    if |events| == 0 then "" else TextFor(events[..|events| - 1], k) + TextPart(events[|events| - 1], k)
  }

  lemma {:induction false} TextForConcat(a: seq<Event>, b: seq<Event>, k: Key)
    ensures TextFor(a + b, k) == TextFor(a, k) + TextFor(b, k)
  {
    if |b| == 0 {
      assert a + b == a;
    } else {
      TextForConcat(a, b[..|b| - 1], k);
      assert (a + b)[..|a + b| - 1] == a + b[..|b| - 1];
    }
  }

  lemma {:induction false} TextOfRun(run: seq<Event>, k: Key)
    requires RunMerge(ALG, run).Some? && AppendsText(k)
    ensures TextPart(RunMerge(ALG, run).value, k) == TextFor(run, k)
  {
    if |run| == 1 {
      assert run[..0] == [];
    } else {
      var prefix, last := run[..|run| - 1], run[|run| - 1];
      TextOfRun(prefix, k);
      MergeKeepsKey(RunMerge(ALG, prefix).value, last);
    }
  }

  lemma {:induction false} TextIsKept(raw: seq<Event>, timer: nat -> bool, runs: seq<seq<Event>>, k: Key)
    requires GoodRuns(ALG, raw, timer, runs) && AppendsText(k)
    ensures TextFor(Persisted(ALG, raw, timer, runs), k) == TextFor(Concat(runs), k)
  {
    if |runs| > 0 {
      var before, run := runs[..|runs| - 1], runs[|runs| - 1];
      TextIsKept(raw, timer, before, k);
      TextOfRun(run, k);
      TextForConcat(Concat(before), run, k);
      Singleton(Persisted(ALG, raw, timer, before), RunMerge(ALG, run).value);
    }
  }

  lemma {:induction false} Singleton(log: seq<Event>, e: Event)
    ensures (log + [e])[..|log + [e]| - 1] == log && (log + [e])[|log + [e]| - 1] == e
  {
  }

  // ---------- Replaced values ----------

  /** The last event for a key. */
  function LastFor(events: seq<Event>, k: Key): Option<Event> {
    if |events| == 0 then None
    else if BufferKey(events[|events| - 1]) == Some(k) then Some(events[|events| - 1])
    else LastFor(events[..|events| - 1], k)
  }

  lemma {:induction false} LastForConcat(a: seq<Event>, b: seq<Event>, k: Key)
    ensures LastFor(a + b, k) == if LastFor(b, k).Some? then LastFor(b, k) else LastFor(a, k)
  {
    if |b| == 0 {
      assert a + b == a;
    } else {
      LastForConcat(a, b[..|b| - 1], k);
      assert (a + b)[..|a + b| - 1] == a + b[..|b| - 1];
    }
  }

  lemma {:induction false} LastOfRun(run: seq<Event>, k: Key)
    requires RunMerge(ALG, run).Some? && k.kind in REPLACE_KINDS
    ensures LastFor([RunMerge(ALG, run).value], k) == LastFor(run, k)
  {
    var merged := RunMerge(ALG, run).value;
    assert [merged][..0] == [];
    if |run| == 1 {
      assert run == [merged];
    } else {
      RunHasOneKey(run);
      if BufferKey(merged) != Some(k) {
        NoneFor(run, k);
      } else {
        assert BufferKey(run[|run| - 1]) == Some(k);
        assert merged == run[|run| - 1];
      }
    }
  }

  lemma {:induction false} NoneFor(events: seq<Event>, k: Key)
    requires forall i :: 0 <= i < |events| ==> BufferKey(events[i]) != Some(k)
    ensures LastFor(events, k) == None
  {
    if |events| > 0 {
      NoneFor(events[..|events| - 1], k);
    }
  }

  lemma {:induction false} LastIsKept(raw: seq<Event>, timer: nat -> bool, runs: seq<seq<Event>>, k: Key)
    requires GoodRuns(ALG, raw, timer, runs) && k.kind in REPLACE_KINDS
    ensures LastFor(Persisted(ALG, raw, timer, runs), k) == LastFor(Concat(runs), k)
  {
    if |runs| > 0 {
      var before, run := runs[..|runs| - 1], runs[|runs| - 1];
      LastIsKept(raw, timer, before, k);
      LastOfRun(run, k);
      LastForConcat(Concat(before), run, k);
      LastForConcat(Persisted(ALG, raw, timer, before), [RunMerge(ALG, run).value], k);
    }
  }

  // ---------- Hidden reasoning ----------

  predicate AllTyped(events: seq<Event>) { forall i :: 0 <= i < |events| ==> WellTyped(events[i]) }

  function Part(e: Event, k: Key, measure: Event -> Option<int>): int {
    if BufferKey(e) == Some(k) then OrZero(measure(e)) else 0
  }

  function SumFor(events: seq<Event>, k: Key, measure: Event -> Option<int>): int {
    if |events| == 0 then 0 else SumFor(events[..|events| - 1], k, measure) + Part(events[|events| - 1], k, measure)
  }

  lemma {:induction false} SumForConcat(a: seq<Event>, b: seq<Event>, k: Key, measure: Event -> Option<int>)
    ensures SumFor(a + b, k, measure) == SumFor(a, k, measure) + SumFor(b, k, measure)
  {
    if |b| == 0 {
      assert a + b == a;
    } else {
      SumForConcat(a, b[..|b| - 1], k, measure);
      assert (a + b)[..|a + b| - 1] == a + b[..|b| - 1];
    }
  }

  function Sizes(): Event -> Option<int> { e => HiddenSize(e) }

  function Chunks(): Event -> Option<int> { e => ChunkCount(e) }

  lemma {:induction false} RunIsTyped(run: seq<Event>)
    requires RunMerge(ALG, run).Some? && AllTyped(run)
    ensures WellTyped(RunMerge(ALG, run).value)
  {
    if |run| > 1 {
      RunIsTyped(run[..|run| - 1]);
      MergeKeepsTypes(RunMerge(ALG, run[..|run| - 1]).value, run[|run| - 1]);
    }
  }

  /** A run's size is the sum of its sizes; its chunk count is the first one plus one for each further event. */
  lemma {:induction false} HiddenRun(run: seq<Event>, k: Key)
    requires RunMerge(ALG, run).Some? && AllTyped(run) && k.kind == HIDDEN
    requires BufferKey(RunMerge(ALG, run).value) == Some(k)
    ensures OrZero(HiddenSize(RunMerge(ALG, run).value)) == SumFor(run, k, Sizes())
    ensures ChunkCount(RunMerge(ALG, run).value) == Some(ChunkCount(run[0]).value + |run| - 1)
  {
    if |run| == 1 {
      assert run[..0] == [];
    } else {
      var prefix, last := run[..|run| - 1], run[|run| - 1];
      MergeKeepsKey(RunMerge(ALG, prefix).value, last);
      RunIsTyped(prefix);
      HiddenRun(prefix, k);
    }
  }

  /** The chunks of a run are conserved exactly when its further events carry a total count of one each. */
  lemma {:induction false} ChunksOfRun(run: seq<Event>, k: Key)
    requires RunMerge(ALG, run).Some? && AllTyped(run) && k.kind == HIDDEN
    requires BufferKey(RunMerge(ALG, run).value) == Some(k)
    ensures ChunkCount(RunMerge(ALG, run).value).value == SumFor(run, k, Chunks())
            <==> SumFor(run[1..], k, Chunks()) == |run| - 1
  {
    HiddenRun(run, k);
    assert run == [run[0]] + run[1..];
    SumForConcat([run[0]], run[1..], k, Chunks());
    assert [run[0]][..0] == [];
    if |run| > 1 {
      RunHasOneKey(run);
    }
  }

  /** What the adapters produce: hidden deltas without a chunk count of their own. */
  predicate Unmerged(events: seq<Event>) { forall i :: 0 <= i < |events| ==> "chunk_count" !in events[i].payload }

  lemma {:induction false} UnmergedCounts(events: seq<Event>, k: Key)
    requires Unmerged(events) && forall i :: 0 <= i < |events| ==> BufferKey(events[i]) == Some(k)
    ensures SumFor(events, k, Chunks()) == |events|
  {
    if |events| > 0 {
      UnmergedCounts(events[..|events| - 1], k);
    }
  }

  lemma {:induction false} ForeignRun(run: seq<Event>, k: Key, measure: Event -> Option<int>)
    requires forall i :: 0 <= i < |run| ==> BufferKey(run[i]) != Some(k)
    ensures SumFor(run, k, measure) == 0
  {
    if |run| > 0 {
      ForeignRun(run[..|run| - 1], k, measure);
    }
  }

  lemma {:induction false} HiddenPartOfRun(run: seq<Event>, k: Key)
    requires RunMerge(ALG, run).Some? && AllTyped(run) && Unmerged(run) && k.kind == HIDDEN
    ensures Part(RunMerge(ALG, run).value, k, Sizes()) == SumFor(run, k, Sizes())
    ensures Part(RunMerge(ALG, run).value, k, Chunks()) == SumFor(run, k, Chunks())
  {
    var merged := RunMerge(ALG, run).value;
    if |run| > 1 {
      RunHasOneKey(run);
    }
    if BufferKey(merged) == Some(k) {
      assert BufferKey(run[0]) == Some(k);
      HiddenRun(run, k);
      UnmergedCounts(run[1..], k);
      ChunksOfRun(run, k);
    } else {
      ForeignRun(run, k, Sizes());
      ForeignRun(run, k, Chunks());
    }
  }

  /** The measure that is summed: chunk counts or sizes. */
  function Measure(counting: bool): Event -> Option<int> { if counting then Chunks() else Sizes() }

  lemma {:induction false} PartsAreTyped(a: seq<Event>, b: seq<Event>)
    requires AllTyped(a + b) && Unmerged(a + b)
    ensures AllTyped(a) && Unmerged(a) && AllTyped(b) && Unmerged(b)
  {
    assert forall i :: 0 <= i < |a| ==> a[i] == (a + b)[i];
    assert forall i :: 0 <= i < |b| ==> b[i] == (a + b)[|a| + i];
  }

  lemma {:induction false} HiddenTotalsAreKept(raw: seq<Event>, timer: nat -> bool, runs: seq<seq<Event>>, k: Key,
                                               counting: bool)
    requires GoodRuns(ALG, raw, timer, runs) && k.kind == HIDDEN
    requires AllTyped(Concat(runs)) && Unmerged(Concat(runs))
    ensures SumFor(Persisted(ALG, raw, timer, runs), k, Measure(counting)) == SumFor(Concat(runs), k, Measure(counting))
  {
    if |runs| > 0 {
      var before, run := runs[..|runs| - 1], runs[|runs| - 1];
      PartsAreTyped(Concat(before), run);
      HiddenTotalsAreKept(raw, timer, before, k, counting);
      HiddenPartOfRun(run, k);
      SumForConcat(Concat(before), run, k, Measure(counting));
      Singleton(Persisted(ALG, raw, timer, before), RunMerge(ALG, run).value);
    }
  }

  // ---------- Any two flush schedules ----------

  /** Two pumps that drain the same stream on different schedules persist the same content. */
  lemma {:induction false} ScheduleIndependence(raw: seq<Event>, timer: nat -> bool, runs: seq<seq<Event>>,
                             timer': nat -> bool, runs': seq<seq<Event>>, k: Key)
    requires GoodRuns(ALG, raw, timer, runs) && Concat(runs) == raw
    requires GoodRuns(ALG, raw, timer', runs') && Concat(runs') == raw
    ensures var log, log' := Persisted(ALG, raw, timer, runs), Persisted(ALG, raw, timer', runs');
            && (AppendsText(k) ==> TextFor(log, k) == TextFor(log', k) == TextFor(raw, k))
            && (k.kind in REPLACE_KINDS ==> LastFor(log, k) == LastFor(log', k) == LastFor(raw, k))
            && (k.kind == HIDDEN && AllTyped(raw) && Unmerged(raw) ==>
                  && SumFor(log, k, Sizes()) == SumFor(log', k, Sizes()) == SumFor(raw, k, Sizes())
                  && SumFor(log, k, Chunks()) == SumFor(log', k, Chunks()) == SumFor(raw, k, Chunks()))
  {
    if AppendsText(k) {
      TextIsKept(raw, timer, runs, k);
      TextIsKept(raw, timer', runs', k);
    }
    if k.kind in REPLACE_KINDS {
      LastIsKept(raw, timer, runs, k);
      LastIsKept(raw, timer', runs', k);
    }
    if k.kind == HIDDEN && AllTyped(raw) && Unmerged(raw) {
      HiddenTotalsAreKept(raw, timer, runs, k, true);
      HiddenTotalsAreKept(raw, timer, runs, k, false);
      HiddenTotalsAreKept(raw, timer', runs', k, true);
      HiddenTotalsAreKept(raw, timer', runs', k, false);
    }
  }

  // ---------- Size ----------

  lemma {:induction false} ByteLengthConcat(a: string, b: string)
    ensures ByteLength(a + b) == ByteLength(a) + ByteLength(b)
  {
    Utf8Chunks.EncodeJoin(a + b, 0, |a|, |a + b|);
    assert (a + b)[0..|a|] == a && (a + b)[|a|..|a + b|] == b && (a + b)[0..|a + b|] == a + b;
  }

  /** A persisted text event is shorter than the size bound plus the last raw event that went into it. */
  lemma {:induction false} TextEventIsBounded(raw: seq<Event>, timer: nat -> bool, run: seq<Event>, end: nat, k: Key)
    requires GoodRun(ALG, raw, timer, run, end) && AppendsText(k)
    requires BufferKey(RunMerge(ALG, run).value) == Some(k)
    ensures ByteLength(TextPart(RunMerge(ALG, run).value, k))
            < MAX_BUFFERED_BYTES + ByteLength(TextPart(run[|run| - 1], k))
  {
    if |run| > 1 {
      var prefix, last := run[..|run| - 1], run[|run| - 1];
      var before := RunMerge(ALG, prefix).value;
      MergeKeepsKey(before, last);
      assert FullnessOf(before) != Full;
      ByteLengthConcat(TextOf(before).value, TextOf(last).value);
    }
  }

  /** The next event could have been merged into the persisted one. */
  predicate CouldJoin(persisted: Event, next: Event) {
    && BufferKey(next).Some? && BufferKey(persisted) == BufferKey(next) && WellTyped(persisted) && WellTyped(next)
    && (|| next.kind in REPLACE_KINDS || next.kind == HIDDEN
        || (TextOf(persisted).Some? && TextOf(next).Some?))
  }

  /** The event holds no less than the size bound of 64 KiB. */
  predicate HoldsMuch(e: Event) {
    && e.kind !in REPLACE_KINDS
    && if "text" in e.payload && e.payload["text"].Text? then ByteLength(e.payload["text"].text) >= 64 * 1024
       else BufferedSize(e).Some? && BufferedSize(e).value >= 64 * 1024
  }

  /** The event at `end` could not have joined the run that ends there, or the run had to end there. */
  ghost function HadToEnd(raw: seq<Event>, timer: nat -> bool, end: nat): seq<Event> -> bool {
    run =>
      && RunMerge(ALG, run).Some?
      && (end < |raw| && CouldJoin(RunMerge(ALG, run).value, raw[end]) ==>
            timer(end) || HoldsMuch(RunMerge(ALG, run).value))
  }

  lemma RunHadToEnd(raw: seq<Event>, timer: nat -> bool, run: seq<Event>, end: nat)
    requires GoodBefore(ALG, raw, timer, end)(run)
    ensures HadToEnd(raw, timer, end)(run)
  {
    if end < |raw| && CouldJoin(RunMerge(ALG, run).value, raw[end]) && !timer(end) {
      MergesExactly(RunMerge(ALG, run).value, raw[end]);
    }
  }

  /**
    Nothing is persisted before it has to be: when the event after a run could have joined it, the timer had
    fired, or the run had reached the size bound.
    */
  lemma CoalescesFully(raw: seq<Event>, timer: nat -> bool, runs: seq<seq<Event>>, k: nat, run: seq<Event>, end: nat)
    requires GoodRuns(ALG, raw, timer, runs) && k < |runs|
    requires run == runs[k] && end == |Concat(runs[..k])| + |run|
    ensures HadToEnd(raw, timer, end)(run)
  {
    GoodAt(ALG, raw, timer, runs, k, run, end);
    RunHadToEnd(raw, timer, run, end);
  }

  /** The pump on provider events. */
  method PumpEvents(raw: seq<Event>, ending: Ending, timer: nat -> bool, respond: nat -> Response)
    returns (log: seq<Event>, failure: Option<string>, outcome: Outcome, ghost runs: seq<seq<Event>>)
    ensures Refines(ALG, raw, timer, respond, log, runs)
    ensures failure.None? ==> Stopped(Some(outcome), respond, log)
    ensures failure.Some? && outcome != Crashed ==>
              && Concat(runs) == raw && Quiet(respond, |log|) && failure == Some(FailureCode(ending))
              && (outcome == StaleIgnored <==>
                    || respond(|log|) == StaleGeneration
                    || (ending == EndOfStream && SawStale(respond, |log|) && respond(|log|) != JournalError))
    ensures AllTyped(raw) ==> outcome != Crashed
  {
    EventsAreLawful();
    log, failure, outcome, runs := Run(EventAlgebra(), raw, ending, timer, respond);
  }
}
