/** Provider events, the merge of buffered ones, and what the pump makes of a stream of them. */
module Events {
  import opened EventPump
  import opened Results
  import Utf8Chunks

  /** A payload value: text, a number, or anything else. */
  datatype Value = Text(text: string) | Number(number: int) | Other(tag: int)

  type Payload = map<string, Value>

  datatype Event = Event(kind: string, payload: Payload, providerEventId: Option<string>, occurredAt: int,
                         rawType: Option<string>, rawHash: Option<string>, rawSize: Option<int>, schemaVersion: int)

  const HIDDEN := "reasoning.hidden_delta_discarded"
  const SUMMARY := "reasoning.summary"
  const REPLACE_KINDS: set<string> := {"diff.updated", "plan.updated", "usage.updated"}
  const APPEND_KINDS: set<string> :=
    {"assistant.text.delta", "plan.delta", SUMMARY, HIDDEN, "command.output.delta", "file_change.output.delta"}
  const MAX_BUFFERED_BYTES := 64 * 1024

  datatype Key = OfKind(kind: string) | OfItem(kind: string, item: string)
               | OfSummary(kind: string, item: string, index: Option<Value>)

  function Lookup(p: Payload, name: string): Option<Value> { if name in p then Some(p[name]) else None }

  /** Events with the same key may be merged; None is never buffered. */
  function BufferKey(e: Event): (key: Option<Key>)
    ensures key.Some? ==> key.value.kind == e.kind && e.kind in REPLACE_KINDS + APPEND_KINDS
    ensures key.Some? && e.kind in APPEND_KINDS && e.kind !in REPLACE_KINDS ==> "item_id" in e.payload
  {
    if e.kind !in REPLACE_KINDS + APPEND_KINDS || e.providerEventId.Some? then None
    else if e.kind in REPLACE_KINDS then Some(OfKind(e.kind))
    else
      match Lookup(e.payload, "item_id")
      case Some(Text(item)) =>
        if e.kind == SUMMARY then Some(OfSummary(e.kind, item, Lookup(e.payload, "summary_index")))
        else Some(OfItem(e.kind, item))
      case _ => None
  }

  /** int(payload.get(name, default)); None stands for the exception on something that is not a number. */
  function Count(p: Payload, name: string, default: int): Option<int> {
    match Lookup(p, name)
    case None => Some(default)
    case Some(Number(n)) => Some(n)
    case Some(_) => None
  }

  function OrZero(n: Option<int>): int { if n.Some? then n.value else 0 }

  function HiddenSize(e: Event): Option<int> { Count(e.payload, "raw_size", OrZero(e.rawSize)) }

  function ChunkCount(e: Event): Option<int> { Count(e.payload, "chunk_count", 1) }

  /** payload.get("text", ""); None when it is not a text. */
  function TextOf(e: Event): Option<string> {
    match Lookup(e.payload, "text")
    case None => Some("")
    case Some(Text(t)) => Some(t)
    case Some(_) => None
  }

  function Combined(previous: Event, current: Event, payload: Payload): Event {
    Event(current.kind, payload, None, current.occurredAt,
          if current.rawType.Some? && current.rawType.value != "" then current.rawType else previous.rawType,
          None,
          if previous.rawSize.Some? || current.rawSize.Some?
          then Some(OrZero(previous.rawSize) + OrZero(current.rawSize))
          else None,
          current.schemaVersion)
  }

  function MergeBuffered(previous: Event, current: Event): Merge<Event> {
    if BufferKey(previous) != BufferKey(current) then Separate
    else if current.kind in REPLACE_KINDS then Merged(current)
    else if current.kind == HIDDEN then
      match (HiddenSize(previous), HiddenSize(current), ChunkCount(previous), Lookup(current.payload, "item_id"))
      case (Some(before), Some(now), Some(count), Some(item)) =>
        Merged(Combined(previous, current,
                        map["item_id" := item, "chunk_count" := Number(count + 1), "raw_size" := Number(before + now)]))
      case _ => Raises
    else
      match (TextOf(previous), TextOf(current))
      case (Some(before), Some(now)) =>
        Merged(Combined(previous, current, previous.payload + current.payload + map["text" := Text(before + now)]))
      case _ => Separate
  }

  function ByteLength(t: string): nat { |Utf8Chunks.EncodeAll(t)| }

  /** The size that counts towards a flush; None stands for the exception. */
  function BufferedSize(e: Event): Option<int> {
    match (Lookup(e.payload, "text"), Lookup(e.payload, "diff"))
    case (Some(Text(t)), _) => Some(ByteLength(t))
    case (_, Some(Text(d))) => Some(ByteLength(d))
    case _ => if OrZero(e.rawSize) != 0 then e.rawSize else Count(e.payload, "raw_size", 0)
  }

  /** The numeric fields are numbers, as every adapter makes them. */
  predicate WellTyped(e: Event) {
    Count(e.payload, "raw_size", 0).Some? && Count(e.payload, "chunk_count", 0).Some?
  }

  // ---------- Keys and types under merging ----------

  lemma {:induction false} MergeKeepsKey(previous: Event, current: Event)
    requires BufferKey(current).Some? && MergeBuffered(previous, current).Merged?
    ensures BufferKey(MergeBuffered(previous, current).event) == BufferKey(current) == BufferKey(previous)
    ensures MergeBuffered(previous, current).event.kind == current.kind == previous.kind
  {
    if current.kind !in REPLACE_KINDS && current.kind != HIDDEN {
      var payload := MergeBuffered(previous, current).event.payload;
      assert Lookup(payload, "item_id") == Lookup(current.payload, "item_id");
      assert Lookup(payload, "summary_index")
          == if "summary_index" in current.payload then Lookup(current.payload, "summary_index")
             else Lookup(previous.payload, "summary_index");
    }
  }

  lemma {:induction false} MergeKeepsTypes(previous: Event, current: Event)
    requires WellTyped(previous) && WellTyped(current) && BufferKey(current).Some?
    ensures !MergeBuffered(previous, current).Raises?
    ensures MergeBuffered(previous, current).Merged? ==> WellTyped(MergeBuffered(previous, current).event)
  {
  }

  // ---------- What is merged ----------

  /** Events of the listed kinds are buffered, unless they have an identity of their own or no item to append to. */
  lemma BufferedExactly(e: Event)
    ensures BufferKey(e).Some?
            <==> && e.providerEventId.None?
                 && (|| e.kind in REPLACE_KINDS
                     || (e.kind in APPEND_KINDS && "item_id" in e.payload && e.payload["item_id"].Text?))
  {
  }

  /** Buffered events share a key exactly when they are of one kind and, if they append, of one item and index. */
  lemma SameKeyExactly(a: Event, b: Event)
    requires BufferKey(a).Some? && BufferKey(b).Some?
    ensures BufferKey(a) == BufferKey(b)
            <==> && a.kind == b.kind
                 && (a.kind !in REPLACE_KINDS ==> a.payload["item_id"] == b.payload["item_id"])
                 && (a.kind == SUMMARY ==> Lookup(a.payload, "summary_index") == Lookup(b.payload, "summary_index"))
  {
  }

  /** Well-typed events of one key are merged, unless they append something that is not a text. */
  lemma MergesExactly(previous: Event, current: Event)
    requires WellTyped(previous) && WellTyped(current) && BufferKey(current).Some?
    ensures MergeBuffered(previous, current).Merged?
            <==> && BufferKey(previous) == BufferKey(current)
                 && (|| current.kind in REPLACE_KINDS || current.kind == HIDDEN
                     || (TextOf(previous).Some? && TextOf(current).Some?))
  {
  }

  /** The merge is the later event, but for what it appends or counts and for a raw type that only the earlier has. */
  lemma MergeTakesTheLater(previous: Event, current: Event)
    requires BufferKey(current).Some? && MergeBuffered(previous, current).Merged?
    ensures var e := MergeBuffered(previous, current).event;
            && e.kind == current.kind && e.occurredAt == current.occurredAt && e.schemaVersion == current.schemaVersion
            && e.providerEventId.None?
            && (current.kind in REPLACE_KINDS ==> e == current)
            && (current.kind !in REPLACE_KINDS ==>
                  && OrZero(e.rawSize) == OrZero(previous.rawSize) + OrZero(current.rawSize)
                  && (current.rawType.Some? && current.rawType.value != "" ==> e.rawType == current.rawType)
                  && (current.rawType.None? ==> e.rawType == previous.rawType))
            && (current.kind !in REPLACE_KINDS + {HIDDEN} ==>
                  forall name :: name in current.payload && name != "text" ==>
                    name in e.payload && e.payload[name] == current.payload[name])
  {
  }

  // ---------- Associativity ----------

  lemma SamePayload(a: Payload, b: Payload, c: Payload, before: string, now: string, next: string)
    ensures (a + b + map["text" := Text(before + now)]) + c + map["text" := Text((before + now) + next)]
         == a + (b + c + map["text" := Text(now + next)]) + map["text" := Text(before + (now + next))]
  {
    assert (before + now) + next == before + (now + next);
  }

  /** Text and replacement merges can be grouped either way. */
  lemma {:induction false} MergeIsAssociative(a: Event, b: Event, c: Event)
    requires BufferKey(a) == BufferKey(b) == BufferKey(c) && BufferKey(c).Some? && c.kind != HIDDEN
    requires MergeBuffered(a, b).Merged? && MergeBuffered(b, c).Merged?
    ensures MergeBuffered(MergeBuffered(a, b).event, c).Merged?
    ensures MergeBuffered(MergeBuffered(a, b).event, c) == MergeBuffered(a, MergeBuffered(b, c).event)
  {
    MergeKeepsKey(a, b);
    MergeKeepsKey(b, c);
    if c.kind !in REPLACE_KINDS {
      var before, now, next := TextOf(a).value, TextOf(b).value, TextOf(c).value;
      assert TextOf(MergeBuffered(a, b).event) == Some(before + now);
      assert TextOf(MergeBuffered(b, c).event) == Some(now + next);
      SamePayload(a.payload, b.payload, c.payload, before, now, next);
    }
  }

  /**
    The merge of hidden deltas is never associative: it counts the right operand as one chunk however many
    it stands for. The sizes agree, the counts differ by one.
    */
  lemma {:induction false} HiddenMergeIsNotAssociative(a: Event, b: Event, c: Event)
    requires BufferKey(a) == BufferKey(b) == BufferKey(c) && BufferKey(c).Some? && c.kind == HIDDEN
    requires WellTyped(a) && WellTyped(b) && WellTyped(c)
    ensures var left, right := MergeBuffered(MergeBuffered(a, b).event, c), MergeBuffered(a, MergeBuffered(b, c).event);
            && left.Merged? && right.Merged?
            && HiddenSize(left.event) == HiddenSize(right.event)
            && ChunkCount(left.event).value == ChunkCount(right.event).value + 1
  {
    MergeKeepsKey(a, b);
    MergeKeepsKey(b, c);
  }

  // ---------- The pump on these events ----------

  function FullnessOf(e: Event): Fullness {
    if e.kind in REPLACE_KINDS then Room
    else
      match BufferedSize(e)
      case None => Unmeasurable
      case Some(size) => if size >= MAX_BUFFERED_BYTES then Full else Room
  }

  function EventAlgebra(): Algebra<Event> {
    Algebra(e => BufferKey(e).Some?, (a, b) => MergeBuffered(a, b), e => FullnessOf(e), e => WellTyped(e))
  }

  lemma {:induction false} EventsAreLawful()
    ensures EventAlgebra().Lawful()
  {
    forall a, b | BufferKey(b).Some?
      ensures MergeBuffered(a, b).Merged? ==> BufferKey(MergeBuffered(a, b).event).Some?
      ensures WellTyped(a) && WellTyped(b) ==> !MergeBuffered(a, b).Raises?
      ensures WellTyped(a) && WellTyped(b) && MergeBuffered(a, b).Merged? ==> WellTyped(MergeBuffered(a, b).event)
    {
      if MergeBuffered(a, b).Merged? {
        MergeKeepsKey(a, b);
      }
      if WellTyped(a) && WellTyped(b) {
        MergeKeepsTypes(a, b);
      }
    }
  }
}
