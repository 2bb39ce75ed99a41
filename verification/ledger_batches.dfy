/**
  Undisturbed passes at one instant: however a backlog is cut into batches, the ledger comes out the same.
  And the one way to get stuck: a cursor that is already recorded.
  */
module LedgerBatches {
  import opened Results
  import opened Schedules
  import opened ScheduleLedger
  import opened LedgerRuns

  // ---------- The backlog ----------

  /** All occurrences from the cursor up to `now`. */
  ghost function Backlog(next: int -> Option<int>, cursor: Option<int>, now: int): seq<int>
    requires Advancing(next)
    decreases if cursor.Some? && cursor.value <= now then now - cursor.value + 1 else 0
  {
    if cursor.None? || cursor.value > now then []
    else [cursor.value] + Backlog(next, next(cursor.value), now)
  }

  /** The first occurrence after `now`. */
  ghost function Following(next: int -> Option<int>, cursor: Option<int>, now: int): Option<int>
    requires Advancing(next)
    decreases if cursor.Some? && cursor.value <= now then now - cursor.value + 1 else 0
  {
    if cursor.None? || cursor.value > now then cursor else Following(next, next(cursor.value), now)
  }

  ghost predicate Climbing(batch: seq<int>) { forall i, j :: 0 <= i < j < |batch| ==> batch[i] < batch[j] }

  ghost predicate Between(batch: seq<int>, cursor: Option<int>, now: int) {
    forall i :: 0 <= i < |batch| ==> cursor.Some? && cursor.value <= batch[i] <= now
  }

  lemma {:induction false} BacklogClimbs(next: int -> Option<int>, cursor: Option<int>, now: int)
    requires Advancing(next)
    ensures Climbing(Backlog(next, cursor, now)) && Between(Backlog(next, cursor, now), cursor, now)
    ensures Following(next, cursor, now).Some? ==> Following(next, cursor, now).value > now
    decreases if cursor.Some? && cursor.value <= now then now - cursor.value + 1 else 0
  {
    if cursor.Some? && cursor.value <= now {
      var following := next(cursor.value);
      BacklogClimbs(next, following, now);
      var rest := Backlog(next, following, now);
      assert following.Some? ==> following.value > cursor.value;
      assert Between(rest, cursor, now);
      assert Between([cursor.value] + rest, cursor, now) && Climbing([cursor.value] + rest);
      assert Backlog(next, cursor, now) == [cursor.value] + rest;
    } else {
      assert Backlog(next, cursor, now) == [];
    }
  }

  function Least(a: nat, b: nat): nat { if a < b then a else b }

  /** A batch is the beginning of the backlog, and the rest of the backlog starts after it. */
  lemma {:induction false} BatchOfBacklog(next: int -> Option<int>, cursor: Option<int>, now: int, cap: nat)
    requires Advancing(next)
    ensures var b := Backlog(next, cursor, now);
            var beyond := Beyond(next, cursor, now, cap);
            var n := Least(cap, |b|);
            && Batch(next, cursor, now, cap) == b[..n]
            && Backlog(next, beyond, now) == b[n..]
            && Following(next, beyond, now) == Following(next, cursor, now)
            && (cap < |b| ==> beyond == Some(b[cap]))
            && (cap >= |b| ==> beyond == Following(next, cursor, now))
    decreases cap
  {
    if cursor.Some? && cursor.value <= now && cap > 0 {
      BatchOfBacklog(next, next(cursor.value), now, cap - 1);
    }
  }

  // ---------- Passes without interference ----------

  function RunAll(row: Row, w: Worker): Row
    requires w.Valid()
    decreases if w.Working? then |w.calls| - w.at else 0
  {
    if w.Idle? then row
    else
      var (row', answer) := Perform(row, w.calls[w.at], w.version, Available);
      RunAll(row', Proceed(w, answer))
  }

  predicate Due(row: Row, now: int) { row.status == Active && row.cursor.Some? && row.cursor.value <= now }

  /** One tick with an available target. */
  function Tick(row: Row, now: int, cap: nat, boundary: int): Row {
    if Due(row, now) then RunAll(row, Begin(row, now, cap, boundary)) else row
  }

  function Ticks(row: Row, now: int, cap: nat, boundary: int, n: nat): Row
    decreases n
  {
    if n == 0 then row else Ticks(Tick(row, now, cap, boundary), now, cap, boundary, n - 1)
  }

  /** The record of an occurrence; only the last one before the present is `latest`. */
  function Entry(policy: Policy, due: int, latest: bool, boundary: int): Fire {
    if Selects(policy, due, latest, boundary) then Fire(due, WasMaterialized, TriggerOf(due, boundary))
    else Fire(due, WasSkipped, Misfire)
  }

  /** The row once the occurrences `dues` are recorded; `reaches` says that the last one is the latest. */
  function Record(row: Row, dues: seq<int>, reaches: bool, next: Option<int>, boundary: int): Row {
    row.(version := row.version + |dues|, cursor := next,
         fires := row.fires + seq(|dues|, i requires 0 <= i < |dues| =>
                    Entry(row.epoch.policy, dues[i], reaches && i == |dues| - 1, boundary)),
         status := if |dues| > 0 && row.epoch.once && next.None? then Completed else row.status)
  }

  /** The ledger that all of the backlog leads to at once. */
  ghost function Settled(row: Row, now: int, boundary: int): Row
    requires Advancing(row.epoch.next)
  {
    Record(row, Backlog(row.epoch.next, row.cursor, now), true, Following(row.epoch.next, row.cursor, now), boundary)
  }

  ghost predicate Ready(row: Row) {
    && Advancing(row.epoch.next)
    && (row.cursor.Some? ==> row.status == Active && AllBefore(row.fires, row.cursor.value))
  }

  /** The row after the first `k` calls. */
  ghost function SoFar(row: Row, batch: seq<int>, reaches: bool, next: Option<int>, boundary: int, k: nat): Row
    requires k <= |batch|
  {
    if k == |batch| then Record(row, batch, reaches, next, boundary)
    else Record(row, batch[..k], false, Some(batch[k]), boundary)
  }

  lemma RecordedBefore(row: Row, dues: seq<int>, reaches: bool, next: Option<int>, boundary: int, t: int)
    requires AllBefore(row.fires, t) && forall i :: 0 <= i < |dues| ==> dues[i] < t
    ensures AllBefore(Record(row, dues, reaches, next, boundary).fires, t)
  {
    var fires := Record(row, dues, reaches, next, boundary).fires;
    forall i | 0 <= i < |fires| ensures fires[i].due < t {
      assert i >= |row.fires| ==> fires[i].due == dues[i - |row.fires|];
    }
  }

  lemma NotYetRecorded(row: Row, batch: seq<int>, reaches: bool, next: Option<int>, boundary: int, k: nat)
    requires k < |batch| && Climbing(batch) && AllBefore(row.fires, batch[0])
    ensures !Recorded(SoFar(row, batch, reaches, next, boundary, k).fires, batch[k])
  {
    assert AllBefore(row.fires, batch[k]);
    RecordedBefore(row, batch[..k], false, Some(batch[k]), boundary, batch[k]);
  }

  lemma FiresGrow(row: Row, batch: seq<int>, reaches: bool, next: Option<int>, boundary: int, k: nat)
    requires k < |batch|
    ensures SoFar(row, batch, reaches, next, boundary, k + 1).fires
         == SoFar(row, batch, reaches, next, boundary, k).fires
            + [Entry(row.epoch.policy, batch[k], reaches && k == |batch| - 1, boundary)]
  {
  }

  lemma OneMoreRecord(row: Row, batch: seq<int>, now: int, next: Option<int>, boundary: int, k: nat, call: Call)
    requires k < |batch| && row.status == Active
    requires Climbing(batch) && AllBefore(row.fires, batch[0])
    requires call == Plan(row.epoch.policy, batch, next, now, boundary)[k]
    ensures var (row', answer) :=
              Perform(SoFar(row, batch, ReachesPresent(next, now), next, boundary, k),
                      call, row.version + k, Available);
            answer.Done? && row' == SoFar(row, batch, ReachesPresent(next, now), next, boundary, k + 1)
  {
    NotYetRecorded(row, batch, ReachesPresent(next, now), next, boundary, k);
    FiresGrow(row, batch, ReachesPresent(next, now), next, boundary, k);
  }

  lemma QuietStep(row: Row, batch: seq<int>, now: int, next: Option<int>, boundary: int, k: nat, w: Worker)
    requires k < |batch| && row.status == Active
    requires Climbing(batch) && AllBefore(row.fires, batch[0])
    requires w == Working(row.epoch.policy, Plan(row.epoch.policy, batch, next, now, boundary), k, row.version + k)
    ensures RunAll(SoFar(row, batch, ReachesPresent(next, now), next, boundary, k), w)
         == RunAll(SoFar(row, batch, ReachesPresent(next, now), next, boundary, k + 1), Later(w, 1))
  {
    OneMoreRecord(row, batch, now, next, boundary, k, w.calls[k]);
    RunOne(SoFar(row, batch, ReachesPresent(next, now), next, boundary, k), w,
           SoFar(row, batch, ReachesPresent(next, now), next, boundary, k + 1));
  }

  lemma RunOne(row: Row, w: Worker, row': Row)
    requires w.Valid() && w.Working?
    requires Perform(row, w.calls[w.at], w.version, Available).0 == row'
    requires Perform(row, w.calls[w.at], w.version, Available).1.Done?
    ensures RunAll(row, w) == RunAll(row', Later(w, 1))
  {
  }

  lemma {:induction false} QuietRun(row: Row, batch: seq<int>, now: int, next: Option<int>, boundary: int, k: nat,
                                    w: Worker)
    requires k < |batch| && row.status == Active
    requires Climbing(batch) && AllBefore(row.fires, batch[0])
    requires w == Working(row.epoch.policy, Plan(row.epoch.policy, batch, next, now, boundary), k, row.version + k)
    ensures RunAll(SoFar(row, batch, ReachesPresent(next, now), next, boundary, k), w)
         == Record(row, batch, ReachesPresent(next, now), next, boundary)
    decreases |batch| - k
  {
    QuietStep(row, batch, now, next, boundary, k, w);
    if k + 1 < |batch| {
      QuietRun(row, batch, now, next, boundary, k + 1, Later(w, 1));
    }
  }

  /** An undisturbed pass records its batch. */
  lemma QuietPass(row: Row, now: int, cap: nat, boundary: int)
    requires Ready(row) && Due(row, now) && cap > 0
    ensures var batch := Batch(row.epoch.next, row.cursor, now, cap);
            var beyond := Beyond(row.epoch.next, row.cursor, now, cap);
            Tick(row, now, cap, boundary) == Record(row, batch, ReachesPresent(beyond, now), beyond, boundary)
  {
    var batch := Batch(row.epoch.next, row.cursor, now, cap);
    var beyond := Beyond(row.epoch.next, row.cursor, now, cap);
    BatchOfBacklog(row.epoch.next, row.cursor, now, cap);
    BacklogClimbs(row.epoch.next, row.cursor, now);
    assert batch[0] == row.cursor.value;
    assert row.fires + [] == row.fires;
    assert SoFar(row, batch, ReachesPresent(beyond, now), beyond, boundary, 0) == row;
    QuietRun(row, batch, now, beyond, boundary, 0, Begin(row, now, cap, boundary));
  }

  // ---------- Batch independence ----------

  lemma RecordInTwoParts(row: Row, dues: seq<int>, n: nat, next: Option<int>, boundary: int)
    requires n < |dues|
    ensures Record(Record(row, dues[..n], false, Some(dues[n]), boundary), dues[n..], true, next, boundary)
         == Record(row, dues, true, next, boundary)
  {
    var part := Record(row, dues[..n], false, Some(dues[n]), boundary);
    assert Record(part, dues[n..], true, next, boundary).fires == Record(row, dues, true, next, boundary).fires;
  }

  /** After a tick the cursor is past everything recorded. */
  lemma TickIsReady(row: Row, now: int, cap: nat, boundary: int)
    requires Ready(row) && Due(row, now) && cap > 0
    ensures Ready(Tick(row, now, cap, boundary))
  {
    var b := Backlog(row.epoch.next, row.cursor, now);
    QuietPass(row, now, cap, boundary);
    BatchOfBacklog(row.epoch.next, row.cursor, now, cap);
    BacklogClimbs(row.epoch.next, row.cursor, now);
    var beyond := Beyond(row.epoch.next, row.cursor, now, cap);
    if beyond.Some? {
      RecordedBefore(row, b[..Least(cap, |b|)], ReachesPresent(beyond, now), beyond, boundary, beyond.value);
    }
  }

  /** A tick takes its share of the backlog and does not change what the backlog leads to. */
  lemma TickSettles(row: Row, now: int, cap: nat, boundary: int)
    requires Ready(row) && Due(row, now) && cap > 0
    ensures var row', size := Tick(row, now, cap, boundary), |Backlog(row.epoch.next, row.cursor, now)|;
            && row'.epoch == row.epoch
            && Settled(row', now, boundary) == Settled(row, now, boundary)
            && |Backlog(row.epoch.next, row'.cursor, now)| == size - Least(cap, size)
  {
    var b := Backlog(row.epoch.next, row.cursor, now);
    QuietPass(row, now, cap, boundary);
    BatchOfBacklog(row.epoch.next, row.cursor, now, cap);
    BacklogClimbs(row.epoch.next, row.cursor, now);
    if cap < |b| {
      RecordInTwoParts(row, b, cap, Following(row.epoch.next, row.cursor, now), boundary);
    } else {
      assert b[..|b|] == b;
      SettledAlready(Tick(row, now, cap, boundary), now, boundary);
    }
  }

  lemma SettledAlready(row: Row, now: int, boundary: int)
    requires Advancing(row.epoch.next) && (row.cursor.Some? ==> row.cursor.value > now)
    ensures Settled(row, now, boundary) == row
  {
    assert row.fires + [] == row.fires;
  }

  /**
    At a fixed instant, ticks with any batch size lead to the ledger that one unlimited pass leads to, in as
    many ticks as the backlog needs and no fewer.
    */
  lemma {:induction false} BatchIndependence(row: Row, now: int, cap: nat, boundary: int, n: nat)
    requires Ready(row) && cap > 0
    ensures var size := |Backlog(row.epoch.next, row.cursor, now)|;
            && (size <= n * cap ==> Ticks(row, now, cap, boundary, n) == Settled(row, now, boundary))
            && (size > n * cap ==> Due(Ticks(row, now, cap, boundary, n), now))
    decreases n
  {
    var size := |Backlog(row.epoch.next, row.cursor, now)|;
    if !Due(row, now) {
      SettledAlready(row, now, boundary);
      IdleTicks(row, now, cap, boundary, n);
      NotNegative(n, cap);
    } else if n > 0 {
      TickIsReady(row, now, cap, boundary);
      TickSettles(row, now, cap, boundary);
      BatchIndependence(Tick(row, now, cap, boundary), now, cap, boundary, n - 1);
      OneLess(n, cap);
      NotNegative(n - 1, cap);
    }
  }

  lemma NotNegative(n: nat, cap: nat)
    ensures 0 <= n * cap
  {
  }

  lemma OneLess(n: nat, cap: nat)
    requires n > 0
    ensures (n - 1) * cap == n * cap - cap
  {
  }

  lemma {:induction false} IdleTicks(row: Row, now: int, cap: nat, boundary: int, n: nat)
    requires !Due(row, now)
    ensures Ticks(row, now, cap, boundary, n) == row
    decreases n
  {
    if n > 0 {
      IdleTicks(row, now, cap, boundary, n - 1);
    }
  }

  /**
    What draining a backlog records: every occurrence once, in order; all of them become turns, or the
    latest alone, or the latest if it is on time, as the policy says.
    */
  lemma DrainOutcome(row: Row, now: int, cap: nat, boundary: int, n: nat)
    requires Ready(row) && cap > 0 && |Backlog(row.epoch.next, row.cursor, now)| <= n * cap
    ensures var b := Backlog(row.epoch.next, row.cursor, now);
            var row' := Ticks(row, now, cap, boundary, n);
            && row'.cursor == Following(row.epoch.next, row.cursor, now)
            && (row'.cursor.Some? ==> row'.cursor.value > now)
            && |row'.fires| == |row.fires| + |b| && row.fires <= row'.fires
            && forall i :: 0 <= i < |b| ==>
                 var fire := row'.fires[|row.fires| + i];
                 var latest := i == |b| - 1;
                 && fire.due == b[i]
                 && (fire.state == WasMaterialized <==>
                       match row.epoch.policy
                       case Every => true
                       case LatestOnly => latest
                       case SkipMissed => latest && b[i] >= boundary)
                 && (fire.state != WasMaterialized ==> fire.state == WasSkipped)
                 && (fire.trigger == Timer <==> fire.state == WasMaterialized && b[i] >= boundary)
  {
    BatchIndependence(row, now, cap, boundary, n);
    BacklogClimbs(row.epoch.next, row.cursor, now);
  }

  /** The backlog of a schedule leaves out no instant at which the schedule fires. */
  lemma {:induction false} BacklogIsComplete(spec: Spec, cursor: int, now: int, ms: int)
    requires Fires(spec, ms) && cursor <= ms <= now
    ensures Advancing(NextOfSpec(spec)) && |Backlog(NextOfSpec(spec), Some(cursor), now)| > 0
    ensures || ms in Backlog(NextOfSpec(spec), Some(cursor), now)
            || (&& Following(NextOfSpec(spec), Some(cursor), now).None?
                && ms > LastOf(Backlog(NextOfSpec(spec), Some(cursor), now)))
    decreases now - cursor
  {
    NextIsLeast(spec, cursor);
    var following := Next(spec, cursor);
    var rest := Backlog(NextOfSpec(spec), following, now);
    assert Backlog(NextOfSpec(spec), Some(cursor), now) == [cursor] + rest;
    if ms > cursor && following.Some? && following.value <= now {
      BacklogIsComplete(spec, following.value, now, ms);
      assert LastOf([cursor] + rest) == LastOf(rest);
      assert ms in rest ==> ms in [cursor] + rest;
    } else if ms > cursor {
      assert following.None? && Following(NextOfSpec(spec), Some(cursor), now) == following;
      assert [cursor] + rest == [cursor] && LastOf([cursor]) == cursor;
    } else {
      assert ([cursor] + rest)[0] == cursor;
    }
  }

  function LastOf(s: seq<int>): int
    requires |s| > 0
  {
    s[|s| - 1]
  }

  function NextOfSpec(spec: Spec): int -> Option<int> { t => Next(spec, t) }

  // ---------- A recorded cursor ----------

  lemma {:induction false} NeverBack(row: Row, w: Worker)
    requires w.Valid()
    ensures RunAll(row, w).version >= row.version
    decreases if w.Working? then |w.calls| - w.at else 0
  {
    if w.Working? {
      var (row', answer) := Perform(row, w.calls[w.at], w.version, Available);
      NeverBack(row', Proceed(w, answer));
    }
  }

  /** A worker that expects a later version changes nothing. */
  lemma {:induction false} AheadChangesNothing(row: Row, w: Worker)
    requires w.Valid() && (w.Working? ==> w.policy == Every && w.version > row.version)
    requires w.Working? ==> forall i :: 0 <= i < |w.calls| ==> w.calls[i].Materialize?
    ensures RunAll(row, w) == row
    decreases if w.Working? then |w.calls| - w.at else 0
  {
    if w.Working? {
      var (row', answer) := Perform(row, w.calls[w.at], w.version, Available);
      AheadChangesNothing(row, Proceed(w, answer));
    }
  }

  /**
    Under the policy that materializes every occurrence, a tick makes progress exactly when the occurrence at
    the cursor is not recorded yet. Otherwise it changes nothing, now and at every later tick.
    */
  lemma EveryAdvancesUnlessRecorded(row: Row, now: int, cap: nat, boundary: int)
    requires Due(row, now) && cap > 0 && row.epoch.policy == Every
    ensures Tick(row, now, cap, boundary) == row <==> Recorded(row.fires, row.cursor.value)
  {
    var w := Begin(row, now, cap, boundary);
    var (row', answer) := Perform(row, w.calls[0], row.version, Available);
    if Recorded(row.fires, row.cursor.value) {
      AheadChangesNothing(row, Proceed(w, answer));
    } else {
      NeverBack(row', Proceed(w, answer));
    }
  }

  /**
    An update puts the cursor on the first occurrence from `now` on. When nothing later than `now` is
    recorded, that cursor is past all records unless it is itself recorded, which happens when an
    occurrence fired at this very instant.
    */
  lemma UpdateIsFreshUnlessFired(spec: Spec, fires: seq<Fire>, now: int)
    requires Next(spec, now - 1).Some? && AllBefore(fires, now + 1)
    ensures var cursor := Next(spec, now - 1).value;
            && (AllBefore(fires, cursor) <==> !Recorded(fires, cursor))
            && (Recorded(fires, cursor) <==> Recorded(fires, now) && Fires(spec, now))
  {
    NextIsLeast(spec, now - 1);
    var cursor := Next(spec, now - 1).value;
    if Fires(spec, now) {
      assert cursor == now;
    }
  }
}
