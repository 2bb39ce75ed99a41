/** Cron expressions, the search for the next occurrence, and previews. */
module Schedules {
  import opened CronTexts
  import opened Results
  import opened Texts

  // ---------- Cron fields ----------

  /** The numbers from `first` to `last` in steps. */
  datatype Range = Range(first: int, last: int, step: int)

  predicate InRange(x: int, r: Range)
    requires r.step > 0
  {
    r.first <= x <= r.last && (x - r.first) % r.step == 0
  }

  /** One comma-separated part; `toInt` is Python's int(). None is a configuration error. */
  function ParsePart(part: string, minimum: int, maximum: int, toInt: string -> Option<int>): (r: Option<Range>)
    ensures r.Some? ==> r.value.step > 0 && minimum <= r.value.first <= r.value.last <= maximum
  {
    var slash := IndexOf(part, '/');
    var base := part[..slash];
    var dash := IndexOf(base, '-');
    var step := if slash < |part| then toInt(part[slash + 1..]) else Some(1);
    var first := if base == "*" then Some(minimum) else toInt(base[..dash]);
    var last := if base == "*" then Some(maximum) else if dash < |base| then toInt(base[dash + 1..]) else first;
    if step.None? || first.None? || last.None? || step.value <= 0 then None
    else if first.value < minimum || last.value > maximum || first.value > last.value then None
    else Some(Range(first.value, last.value, step.value))
  }

  /** A term is read as the range that it stands for, and refused exactly when it is not legal. */
  lemma TermIsParsed(t: Term, minimum: int, maximum: int, toInt: string -> Option<int>)
    requires Plain(t)
    ensures ParsePart(TermText(t), minimum, maximum, toInt)
         == if !Legal(t, minimum, maximum, toInt) then None
            else Some(Range(First(t, minimum, toInt).value, Last(t, maximum, toInt).value, Step(t, toInt).value))
  {
    TermIsCut(t);
    match t.base
    case Star =>
    case One(number) =>
      IndexOfNone(number, '-');
      assert number[..|number|] == number;
    case Pair(from, to) => PairIsCut(from, to);
  }

  lemma TermIsCut(t: Term)
    requires Plain(t)
    ensures var text, part := BaseText(t.base), TermText(t);
            && IndexOf(part, '/') == |text| && part[..|text|] == text
            && (if t.step.None? then |part| == |text| else |part| > |text| && part[|text| + 1..] == t.step.value)
  {
    var text, part := BaseText(t.base), TermText(t);
    match t.step
    case None => IndexOfNone(text, '/');
    case Some(step) =>
      IndexBetween(text, '/', step);
      assert part == text + ['/'] + step;
  }

  lemma PairIsCut(from: string, to: string)
    requires '-' !in from
    ensures var text := BaseText(Pair(from, to));
            && text != "*" && IndexOf(text, '-') == |from| < |text|
            && text[..|from|] == from && text[|from| + 1..] == to
  {
    var text := BaseText(Pair(from, to));
    IndexBetween(from, '-', to);
    assert text == from + ['-'] + to && text[|from|] == '-';
  }

  datatype Field = Field(selected: set<int>, wildcard: bool)

  /** range(first, last + 1, step) as a set. */
  function Numbers(r: Range): (s: set<int>)
    requires r.step > 0
    ensures forall x :: x in s <==> InRange(x, r)
  {
    set x | r.first <= x <= r.last && InRange(x, r)
  }

  /** Reads one part; a range it reads lies between `minimum` and `maximum` and is not empty. */
  type PartParser = string -> Option<Range>

  function PartsOf(minimum: int, maximum: int, toInt: string -> Option<int>): PartParser {
    part => ParsePart(part, minimum, maximum, toInt)
  }

  /** Some of the parts stands for a range that contains `x`. */
  ghost predicate Denotes(parts: seq<string>, parse: PartParser, x: int) {
    exists k :: 0 <= k < |parts| && Covers(parts[k], parse, x)
  }

  ghost predicate Covers(part: string, parse: PartParser, x: int) {
    parse(part).Some? && parse(part).value.step > 0 && InRange(x, parse(part).value)
  }

  ghost predicate SomeRefused(parts: seq<string>, parse: PartParser) {
    exists k :: 0 <= k < |parts| && parse(parts[k]).None?
  }

  /** The numbers that the parts of a field stand for together. */
  method SelectNumbers(parts: seq<string>, parse: PartParser, minimum: int, maximum: int) returns (r: Option<set<int>>)
    requires |parts| > 0
    requires forall part :: parse(part).Some? ==>
               parse(part).value.step > 0 && minimum <= parse(part).value.first <= parse(part).value.last <= maximum
    ensures r.None? <==> SomeRefused(parts, parse)
    ensures r.Some? ==> (exists x :: x in r.value) && forall x :: x in r.value <==> Denotes(parts, parse, x)
    ensures r.Some? ==> forall x :: x in r.value ==> minimum <= x <= maximum
  {
    var selected: set<int> := {};
    for k := 0 to |parts|
      invariant forall j :: 0 <= j < k ==> parse(parts[j]).Some?
      invariant forall x :: x in selected <==> exists j :: 0 <= j < k && Covers(parts[j], parse, x)
      invariant forall x :: x in selected ==> minimum <= x <= maximum
      invariant k > 0 ==> exists x :: x in selected
    {
      var range := parse(parts[k]);
      if range.None? {
        return None;
      }
      assert range.value.first in Numbers(range.value);
      selected := selected + Numbers(range.value);
    }
    r := Some(selected);
  }

  // ---------- What a field means ----------

  /** Some term of the text is not legal. */
  ghost predicate Malformed(value: string, minimum: int, maximum: int, toInt: string -> Option<int>) {
    exists terms :: Spells(terms, value) && SomeIllegal(terms, minimum, maximum, toInt)
  }

  /** The numbers that the terms select together; of weekdays, 7 counts as 0. */
  ghost predicate Chooses(terms: seq<Term>, minimum: int, maximum: int, normalizeWeekday: bool,
                          toInt: string -> Option<int>, selected: set<int>)
  {
    forall x :: x in selected <==>
      if normalizeWeekday && x == 7 then false
      else || SomeSelects(terms, minimum, maximum, toInt, x)
           || (normalizeWeekday && x == 0 && SomeSelects(terms, minimum, maximum, toInt, 7))
  }

  /** What a field stands for. */
  ghost predicate Reads(value: string, minimum: int, maximum: int, normalizeWeekday: bool, toInt: string -> Option<int>,
                        field: Field)
  {
    && field.wildcard == (value == "*")
    && (exists x :: x in field.selected)
    && (forall x :: x in field.selected ==> minimum <= x <= if normalizeWeekday then 6 else maximum)
    && exists terms :: Spells(terms, value) && Chooses(terms, minimum, maximum, normalizeWeekday, toInt, field.selected)
  }

  /** The parts are read as the terms say. */
  lemma PartsMean(terms: seq<Term>, value: string, minimum: int, maximum: int, toInt: string -> Option<int>)
    requires Spells(terms, value)
    ensures var parts, parse := Split(',', value), PartsOf(minimum, maximum, toInt);
            && (SomeRefused(parts, parse) <==> SomeIllegal(terms, minimum, maximum, toInt))
            && (forall x :: Denotes(parts, parse, x) <==> SomeSelects(terms, minimum, maximum, toInt, x))
  {
    var parts, parse := Split(',', value), PartsOf(minimum, maximum, toInt);
    TermsAreSplit(terms, value);
    forall k | 0 <= k < |terms|
      ensures parse(parts[k]).None? <==> !Legal(terms[k], minimum, maximum, toInt)
      ensures forall x :: Covers(parts[k], parse, x) <==> Selects(terms[k], minimum, maximum, toInt, x)
    {
      assert parts[k] == TermText(terms[k]) && Plain(terms[k]);
      TermIsParsed(terms[k], minimum, maximum, toInt);
    }
    assert |parts| == |terms|;
    forall x ensures Denotes(parts, parse, x) <==> SomeSelects(terms, minimum, maximum, toInt, x) {
      SameSelection(terms, parts, parse, minimum, maximum, toInt, x);
    }
  }

  lemma SameSelection(terms: seq<Term>, parts: seq<string>, parse: PartParser, minimum: int, maximum: int,
                      toInt: string -> Option<int>, x: int)
    requires |parts| == |terms|
    requires forall k :: 0 <= k < |terms| ==>
               (Covers(parts[k], parse, x) <==> Selects(terms[k], minimum, maximum, toInt, x))
    ensures Denotes(parts, parse, x) <==> SomeSelects(terms, minimum, maximum, toInt, x)
  {
  }

  /** However a field is written: it is an error exactly when a term is illegal, and selects what the terms select. */
  lemma FieldMeans(terms: seq<Term>, value: string, minimum: int, maximum: int, normalizeWeekday: bool,
                   toInt: string -> Option<int>, field: Field)
    requires Spells(terms, value)
    ensures Malformed(value, minimum, maximum, toInt) <==> SomeIllegal(terms, minimum, maximum, toInt)
    ensures Reads(value, minimum, maximum, normalizeWeekday, toInt, field) ==>
              Chooses(terms, minimum, maximum, normalizeWeekday, toInt, field.selected)
  {
    forall other | Spells(other, value) ensures other == terms {
      SpellingIsUnique(other, terms, value);
    }
  }

  /**
    A field selects exactly the numbers that its terms select, with 7 read as 0 for weekdays; it is an
    error exactly when some term is not legal.
    */
  method ParseCronField(value: string, minimum: int, maximum: int, normalizeWeekday: bool, toInt: string -> Option<int>)
    returns (r: Option<Field>)
    requires normalizeWeekday ==> minimum == 0 && maximum == 7
    ensures r.None? <==> Malformed(value, minimum, maximum, toInt)
    ensures r.Some? ==> Reads(value, minimum, maximum, normalizeWeekday, toInt, r.value)
  {
    ghost var terms := EveryTextIsSpelled(value);
    PartsMean(terms, value, minimum, maximum, toInt);
    FieldMeans(terms, value, minimum, maximum, normalizeWeekday, toInt, Field({}, false));
    var numbers := SelectNumbers(Split(',', value), PartsOf(minimum, maximum, toInt), minimum, maximum);
    if numbers.None? {
      return None;
    }
    var selected := numbers.value;
    if normalizeWeekday && 7 in selected {
      selected := selected - {7} + {0};
    }
    assert Chooses(terms, minimum, maximum, normalizeWeekday, toInt, selected);
    r := Some(Field(selected, value == "*"));
  }

  // ---------- Matching ----------

  datatype Cron = Cron(minute: set<int>, hour: set<int>, day: set<int>, month: set<int>, weekday: set<int>,
                       dayWildcard: bool, weekdayWildcard: bool)

  /** A local wall-clock minute; `weekday` counts from Monday as 0. */
  datatype Local = Local(minute: int, hour: int, day: int, month: int, weekday: int)

  predicate Matches(cron: Cron, t: Local) {
    && t.minute in cron.minute && t.hour in cron.hour && t.month in cron.month
    && var dayMatch, weekdayMatch := t.day in cron.day, (t.weekday + 1) % 7 in cron.weekday;
       if cron.dayWildcard && cron.weekdayWildcard then true
       else if cron.dayWildcard then weekdayMatch
       else if cron.weekdayWildcard then dayMatch
       else dayMatch || weekdayMatch
  }

  /**
    The fields decide together: minute, hour and month must be selected, and a restricted day or weekday must
    be too, except that with both restricted one of the two is enough.
    */
  lemma MatchesExactly(cron: Cron, t: Local)
    ensures var onDay, onWeekday := t.day in cron.day, (t.weekday + 1) % 7 in cron.weekday;
            Matches(cron, t) <==>
            && t.minute in cron.minute && t.hour in cron.hour && t.month in cron.month
            && (cron.dayWildcard || onDay || (!cron.weekdayWildcard && onWeekday))
            && (cron.weekdayWildcard || onWeekday || (!cron.dayWildcard && onDay))
  {
  }

  // ---------- Whole expressions ----------

  /** A cron expression as the parser makes them. */
  ghost predicate Parsed(cron: Cron) {
    && (exists x :: x in cron.minute) && (exists x :: x in cron.hour) && (exists x :: x in cron.month)
    && (exists x :: x in cron.weekday)
    && (forall x :: x in cron.minute ==> 0 <= x <= 59)
    && (forall x :: x in cron.hour ==> 0 <= x <= 23)
    && (forall x :: x in cron.day ==> 1 <= x <= 31)
    && (forall x :: x in cron.month ==> 1 <= x <= 12)
    && (forall x :: x in cron.weekday ==> 0 <= x <= 6)
    && (cron.dayWildcard ==> forall x :: 1 <= x <= 31 ==> x in cron.day)
  }

  /** A field of "*" selects everything. */
  lemma StarSelectsAll(minimum: int, maximum: int, toInt: string -> Option<int>, field: Field, x: int)
    requires minimum <= x <= maximum && Reads("*", minimum, maximum, false, toInt, field)
    ensures x in field.selected
  {
    var star := Term(Star, None);
    assert TermTexts([star]) == ["*"] && Spells([star], "*");
    FieldMeans([star], "*", minimum, maximum, false, toInt, field);
    assert Selects([star][0], minimum, maximum, toInt, x);
  }

  /** The expression reads its five fields. */
  ghost predicate ReadsFields(fields: seq<string>, toInt: string -> Option<int>, cron: Cron) {
    && |fields| == 5
    && Reads(fields[0], 0, 59, false, toInt, Field(cron.minute, fields[0] == "*"))
    && Reads(fields[1], 0, 23, false, toInt, Field(cron.hour, fields[1] == "*"))
    && Reads(fields[2], 1, 31, false, toInt, Field(cron.day, cron.dayWildcard))
    && Reads(fields[3], 1, 12, false, toInt, Field(cron.month, fields[3] == "*"))
    && Reads(fields[4], 0, 7, true, toInt, Field(cron.weekday, cron.weekdayWildcard))
  }

  ghost predicate SomeMalformed(fields: seq<string>, toInt: string -> Option<int>)
    requires |fields| == 5
  {
    || Malformed(fields[0], 0, 59, toInt) || Malformed(fields[1], 0, 23, toInt)
    || Malformed(fields[2], 1, 31, toInt) || Malformed(fields[3], 1, 12, toInt)
    || Malformed(fields[4], 0, 7, toInt)
  }

  lemma FieldsAreParsed(fields: seq<string>, toInt: string -> Option<int>, cron: Cron)
    requires ReadsFields(fields, toInt, cron)
    ensures Parsed(cron)
  {
    if cron.dayWildcard {
      forall x | 1 <= x <= 31 ensures x in cron.day {
        StarSelectsAll(1, 31, toInt, Field(cron.day, true), x);
      }
    }
  }

  /** Five fields, none malformed, make an expression. */
  method ParseCron(fields: seq<string>, toInt: string -> Option<int>) returns (r: Option<Cron>)
    ensures r.None? <==> |fields| != 5 || SomeMalformed(fields, toInt)
    ensures r.Some? ==> ReadsFields(fields, toInt, r.value) && Parsed(r.value)
  {
    if |fields| != 5 {
      return None;
    }
    var minute := ParseCronField(fields[0], 0, 59, false, toInt);
    var hour := ParseCronField(fields[1], 0, 23, false, toInt);
    var day := ParseCronField(fields[2], 1, 31, false, toInt);
    var month := ParseCronField(fields[3], 1, 12, false, toInt);
    var weekday := ParseCronField(fields[4], 0, 7, true, toInt);
    if minute.None? || hour.None? || day.None? || month.None? || weekday.None? {
      return None;
    }
    var cron := Cron(minute.value.selected, hour.value.selected, day.value.selected, month.value.selected,
                     weekday.value.selected, day.value.wildcard, weekday.value.wildcard);
    FieldsAreParsed(fields, toInt, cron);
    r := Some(cron);
  }

  // ---------- The next occurrence ----------

  /** Either one instant, or a cron expression in a zone that gives the local time of every UTC minute. */
  datatype Spec = Once(instant: int) | Repeating(cron: Cron, local: int -> Local)

  const MS_PER_MINUTE := 60 * 1000
  const HORIZON_MINUTES := 366 * 5 * 24 * 60

  /** The first whole minute strictly after an instant. */
  function MinuteAfter(afterMs: int): int { afterMs / MS_PER_MINUTE + 1 }

  /** The first matching minute from `candidate` to `deadline`. */
  function Search(cron: Cron, local: int -> Local, candidate: int, deadline: int): Option<int>
    decreases deadline - candidate
  {
    if candidate > deadline then None
    else if Matches(cron, local(candidate)) then Some(candidate)
    else Search(cron, local, candidate + 1, deadline)
  }

  function Next(spec: Spec, afterMs: int): (r: Option<int>)
    ensures r.Some? ==> r.value > afterMs
  {
    match spec
    case Once(instant) => if instant <= afterMs then None else Some(instant)
    case Repeating(cron, local) =>
      var first := MinuteAfter(afterMs);
      SearchIsLeast(cron, local, first, first + HORIZON_MINUTES);
      match Search(cron, local, first, first + HORIZON_MINUTES)
      case None => None
      case Some(m) => Some(m * MS_PER_MINUTE)
  }

  lemma {:induction false} SearchIsLeast(cron: Cron, local: int -> Local, candidate: int, deadline: int)
    ensures var r := Search(cron, local, candidate, deadline);
            && (r.Some? ==>
                  && candidate <= r.value <= deadline && Matches(cron, local(r.value))
                  && forall m :: candidate <= m < r.value ==> !Matches(cron, local(m)))
            && (r.None? ==> forall m :: candidate <= m <= deadline ==> !Matches(cron, local(m)))
    decreases deadline - candidate
  {
    if candidate <= deadline && !Matches(cron, local(candidate)) {
      SearchIsLeast(cron, local, candidate + 1, deadline);
    }
  }

  method NextOccurrence(spec: Spec, afterMs: int) returns (r: Option<int>)
    ensures r == Next(spec, afterMs)
  {
    if spec.Once? {
      return if spec.instant <= afterMs then None else Some(spec.instant);
    }
    var candidate := MinuteAfter(afterMs);
    var deadline := candidate + HORIZON_MINUTES;
    while candidate <= deadline
      invariant Search(spec.cron, spec.local, MinuteAfter(afterMs), deadline)
             == Search(spec.cron, spec.local, candidate, deadline)
    {
      if Matches(spec.cron, spec.local(candidate)) {
        return Some(candidate * MS_PER_MINUTE);
      }
      candidate := candidate + 1;
    }
    r := None;
  }

  /** An instant at which the expression fires. */
  ghost predicate Fires(spec: Spec, ms: int) {
    match spec
    case Once(instant) => ms == instant
    case Repeating(cron, local) => ms % MS_PER_MINUTE == 0 && Matches(cron, local(ms / MS_PER_MINUTE))
  }

  ghost predicate WithinHorizon(spec: Spec, afterMs: int, ms: int) {
    spec.Once? || ms <= (MinuteAfter(afterMs) + HORIZON_MINUTES) * MS_PER_MINUTE
  }

  /** The least firing instant strictly after `afterMs` within the horizon, or none when there is none. */
  lemma NextIsLeast(spec: Spec, afterMs: int)
    ensures var r := Next(spec, afterMs);
            && (r.Some? ==>
                  && afterMs < r.value && Fires(spec, r.value) && WithinHorizon(spec, afterMs, r.value)
                  && forall ms :: afterMs < ms < r.value ==> !Fires(spec, ms))
            && (r.None? ==> forall ms :: afterMs < ms && WithinHorizon(spec, afterMs, ms) ==> !Fires(spec, ms))
  {
    if spec.Repeating? {
      var first := MinuteAfter(afterMs);
      SearchIsLeast(spec.cron, spec.local, first, first + HORIZON_MINUTES);
      forall ms | afterMs < ms && ms % MS_PER_MINUTE == 0
        ensures first <= ms / MS_PER_MINUTE
        ensures WithinHorizon(spec, afterMs, ms) ==> ms / MS_PER_MINUTE <= first + HORIZON_MINUTES
      {
      }
    }
  }

  // ---------- Preview ----------

  /** The first `limit` occurrences after an instant, or all of them. */
  function Upcoming(spec: Spec, afterMs: int, limit: nat): seq<int>
    decreases limit
  {
    if limit == 0 then []
    else
      match Next(spec, afterMs)
      case None => []
      case Some(ms) => [ms] + Upcoming(spec, ms, limit - 1)
  }

  lemma {:induction false} UpcomingSplits(spec: Spec, afterMs: int, done: seq<int>, limit: nat)
    requires |done| < limit && done == Upcoming(spec, afterMs, |done|)
    ensures var cursor := if |done| == 0 then afterMs else done[|done| - 1];
            match Next(spec, cursor)
            case None => Upcoming(spec, afterMs, limit) == done
            case Some(ms) => Upcoming(spec, afterMs, |done| + 1) == done + [ms]
    decreases limit
  {
    if |done| > 0 {
      UpcomingSplits(spec, done[0], done[1..], limit - 1);
    }
  }

  method PreviewOccurrences(spec: Spec, afterMs: int, limit: int) returns (r: Option<seq<int>>)
    ensures r.None? <==> limit < 1 || limit > 10
    ensures r.Some? ==> r.value == Upcoming(spec, afterMs, limit)
  {
    if limit < 1 || limit > 10 {
      return None;
    }
    var occurrences: seq<int> := [];
    var cursor := afterMs;
    while |occurrences| < limit
      invariant |occurrences| <= limit && occurrences == Upcoming(spec, afterMs, |occurrences|)
      invariant cursor == if |occurrences| == 0 then afterMs else occurrences[|occurrences| - 1]
    {
      UpcomingSplits(spec, afterMs, occurrences, limit);
      var occurrence := NextOccurrence(spec, cursor);
      if occurrence.None? {
        return Some(occurrences);
      }
      occurrences := occurrences + [occurrence.value];
      cursor := occurrence.value;
    }
    r := Some(occurrences);
  }

  /** The instants increase, leave no firing instant out, and are fewer than `limit` only when no more follow. */
  ghost predicate NoGaps(spec: Spec, afterMs: int, limit: nat, p: seq<int>) {
    && |p| <= limit
    && (forall i :: 0 <= i < |p| ==> afterMs < p[i] && Fires(spec, p[i]))
    && (forall i, j :: 0 <= i < j < |p| ==> p[i] < p[j])
    && (forall ms :: |p| > 0 && afterMs < ms <= p[|p| - 1] && Fires(spec, ms) ==> ms in p)
    && (|p| < limit ==> Next(spec, if |p| == 0 then afterMs else p[|p| - 1]) == None)
  }

  /** A preview increases, skips no firing instant, and is short only when the horizon after its end is empty. */
  lemma {:induction false} PreviewHasNoGaps(spec: Spec, afterMs: int, limit: nat)
    ensures NoGaps(spec, afterMs, limit, Upcoming(spec, afterMs, limit))
    decreases limit
  {
    if limit > 0 {
      var next := Next(spec, afterMs);
      if next.Some? {
        PreviewHasNoGaps(spec, next.value, limit - 1);
        OneMoreInstant(spec, afterMs, limit, next.value, Upcoming(spec, next.value, limit - 1));
      }
    }
  }

  lemma OneMoreInstant(spec: Spec, afterMs: int, limit: nat, next: int, rest: seq<int>)
    requires limit > 0 && Next(spec, afterMs) == Some(next) && NoGaps(spec, next, limit - 1, rest)
    ensures NoGaps(spec, afterMs, limit, [next] + rest)
  {
    NextIsLeast(spec, afterMs);
    var p := [next] + rest;
    assert forall i :: 1 <= i < |p| ==> p[i] == rest[i - 1];
    forall ms | afterMs < ms <= p[|p| - 1] && Fires(spec, ms) ensures ms in p {
      if ms > next {
        assert ms in rest;
      }
    }
  }
}
