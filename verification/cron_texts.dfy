/**
  The texts of cron fields as they are written: comma-separated terms, each a star, a number or a range of
  two numbers, with a step or without. Every text is written in exactly one such way, sensible or not.
  */
module CronTexts {
  import opened Results
  import opened Texts

  datatype Base = Star | One(number: string) | Pair(from: string, to: string)

  datatype Term = Term(base: Base, step: Option<string>)

  function BaseText(base: Base): string {
    match base
    case Star => "*"
    case One(number) => number
    case Pair(from, to) => from + "-" + to
  }

  function TermText(t: Term): string {
    match t.step
    case None => BaseText(t.base)
    case Some(step) => BaseText(t.base) + "/" + step
  }

  /** The characters that separate stand only where they separate. */
  predicate Plain(t: Term) { ',' !in TermText(t) && '/' !in BaseText(t.base) && PlainBase(t.base) }

  predicate PlainBase(base: Base) {
    match base
    case Star => true
    case One(number) => number != "*" && '-' !in number
    case Pair(from, _) => '-' !in from
  }

  function TermTexts(terms: seq<Term>): (texts: seq<string>)
    ensures |texts| == |terms| && forall k :: 0 <= k < |terms| ==> texts[k] == TermText(terms[k])
  {
    seq(|terms|, k requires 0 <= k < |terms| => TermText(terms[k]))
  }

  /** The terms, joined by commas, are the text. */
  ghost predicate Spells(terms: seq<Term>, value: string) {
    |terms| > 0 && (forall k :: 0 <= k < |terms| ==> Plain(terms[k])) && Join(',', TermTexts(terms)) == value
  }

  // ---------- What a term stands for ----------

  function First(t: Term, minimum: int, toInt: string -> Option<int>): Option<int> {
    match t.base
    case Star => Some(minimum)
    case One(number) => toInt(number)
    case Pair(from, _) => toInt(from)
  }

  function Last(t: Term, maximum: int, toInt: string -> Option<int>): Option<int> {
    match t.base
    case Star => Some(maximum)
    case One(number) => toInt(number)
    case Pair(_, to) => toInt(to)
  }

  function Step(t: Term, toInt: string -> Option<int>): Option<int> {
    match t.step case None => Some(1) case Some(step) => toInt(step)
  }

  /** All numbers can be read, the step is positive, and first and last lie in order within the bounds. */
  predicate Legal(t: Term, minimum: int, maximum: int, toInt: string -> Option<int>) {
    var first, last, step := First(t, minimum, toInt), Last(t, maximum, toInt), Step(t, toInt);
    first.Some? && last.Some? && step.Some? && step.value > 0 && minimum <= first.value <= last.value <= maximum
  }

  /** The number is reached from the first one in steps, and is not past the last one. */
  predicate Selects(t: Term, minimum: int, maximum: int, toInt: string -> Option<int>, x: int) {
    && Legal(t, minimum, maximum, toInt)
    && First(t, minimum, toInt).value <= x <= Last(t, maximum, toInt).value
    && (x - First(t, minimum, toInt).value) % Step(t, toInt).value == 0
  }

  ghost predicate SomeIllegal(terms: seq<Term>, minimum: int, maximum: int, toInt: string -> Option<int>) {
    exists k :: 0 <= k < |terms| && !Legal(terms[k], minimum, maximum, toInt)
  }

  ghost predicate SomeSelects(terms: seq<Term>, minimum: int, maximum: int, toInt: string -> Option<int>, x: int) {
    exists k :: 0 <= k < |terms| && Selects(terms[k], minimum, maximum, toInt, x)
  }

  // ---------- One way to write a text ----------

  function BaseOf(text: string): Base {
    var dash := IndexOf(text, '-');
    if text == "*" then Star else if dash < |text| then Pair(text[..dash], text[dash + 1..]) else One(text)
  }

  function TermOf(part: string): Term {
    var slash := IndexOf(part, '/');
    Term(BaseOf(part[..slash]), if slash < |part| then Some(part[slash + 1..]) else None)
  }

  lemma BaseIsSpelled(text: string)
    ensures PlainBase(BaseOf(text)) && BaseText(BaseOf(text)) == text
  {
    var dash := IndexOf(text, '-');
    if dash < |text| {
      assert text == text[..dash] + "-" + text[dash + 1..];
    }
  }

  lemma PartIsSpelled(part: string)
    requires ',' !in part
    ensures Plain(TermOf(part)) && TermText(TermOf(part)) == part
  {
    var slash := IndexOf(part, '/');
    BaseIsSpelled(part[..slash]);
    if slash < |part| {
      assert part == part[..slash] + "/" + part[slash + 1..];
    } else {
      assert part == part[..slash];
    }
  }

  lemma BaseIsFound(base: Base)
    requires PlainBase(base)
    ensures BaseOf(BaseText(base)) == base
  {
    match base
    case Star =>
    case One(number) => IndexOfNone(number, '-');
    case Pair(from, to) =>
      IndexBetween(from, '-', to);
      assert BaseText(base)[|from|] == '-';
      assert BaseText(base)[..|from|] == from && BaseText(base)[|from| + 1..] == to;
  }

  lemma TermIsFound(t: Term)
    requires Plain(t)
    ensures TermOf(TermText(t)) == t
  {
    var text, part := BaseText(t.base), TermText(t);
    BaseIsFound(t.base);
    if t.step.Some? {
      IndexBetween(text, '/', t.step.value);
      assert part == text + ['/'] + t.step.value;
      assert part[..|text|] == text && part[|text| + 1..] == t.step.value;
    } else {
      IndexOfNone(text, '/');
      assert part == text && part[..|text|] == text;
    }
  }

  lemma TermsAreSplit(terms: seq<Term>, value: string)
    requires Spells(terms, value)
    ensures Split(',', value) == TermTexts(terms)
  {
    forall k | 0 <= k < |terms| ensures ',' !in TermTexts(terms)[k] {
      assert Plain(terms[k]);
    }
    JoinSplits(',', TermTexts(terms));
  }

  lemma EveryTextIsSpelled(value: string) returns (terms: seq<Term>)
    ensures Spells(terms, value)
  {
    var parts := Split(',', value);
    SplitJoins(',', value);
    terms := seq(|parts|, k requires 0 <= k < |parts| => TermOf(parts[k]));
    forall k | 0 <= k < |parts| ensures Plain(terms[k]) && TermText(terms[k]) == parts[k] {
      PartIsSpelled(parts[k]);
    }
    assert TermTexts(terms) == parts;
  }

  lemma SpellingIsUnique(terms: seq<Term>, other: seq<Term>, value: string)
    requires Spells(terms, value) && Spells(other, value)
    ensures terms == other
  {
    TermsAreSplit(terms, value);
    TermsAreSplit(other, value);
    assert |terms| == |other|;
    forall k | 0 <= k < |terms| ensures terms[k] == other[k] {
      assert TermTexts(terms)[k] == TermTexts(other)[k];
      TermIsFound(terms[k]);
      TermIsFound(other[k]);
    }
  }
}
