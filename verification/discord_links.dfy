/** What the link scanner finds, said of brackets, escapes and depths and without the scan. */
module DiscordLinks {
  import opened DiscordText
  import opened Results

  /** A character is escaped exactly when the one before it is a backslash that is not escaped itself. */
  lemma EscapesAlternate(v: string, index: int)
    requires 0 < index <= |v|
    ensures Escaped(v, index) <==> v[index - 1] == '\\' && !Escaped(v, index - 1)
    ensures !Escaped(v, 0)
  {
  }

  /** The delimiter at `at` is the first one that closes what opens at `from`. */
  ghost predicate Matches(v: string, from: int, at: int, opening: char, closing: char) {
    && 0 <= from <= at < |v| && Closes(v, from, at, opening, closing)
    && forall i :: from <= i < at ==> !Closes(v, from, i, opening, closing)
  }

  lemma {:induction false} MatchFromExactly(v: string, from: int, at: int, opening: char, closing: char, p: int)
    requires 0 <= from <= at <= |v|
    ensures MatchFrom(v, from, at, opening, closing) == Some(p)
            <==> && at <= p < |v| && Closes(v, from, p, opening, closing)
                 && forall i :: at <= i < p ==> !Closes(v, from, i, opening, closing)
    decreases |v| - at
  {
    if at < |v| && !Closes(v, from, at, opening, closing) {
      MatchFromExactly(v, from, at + 1, opening, closing, p);
    }
  }

  /** A link from the bracket at `index` to `end`: a matched label and, right after it, a matched target. */
  ghost predicate IsLink(v: string, index: int, end: int) {
    && 0 <= index < |v| && v[index] == '[' && !Escaped(v, index)
    && exists close ::
         && Matches(v, index, close, '[', ']') && close + 1 < |v| && v[close + 1] == '('
         && Matches(v, close + 1, end - 1, '(', ')')
  }

  lemma LinkEndExactly(v: string, index: int, end: int)
    requires 0 <= index < |v|
    ensures LinkEnd(v, index) == Some(end) <==> IsLink(v, index, end)
  {
    LabelEnd(v, index);
    var close := MatchFrom(v, index, index, '[', ']');
    if close.Some? && close.value + 1 < |v| {
      MatchFromExactly(v, close.value + 1, close.value + 1, '(', ')', end - 1);
    }
    if IsLink(v, index, end) {
      var c :| Matches(v, index, c, '[', ']') && c + 1 < |v| && v[c + 1] == '(' && Matches(v, c + 1, end - 1, '(', ')');
      assert close == Some(c);
    }
  }

  lemma LabelEnd(v: string, index: int)
    requires 0 <= index < |v|
    ensures forall p :: MatchFrom(v, index, index, '[', ']') == Some(p) <==> Matches(v, index, p, '[', ']')
  {
    forall p ensures MatchFrom(v, index, index, '[', ']') == Some(p) <==> Matches(v, index, p, '[', ']') {
      MatchFromExactly(v, index, index, '[', ']', p);
    }
  }

  /** The bracket that opens the link of a span, after the mark of an image. */
  function Opening(v: string, span: Span): int
    requires 0 <= span.0 < |v|
  {
    if v[span.0] == '!' then span.0 + 1 else span.0
  }

  ghost predicate SpanIsLink(v: string, index: int, span: Span) {
    && 0 <= span.0 < |v| && index <= Opening(v, span) && IsLink(v, Opening(v, span), span.1)
    && (span.0 == Opening(v, span) > 0 ==> v[span.0 - 1] != '!')
  }

  ghost predicate CoveredBy(i: int, spans: seq<Span>) { exists k :: 0 <= k < |spans| && spans[k].0 <= i < spans[k].1 }

  /** Every span is a link, with the mark of an image before it. */
  ghost predicate AllLinks(v: string, index: int, spans: seq<Span>) {
    forall k :: 0 <= k < |spans| ==> SpanIsLink(v, index, spans[k])
  }

  /** Every bracket that opens a link lies in a span. */
  ghost predicate LinksCovered(v: string, index: int, spans: seq<Span>) {
    forall i, end :: index <= i < |v| && IsLink(v, i, end) ==> CoveredBy(i, spans)
  }

  /** The scan finds exactly the links that open outside the links found before. */
  lemma {:induction false} LinkSpansExactly(v: string, index: int)
    requires 0 <= index <= |v|
    ensures AllLinks(v, index, LinkSpans(v, index)) && LinksCovered(v, index, LinkSpans(v, index))
    decreases |v| - index
  {
    if index < |v| {
      match LinkEnd(v, index)
      case None =>
        LinkSpansExactly(v, index + 1);
        NoLinkHere(v, index, LinkSpans(v, index + 1));
      case Some(end) =>
        LinkSpansExactly(v, end);
        LinkEndExactly(v, index, end);
        OneMoreLink(v, index, end, LinkSpans(v, end));
        OneMoreCovered(v, index, end, LinkSpans(v, end));
    }
  }

  lemma NoLinkHere(v: string, index: int, spans: seq<Span>)
    requires 0 <= index < |v| && LinkEnd(v, index).None?
    requires AllLinks(v, index + 1, spans) && LinksCovered(v, index + 1, spans)
    ensures AllLinks(v, index, spans) && LinksCovered(v, index, spans)
  {
    forall end ensures !IsLink(v, index, end) {
      LinkEndExactly(v, index, end);
    }
    forall k | 0 <= k < |spans| ensures SpanIsLink(v, index, spans[k]) {
      assert SpanIsLink(v, index + 1, spans[k]);
    }
  }

  function SpanAt(v: string, index: int, end: int): Span
    requires 0 <= index < |v|
  {
    (if index > 0 && v[index - 1] == '!' then index - 1 else index, end)
  }

  lemma OneMoreLink(v: string, index: int, end: int, rest: seq<Span>)
    requires 0 <= index < end <= |v| && IsLink(v, index, end) && AllLinks(v, end, rest)
    ensures AllLinks(v, index, [SpanAt(v, index, end)] + rest)
  {
    var spans := [SpanAt(v, index, end)] + rest;
    assert SpanIsLink(v, index, spans[0]);
    forall k | 1 <= k < |spans| ensures SpanIsLink(v, index, spans[k]) {
      assert SpanIsLink(v, end, rest[k - 1]);
    }
  }

  lemma OneMoreCovered(v: string, index: int, end: int, rest: seq<Span>)
    requires 0 <= index < end <= |v| && LinksCovered(v, end, rest)
    ensures LinksCovered(v, index, [SpanAt(v, index, end)] + rest)
  {
    var spans := [SpanAt(v, index, end)] + rest;
    forall i, end' | index <= i < |v| && IsLink(v, i, end') ensures CoveredBy(i, spans) {
      if i >= end {
        StillCovered(i, spans[0], rest);
      } else {
        assert spans[0].0 <= i < spans[0].1;
      }
    }
  }

  lemma StillCovered(i: int, first: Span, rest: seq<Span>)
    requires CoveredBy(i, rest)
    ensures CoveredBy(i, [first] + rest)
  {
    var k :| 0 <= k < |rest| && rest[k].0 <= i < rest[k].1;
    assert ([first] + rest)[k + 1] == rest[k];
  }
}
