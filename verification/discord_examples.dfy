/** Two texts that reach the edges of the splitter: a part over the limit, and a link that is split. */
module DiscordExamples {
  import opened DiscordText
  import opened Graphemes
  import opened Results
  import opened Texts

  const ACCENT := '\U{0301}'

  function Combining(): char -> bool { c => c == ACCENT }

  function Space(): char -> bool { c => c == ' ' }

  /** No characters with rules of their own, and no two accents in a row. */
  predicate Simple(v: string) {
    && (forall i :: 0 <= i < |v| ==> v[i] < '\U{0400}')
    && (forall i :: 0 <= i < |v| - 1 ==> v[i] != ACCENT || v[i + 1] != ACCENT)
  }

  lemma SimpleBoundary(v: string, p: int)
    requires Simple(v) && 0 <= p <= |v|
    ensures Boundary(v, Combining(), p) <==> p == 0 || p == |v| || v[p] != ACCENT
  {
  }

  lemma NotOversized(v: string, limit: int, p: int)
    requires Simple(v) && limit >= 2
    ensures !Oversized(v, Combining(), limit, p)
  {
    if 0 <= p < |v| {
      var q := if p + 1 == |v| || v[p + 1] != ACCENT then p + 1 else p + 2;
      SimpleBoundary(v, q);
    }
  }

  lemma {:induction false} NoBracketNoLink(v: string, index: int)
    requires 0 <= index <= |v| && forall i :: index <= i < |v| ==> v[i] != '['
    ensures LinkSpans(v, index) == []
    decreases |v| - index
  {
    if index < |v| {
      NoBracketNoLink(v, index + 1);
    }
  }

  lemma Reasons(r: Result<seq<string>, SplitError>)
    ensures || r.Ok? || r == Err(LimitNotPositive) || r == Err(LinkTooLong)
            || r == Err(GraphemeTooLong) || r == Err(NoBoundaryBeforeLink)
  {
    match r
    case Ok(_) =>
    case Err(error) =>
      assert error.LimitNotPositive? || error.LinkTooLong? || error.GraphemeTooLong? || error.NoBoundaryBeforeLink?;
  }

  /** Splitting a simple text with short links that start on boundaries succeeds. */
  method Split(v: string, limit: int) returns (parts: seq<string>, ghost cuts: seq<int>)
    requires Simple(v) && 2 <= limit < |v| && !Blank(v, Space())
    requires !SomeLinkTooLong(LinkSpans(v, 0), limit) && !SomeLinkStartsInCluster(v, Combining(), LinkSpans(v, 0))
    ensures Concat(parts) == v && |parts| > 0
    ensures SplitUpTo(v, Combining(), LinkSpans(v, 0), limit, 1, cuts, parts, |v|)
    ensures Chained(cuts, NextCuts(v, Combining(), LinkSpans(v, 0), limit, 1))
  {
    var r;
    r, cuts := SplitDiscordText(v, limit, Combining(), Space(), 1);
    Reasons(r);
    forall p ensures !Oversized(v, Combining(), limit, p) {
      NotOversized(v, limit, p);
    }
    parts := r.value;
  }

  /** With a limit of three the first part has four characters: the blank after the limit belongs to it. */
  method PartOverTheLimit() returns (parts: seq<string>)
    ensures |parts| > 0 && |parts[0]| == 4 && Concat(parts) == "abc d"
  {
    var v := "abc d";
    NoBracketNoLink(v, 0);
    assert v[0] == 'a' && v[3] == ' ';
    ghost var cuts;
    parts, cuts := Split(v, 3);
    SimpleBoundary(v, 4);
    assert EndsWith(v, 0, 4, MARKERS[4]);
    assert MarkerEnds(v, 0, 4, 5);
    OneOverTheLimit(v, Combining(), [], 3, cuts, parts, 0);
  }

  const LINKED := "[a](b)\U{0301}zz"

  lemma OneLink()
    ensures LinkSpans(LINKED, 0) == [(0, 6)]
  {
    var v := LINKED;
    assert v[0] == '[' && v[1] == 'a' && v[2] == ']' && v[3] == '(' && v[4] == 'b' && v[5] == ')';
    assert Depth(v, 0, 1, '[', ']') == 1 && Depth(v, 0, 2, '[', ']') == 1 && Depth(v, 0, 3, '[', ']') == 0;
    assert MatchFrom(v, 0, 0, '[', ']') == MatchFrom(v, 0, 1, '[', ']') == MatchFrom(v, 0, 2, '[', ']') == Some(2);
    assert Depth(v, 3, 4, '(', ')') == 1 && Depth(v, 3, 5, '(', ')') == 1 && Depth(v, 3, 6, '(', ')') == 0;
    assert MatchFrom(v, 3, 3, '(', ')') == MatchFrom(v, 3, 4, '(', ')') == MatchFrom(v, 3, 5, '(', ')') == Some(5);
    NoBracketNoLink(v, 6);
  }

  lemma {:induction false} NoMarker(v: string, boundaries: set<int>, spans: seq<Span>, start: int, reach: int, k: nat)
    requires 0 <= start && reach <= |v| && k <= |MARKERS|
    requires forall i :: 0 <= i < |v| ==> v[i] !in {'\n', '.', '\U{3002}', ' '}
    ensures Preferred(v, boundaries, spans, start, reach, k).None?
  {
    if k > 0 {
      NoMarker(v, boundaries, spans, start, reach, k - 1);
      var marker := MARKERS[k - 1];
      forall i | 0 <= i <= |v| - |marker| ensures !OccursAt(v, marker, i) {
        assert v[i..i + |marker|][0] == v[i] && marker[0] in {'\n', '.', '\U{3002}', ' '};
      }
    }
  }

  lemma LinkedIsSimple()
    ensures Simple(LINKED) && |LINKED| == 9 && !Blank(LINKED, Space())
    ensures !SomeLinkTooLong([(0, 6)], 6) && !SomeLinkStartsInCluster(LINKED, Combining(), [(0, 6)])
  {
    var v := LINKED;
    assert v[0] == '[' && v[6] == ACCENT && v[7] == 'z';
    assert AtBoundary(v, Combining())(0);
  }

  lemma AllInside(p: int)
    requires 0 < p <= 6 && p in BoundariesOf(LINKED, Combining())
    ensures Inside(p, [(0, 6)])
  {
    LinkedIsSimple();
    SimpleBoundary(LINKED, p);
    assert LINKED[6] == ACCENT;
    var spans: seq<Span> := [(0, 6)];
    assert spans[0].0 < p < spans[0].1;
  }

  lemma FirstLinkIsSplit()
    ensures |LINKED| == 9 && MustSplitLink(LINKED, 0, 6, 7, [(0, 6)], BoundariesOf(LINKED, Combining()))
  {
    LinkedIsSimple();
    var spans: seq<Span> := [(0, 6)];
    NoMarker(LINKED, BoundariesOf(LINKED, Combining()), spans, 0, 7, |MARKERS|);
    assert spans[0] == (0, 6) && Containing(spans, 6).None?;
    forall p | 0 < p <= 6 && p in BoundariesOf(LINKED, Combining()) ensures Inside(p, spans) {
      AllInside(p);
    }
  }

  /** Whatever the parts of that text are, with a limit of six the first one ends inside the link. */
  lemma FirstPartIsShort(cuts: seq<int>, parts: seq<string>)
    requires SplitUpTo(LINKED, Combining(), [(0, 6)], 6, 1, cuts, parts, |LINKED|) && |parts| > 0
    requires Chained(cuts, NextCuts(LINKED, Combining(), [(0, 6)], 6, 1))
    ensures 0 < |parts[0]| < 6
  {
    FirstLinkIsSplit();
    var spans: seq<Span> := [(0, 6)];
    LinksSplitExactly(LINKED, Combining(), spans, 6, 1, cuts, parts, 0);
    var p, q := PartAt(LINKED, Combining(), spans, 6, 1, cuts, parts, 0);
    assert Inside(q, spans);
  }

  /** With a limit of six the link of six characters is split, because an accent follows it. */
  method LinkIsSplit() returns (parts: seq<string>)
    ensures |parts| > 0 && 0 < |parts[0]| < 6 && LinkSpans(LINKED, 0) == [(0, 6)] && Concat(parts) == LINKED
  {
    OneLink();
    LinkedIsSimple();
    ghost var cuts;
    parts, cuts := Split(LINKED, 6);
    FirstPartIsShort(cuts, parts);
  }
}
