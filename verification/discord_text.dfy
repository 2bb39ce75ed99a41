/**
  Splitting a long reply into Discord messages: at paragraph, line, sentence or word ends where
  possible, never inside a grapheme cluster, and around Markdown links.
  */
module DiscordText {
  import opened Graphemes
  import opened Results
  import opened Texts

  type Span = (int, int)

  // ---------- Markdown links ----------

  function BackslashesBefore(v: string, index: int): nat
    requires 0 <= index <= |v|
  {
    if index > 0 && v[index - 1] == '\\' then 1 + BackslashesBefore(v, index - 1) else 0
  }

  predicate Escaped(v: string, index: int)
    requires 0 <= index <= |v|
  {
    BackslashesBefore(v, index) % 2 == 1
  }

  method IsEscaped(v: string, index: int) returns (escaped: bool)
    requires 0 <= index <= |v|
    ensures escaped == Escaped(v, index)
  {
    var backslashes, i := 0, index;
    while i > 0 && v[i - 1] == '\\'
      invariant 0 <= i <= index
      invariant backslashes + BackslashesBefore(v, i) == BackslashesBefore(v, index)
    {
      backslashes := backslashes + 1;
      i := i - 1;
    }
    escaped := backslashes % 2 == 1;
  }

  /** Unescaped openings minus unescaped closings in v[from..end]. */
  function Depth(v: string, from: int, end: int, opening: char, closing: char): int
    requires 0 <= from <= end <= |v|
    decreases end
  {
    if from == end then 0
    else
      Depth(v, from, end - 1, opening, closing)
      + if Escaped(v, end - 1) then 0 else if v[end - 1] == opening then 1 else if v[end - 1] == closing then -1 else 0
  }

  /** An unescaped closing delimiter that brings the depth, counted from `from`, back to zero. */
  predicate Closes(v: string, from: int, at: int, opening: char, closing: char)
    requires 0 <= from <= at < |v|
  {
    && !Escaped(v, at) && v[at] == closing && opening != closing
    && Depth(v, from, at + 1, opening, closing) == 0
  }

  /** The first place from `at` on that closes what is open since `from`. */
  function MatchFrom(v: string, from: int, at: int, opening: char, closing: char): (r: Option<int>)
    requires 0 <= from <= at <= |v|
    ensures r.Some? ==> at <= r.value < |v| && Closes(v, from, r.value, opening, closing)
    decreases |v| - at
  {
    if at == |v| then None
    else if Closes(v, from, at, opening, closing) then Some(at)
    else MatchFrom(v, from, at + 1, opening, closing)
  }

  method MatchingDelimiter(v: string, from: int, opening: char, closing: char) returns (r: Option<int>)
    requires 0 <= from <= |v| && opening != closing
    ensures r == MatchFrom(v, from, from, opening, closing)
  {
    var depth := 0;
    for index := from to |v|
      invariant depth == Depth(v, from, index, opening, closing)
      invariant MatchFrom(v, from, from, opening, closing) == MatchFrom(v, from, index, opening, closing)
    {
      var escaped := IsEscaped(v, index);
      if escaped {
        continue;
      }
      if v[index] == opening {
        depth := depth + 1;
      } else if v[index] == closing {
        depth := depth - 1;
        if depth == 0 {
          return Some(index);
        }
      }
    }
    r := None;
  }

  /** The end of the link whose label opens at `index`, if one does. */
  function LinkEnd(v: string, index: int): (r: Option<int>)
    requires 0 <= index < |v|
    ensures r.Some? ==> index + 3 < r.value <= |v| && v[r.value - 1] == ')'
  {
    if v[index] != '[' || Escaped(v, index) then None
    else
      match MatchFrom(v, index, index, '[', ']')
      case None => None
      case Some(close) =>
        if close + 1 >= |v| || v[close + 1] != '(' then None
        else
          match MatchFrom(v, close + 1, close + 1, '(', ')')
          case None => None
          case Some(destination) => Some(destination + 1)
  }

  /** The link spans from `index` on, an image's exclamation mark included. */
  function LinkSpans(v: string, index: int): seq<Span>
    requires 0 <= index <= |v|
    decreases |v| - index
  {
    if index == |v| then []
    else
      match LinkEnd(v, index)
      case None => LinkSpans(v, index + 1)
      case Some(end) => [(if index > 0 && v[index - 1] == '!' then index - 1 else index, end)] + LinkSpans(v, end)
  }

  method MarkdownLinkSpans(v: string) returns (spans: seq<Span>)
    ensures spans == LinkSpans(v, 0)
  {
    spans := [];
    var index := 0;
    while index < |v|
      invariant 0 <= index <= |v|
      invariant LinkSpans(v, 0) == spans + LinkSpans(v, index)
    {
      var end := LinkAt(v, index);
      if end.None? {
        index := index + 1;
        continue;
      }
      var span := (if index > 0 && v[index - 1] == '!' then index - 1 else index, end.value);
      ghost var rest := LinkSpans(v, end.value);
      assert (spans + [span]) + rest == spans + ([span] + rest);
      spans := spans + [span];
      index := end.value;
    }
  }

  method LinkAt(v: string, index: int) returns (end: Option<int>)
    requires 0 <= index < |v|
    ensures end == LinkEnd(v, index)
  {
    var escaped := IsEscaped(v, index);
    if v[index] != '[' || escaped {
      return None;
    }
    var close := MatchingDelimiter(v, index, '[', ']');
    if close.None? || close.value + 1 >= |v| || v[close.value + 1] != '(' {
      return None;
    }
    var destination := MatchingDelimiter(v, close.value + 1, '(', ')');
    end := if destination.None? then None else Some(destination.value + 1);
  }

  /** In range, in order and not overlapping. */
  ghost predicate Disjoint(spans: seq<Span>, length: int) {
    && (forall k :: 0 <= k < |spans| ==> 0 <= spans[k].0 < spans[k].1 <= length)
    && (forall j, k :: 0 <= j < k < |spans| ==> spans[j].1 <= spans[k].0)
  }

  lemma {:induction false} LinkSpansAreDisjoint(v: string, index: int)
    requires 0 <= index <= |v|
    ensures Disjoint(LinkSpans(v, index), |v|)
    ensures forall k :: 0 <= k < |LinkSpans(v, index)| ==>
              LinkSpans(v, index)[k].0 >= index - if index > 0 && v[index - 1] == '!' then 1 else 0
    decreases |v| - index
  {
    if index < |v| {
      match LinkEnd(v, index)
      case None => LinkSpansAreDisjoint(v, index + 1);
      case Some(end) => LinkSpansAreDisjoint(v, end);
    }
  }

  // ---------- One cut ----------

  predicate Inside(p: int, spans: seq<Span>) {
    exists k :: 0 <= k < |spans| && spans[k].0 < p < spans[k].1
  }

  /** The last occurrence of `marker` that lies within v[from..end]. */
  function RFind(v: string, marker: string, from: int, end: int): (r: Option<int>)
    requires 0 <= from && end <= |v|
    ensures r.Some? ==> from <= r.value <= end - |marker| && OccursAt(v, marker, r.value)
    decreases end - from
  {
    if end - |marker| < from then None
    else if OccursAt(v, marker, end - |marker|) then Some(end - |marker|)
    else RFind(v, marker, from, end - 1)
  }

  /** It is the last one indeed. */
  lemma {:induction false} RFindIsLast(v: string, marker: string, from: int, end: int, p: int)
    requires 0 <= from <= p <= end - |marker| && end <= |v| && OccursAt(v, marker, p)
    ensures RFind(v, marker, from, end).Some? && p <= RFind(v, marker, from, end).value
    decreases end - from
  {
    if !OccursAt(v, marker, end - |marker|) {
      RFindIsLast(v, marker, from, end - 1, p);
    }
  }

  const MARKERS: seq<string> := ["\n\n", "\n", ". ", "\U{3002}", " "]

  /** The place after the last occurrence of a marker, when one may cut there. */
  function AfterMarker(v: string, boundaries: set<int>, spans: seq<Span>, start: int, reach: int,
                       marker: string): (r: Option<int>)
    requires 0 <= start && reach <= |v|
    ensures r.Some? ==> start + |marker| <= r.value <= reach && r.value in boundaries && !Inside(r.value, spans)
  {
    match RFind(v, marker, start, reach)
    case None => None
    case Some(position) =>
      var candidate := position + |marker|;
      if candidate in boundaries && !Inside(candidate, spans) then Some(candidate) else None
  }

  /** The furthest of the places after the first `k` markers. */
  function Preferred(v: string, boundaries: set<int>, spans: seq<Span>, start: int, reach: int,
                     k: nat): (r: Option<int>)
    requires 0 <= start && reach <= |v| && k <= |MARKERS|
    ensures r.Some? ==> start < r.value <= reach && r.value in boundaries && !Inside(r.value, spans)
  {
    if k == 0 then None
    else
      var before := Preferred(v, boundaries, spans, start, reach, k - 1);
      match AfterMarker(v, boundaries, spans, start, reach, MARKERS[k - 1])
      case None => before
      case Some(p) => if before.Some? && before.value >= p then before else Some(p)
  }

  /** The last boundary in (lo, hi] that is not inside a span. */
  function LastOutside(boundaries: set<int>, spans: seq<Span>, lo: int, hi: int): (r: Option<int>)
    ensures r.Some? ==> lo < r.value <= hi && r.value in boundaries && !Inside(r.value, spans)
    decreases hi - lo
  {
    if hi <= lo then None
    else if hi in boundaries && !Inside(hi, spans) then Some(hi)
    else LastOutside(boundaries, spans, lo, hi - 1)
  }

  lemma {:induction false} LastOutsideIsLast(boundaries: set<int>, spans: seq<Span>, lo: int, hi: int, p: int)
    requires lo < p <= hi && p in boundaries && !Inside(p, spans)
    ensures LastOutside(boundaries, spans, lo, hi).Some? && p <= LastOutside(boundaries, spans, lo, hi).value
    decreases hi - lo
  {
    if p < hi && !(hi in boundaries && !Inside(hi, spans)) {
      LastOutsideIsLast(boundaries, spans, lo, hi - 1, p);
    }
  }

  /** The first boundary after `lo`. */
  function FirstAfter(boundaries: set<int>, lo: int, hi: int): (r: int)
    requires lo < hi && hi in boundaries
    ensures lo < r <= hi && r in boundaries
    decreases hi - lo
  {
    if lo + 1 in boundaries then lo + 1 else FirstAfter(boundaries, lo + 1, hi)
  }

  lemma {:induction false} FirstAfterIsFirst(boundaries: set<int>, lo: int, hi: int, p: int)
    requires lo < hi && hi in boundaries && lo < p && p in boundaries
    ensures FirstAfter(boundaries, lo, hi) <= p
    decreases hi - lo
  {
    if lo + 1 !in boundaries {
      FirstAfterIsFirst(boundaries, lo + 1, hi, p);
    }
  }

  /** The first span that `p` would cut in two. */
  function Containing(spans: seq<Span>, p: int): (r: Option<Span>)
    ensures r.Some? ==> r.value in spans && r.value.0 < p < r.value.1
    ensures r.None? ==> !Inside(p, spans)
  {
    if |spans| == 0 then None
    else if spans[0].0 < p < spans[0].1 then Some(spans[0])
    else
      var r := Containing(spans[1..], p);
      assert r.None? ==> forall k :: 1 <= k < |spans| ==> spans[k] == spans[1..][k - 1];
      r
  }

  datatype SplitError = LimitNotPositive | LinkTooLong | GraphemeTooLong | NoBoundaryBeforeLink

  /**
    The cut after `start`. `reach` is where the marker search stops: one past the hard limit.
    A marker end in the last two thirds wins; otherwise the cut goes before a link that the hard
    limit would split; otherwise to the last free boundary.
    */
  function Cut(v: string, start: int, hardLimit: int, reach: int, spans: seq<Span>,
               boundaries: set<int>): (r: Result<int, SplitError>)
    requires 0 <= start < hardLimit < |v| && hardLimit <= reach <= |v| && |v| in boundaries
    ensures r.Ok? ==> start < r.value <= reach && r.value in boundaries
  {
    var best := Preferred(v, boundaries, spans, start, reach, |MARKERS|);
    var link := Containing(spans, hardLimit);
    if best.Some? && best.value >= start + (hardLimit - start) / 3 then
      Ok(best.value)
    else if link.Some? && link.value.0 > start then
      match LastIn(boundaries, start, link.value.0)
      case Some(p) => Ok(p)
      case None => Err(NoBoundaryBeforeLink)
    else
      match LastOutside(boundaries, spans, start, hardLimit)
      case Some(p) => Ok(p)
      case None =>
        var first := FirstAfter(boundaries, start, |v|);
        if first > hardLimit then Err(GraphemeTooLong) else Ok(first)
  }

  /** A cut splits no link when the links are short enough, disjoint, and end on boundaries. */
  lemma CutAvoidsLinks(v: string, start: int, hardLimit: int, reach: int, spans: seq<Span>, boundaries: set<int>,
                       r: Result<int, SplitError>)
    requires 0 <= start < hardLimit < |v| && hardLimit <= reach <= |v| && |v| in boundaries
    requires Disjoint(spans, |v|)
    requires forall k :: 0 <= k < |spans| ==> spans[k].1 - spans[k].0 <= hardLimit - start && spans[k].1 in boundaries
    requires !Inside(start, spans)
    requires r == Cut(v, start, hardLimit, reach, spans, boundaries)
    ensures r.Ok? ==> !Inside(r.value, spans)
  {
    forall k, j | 0 <= k < |spans| && 0 <= j < |spans| ensures !(spans[j].0 < spans[k].1 < spans[j].1) {
      assert j < k ==> spans[j].1 <= spans[k].0;
      assert k < j ==> spans[k].1 <= spans[j].0;
    }
    assert forall k :: 0 <= k < |spans| ==> !Inside(spans[k].1, spans);
    var link := Containing(spans, hardLimit);
    if link.Some? && link.value.0 > start {
      var before := LastIn(boundaries, start, link.value.0);
      if before.Some? {
        CutBeforeLink(v, start, spans, boundaries, link.value, before.value);
      }
    } else if link.None? && LastOutside(boundaries, spans, start, hardLimit).None? {
      var first := FirstAfter(boundaries, start, |v|);
      forall k | 0 <= k < |spans| && first <= hardLimit ensures !(spans[k].0 < first < spans[k].1) {
        assert !(spans[k].0 < hardLimit < spans[k].1);
        var end := spans[k].1;
        if start < end <= hardLimit {
          LastOutsideIsLast(boundaries, spans, start, hardLimit, end);
        }
      }
    }
  }

  /** The last boundary up to the start of a link is past the end of every earlier link. */
  lemma CutBeforeLink(v: string, start: int, spans: seq<Span>, boundaries: set<int>, link: Span, p: int)
    requires Disjoint(spans, |v|) && link in spans && !Inside(start, spans)
    requires forall k :: 0 <= k < |spans| ==> spans[k].1 in boundaries
    requires start < p <= link.0 && LastIn(boundaries, start, link.0) == Some(p)
    ensures !Inside(p, spans)
  {
    var n :| 0 <= n < |spans| && spans[n] == link;
    forall k | 0 <= k < |spans| ensures !(spans[k].0 < p < spans[k].1) {
      assert n < k ==> spans[n].1 <= spans[k].0;
      assert k < n ==> spans[k].1 <= spans[n].0;
      if k < n && start < spans[k].1 {
        LastInIsLast(boundaries, start, link.0, spans[k].1);
      }
    }
  }

  method SplitBoundary(v: string, start: int, hardLimit: int, reach: int, spans: seq<Span>, boundaries: set<int>)
    returns (r: Result<int, SplitError>)
    requires 0 <= start < hardLimit < |v| && hardLimit <= reach <= |v|
    requires |v| in boundaries
    ensures r == Cut(v, start, hardLimit, reach, spans, boundaries)
  {
    var preferred: Option<int> := None;
    for k := 0 to |MARKERS|
      invariant preferred == Preferred(v, boundaries, spans, start, reach, k)
    {
      var candidate := AfterMarker(v, boundaries, spans, start, reach, MARKERS[k]);
      if candidate.Some? && (preferred.None? || candidate.value > preferred.value) {
        preferred := candidate;
      }
    }
    if preferred.Some? && preferred.value >= start + (hardLimit - start) / 3 {
      return Ok(preferred.value);
    }
    var containing := Containing(spans, hardLimit);
    if containing.Some? && containing.value.0 > start {
      var before := LastIn(boundaries, start, containing.value.0);
      return match before case Some(p) => Ok(p) case None => Err(NoBoundaryBeforeLink);
    }
    // A link from `start` or earlier that ends by the hard limit cannot contain the hard limit.
    var candidate := LastOutside(boundaries, spans, start, hardLimit);
    if candidate.Some? {
      return Ok(candidate.value);
    }
    var first := FirstAfter(boundaries, start, |v|);
    r := if first > hardLimit then Err(GraphemeTooLong) else Ok(first);
  }

  // ---------- The whole text ----------

  /** Every link ends where a cluster ends. */
  ghost predicate LinkEndsFree(v: string, combining: char -> bool, spans: seq<Span>) {
    forall k :: 0 <= k < |spans| ==> 0 <= spans[k].1 <= |v| && Boundary(v, combining, spans[k].1)
  }

  /** A cut as the renderer promises it. */
  ghost predicate GoodCut(v: string, combining: char -> bool, spans: seq<Span>, p: int) {
    && 0 <= p <= |v| && Boundary(v, combining, p)
    && (LinkEndsFree(v, combining, spans) ==> !Inside(p, spans))
  }

  predicate SomeLinkTooLong(spans: seq<Span>, limit: int) {
    exists k :: 0 <= k < |spans| && spans[k].1 - spans[k].0 > limit
  }

  ghost predicate SomeLinkStartsInCluster(v: string, combining: char -> bool, spans: seq<Span>) {
    exists k :: 0 <= k < |spans| && !AtBoundary(v, combining)(spans[k].0)
  }

  /** The text up to `start`, cut into parts no longer than the limit by more than `beyond`. */
  ghost predicate SplitUpTo(v: string, combining: char -> bool, spans: seq<Span>, limit: int, beyond: int,
                            cuts: seq<int>, parts: seq<string>, start: int)
  {
    && |cuts| > 0 && cuts[0] == 0 && cuts[|cuts| - 1] == start
    && (forall i :: 0 <= i < |cuts| ==> GoodCut(v, combining, spans, cuts[i]))
    && (forall i, j :: 0 <= i < j < |cuts| ==> cuts[i] < cuts[j])
    && Slices(v, cuts, parts)
    && (forall k :: 0 <= k < |parts| ==> 1 <= |parts[k]| <= limit + beyond)
  }

  ghost function BoundariesOf(v: string, combining: char -> bool): set<int> {
    set p | 0 <= p <= |v| && Boundary(v, combining, p)
  }

  /** The next cut after `p`: what `Cut` says while more than the limit is left, and then the end. */
  ghost predicate NextCut(v: string, combining: char -> bool, spans: seq<Span>, limit: int, beyond: int, p: int,
                          q: int) {
    if limit >= 1 && 0 <= beyond <= 1 && 0 <= p && p + limit < |v| then
      Cut(v, p, p + limit, p + limit + beyond, spans, BoundariesOf(v, combining)) == Ok(q)
    else
      p < |v| && q == |v|
  }

  /** That relation between a cut and the next one. */
  ghost function NextCuts(v: string, combining: char -> bool, spans: seq<Span>, limit: int, beyond: int)
    : (int, int) -> bool
  {
    (p, q) => NextCut(v, combining, spans, limit, beyond, p, q)
  }

  /** Every cut is in the relation with the next one. */
  ghost predicate Chained(cuts: seq<int>, next: (int, int) -> bool) {
    forall i :: 0 <= i < |cuts| - 1 ==> next(cuts[i], cuts[i + 1])
  }

  lemma ChainedOn(cuts: seq<int>, next: (int, int) -> bool, q: int)
    requires |cuts| > 0 && Chained(cuts, next) && next(cuts[|cuts| - 1], q)
    ensures Chained(cuts + [q], next)
  {
    var after := cuts + [q];
    forall i | 0 <= i < |after| - 1 ensures next(after[i], after[i + 1]) {
      assert i < |cuts| - 1 ==> next(cuts[i], cuts[i + 1]);
    }
  }

  predicate Blank(v: string, space: char -> bool) { forall i :: 0 <= i < |v| ==> space(v[i]) }

  /**
    The parts join to the text; they are not empty; each cut is a cluster boundary and, when links end
    on boundaries, splits no link. With the marker search reaching `beyond` characters past the limit
    (one, in the program) no part is longer than the limit by more than that.
    */
  method SplitDiscordText(v: string, limit: int, combining: char -> bool, space: char -> bool, beyond: int)
    returns (r: Result<seq<string>, SplitError>, ghost cuts: seq<int>)
    requires 0 <= beyond <= 1
    ensures r == Err(LimitNotPositive) <==> limit < 1
    ensures limit >= 1 && Blank(v, space) ==> r == Ok([])
    ensures limit >= 1 && !Blank(v, space) && |v| <= limit ==> r == Ok([v])
    ensures r == Err(LinkTooLong) <==>
              limit >= 1 && !Blank(v, space) && |v| > limit && SomeLinkTooLong(LinkSpans(v, 0), limit)
    ensures r == Err(GraphemeTooLong) ==> exists p :: Oversized(v, combining, limit, p)
    ensures r == Err(NoBoundaryBeforeLink) ==> SomeLinkStartsInCluster(v, combining, LinkSpans(v, 0))
    ensures r.Ok? && |v| > limit && !Blank(v, space) ==>
              Concat(r.value) == v && SplitUpTo(v, combining, LinkSpans(v, 0), limit, beyond, cuts, r.value, |v|)
    ensures r.Ok? && |v| > limit && !Blank(v, space) ==>
              Chained(cuts, NextCuts(v, combining, LinkSpans(v, 0), limit, beyond))
  {
    cuts := [0, |v|];
    if limit < 1 {
      return Err(LimitNotPositive), cuts;
    }
    if Blank(v, space) {
      return Ok([]), cuts;
    }
    if |v| <= limit {
      return Ok([v]), cuts;
    }
    var spans := MarkdownLinkSpans(v);
    if SomeLinkTooLong(spans, limit) {
      return Err(LinkTooLong), cuts;
    }
    LinkSpansAreDisjoint(v, 0);
    r, cuts := SplitLong(v, limit, combining, beyond, spans);
  }

  lemma OneMorePart(v: string, combining: char -> bool, spans: seq<Span>, limit: int, beyond: int,
                    cuts: seq<int>, parts: seq<string>, start: int, next: int)
    requires SplitUpTo(v, combining, spans, limit, beyond, cuts, parts, start)
    requires 0 <= start < next <= start + limit + beyond && GoodCut(v, combining, spans, next)
    ensures SplitUpTo(v, combining, spans, limit, beyond, cuts + [next], parts + [v[start..next]], next)
  {
  }

  /** Splits a text that is longer than the limit and whose links are not. */
  method SplitLong(v: string, limit: int, combining: char -> bool, beyond: int, spans: seq<Span>)
    returns (r: Result<seq<string>, SplitError>, ghost cuts: seq<int>)
    requires 0 <= beyond <= 1 <= limit < |v|
    requires Disjoint(spans, |v|) && !SomeLinkTooLong(spans, limit)
    ensures r.Ok? ==> Concat(r.value) == v && SplitUpTo(v, combining, spans, limit, beyond, cuts, r.value, |v|)
    ensures r.Ok? ==> Chained(cuts, NextCuts(v, combining, spans, limit, beyond))
    ensures r.Err? ==> r.error == GraphemeTooLong || r.error == NoBoundaryBeforeLink
    ensures r == Err(GraphemeTooLong) ==> exists p :: Oversized(v, combining, limit, p)
    ensures r == Err(NoBoundaryBeforeLink) ==> SomeLinkStartsInCluster(v, combining, spans)
  {
    var boundaries := GraphemeBoundaries(v, combining);
    var parts: seq<string> := [];
    var start := 0;
    cuts := [0];
    NothingSplit(v, combining, spans, limit, beyond);
    while |v| - start > limit
      invariant 0 <= start <= |v|
      invariant SplitUpTo(v, combining, spans, limit, beyond, cuts, parts, start)
      invariant Chained(cuts, NextCuts(v, combining, spans, limit, beyond))
    {
      assert GoodCut(v, combining, spans, cuts[|cuts| - 1]);
      var boundary := NextBoundary(v, combining, spans, limit, beyond, start, boundaries);
      if boundary.Err? {
        return Err(boundary.error), cuts;
      }
      OneMorePart(v, combining, spans, limit, beyond, cuts, parts, start, boundary.value);
      ChainedOn(cuts, NextCuts(v, combining, spans, limit, beyond), boundary.value);
      parts := parts + [v[start..boundary.value]];
      cuts := cuts + [boundary.value];
      start := boundary.value;
    }
    if start < |v| {
      LastPart(v, combining, spans, limit, beyond, cuts, parts, start);
      ChainedOn(cuts, NextCuts(v, combining, spans, limit, beyond), |v|);
      parts := parts + [v[start..|v|]];
      cuts := cuts + [|v|];
    }
    PartsJoin(v, combining, spans, limit, beyond, cuts, parts);
    r := Ok(parts);
  }

  /** What one call of `SplitBoundary` leads to. */
  ghost predicate Continues(v: string, combining: char -> bool, spans: seq<Span>, limit: int, beyond: int,
                            start: int, r: Result<int, SplitError>)
  {
    match r
    case Ok(next) => start < next <= start + limit + beyond && GoodCut(v, combining, spans, next)
    case Err(error) =>
      && (error == GraphemeTooLong || error == NoBoundaryBeforeLink)
      && (error == GraphemeTooLong ==> Oversized(v, combining, limit, start))
      && (error == NoBoundaryBeforeLink ==> SomeLinkStartsInCluster(v, combining, spans))
  }

  ghost function Continuing(v: string, combining: char -> bool, spans: seq<Span>, limit: int, beyond: int)
    : (int, Result<int, SplitError>) -> bool
  {
    (start, r) => Continues(v, combining, spans, limit, beyond, start, r)
  }

  method NextBoundary(v: string, ghost combining: char -> bool, spans: seq<Span>, limit: int, beyond: int,
                      start: int, boundaries: set<int>)
    returns (r: Result<int, SplitError>)
    requires 1 <= limit && 0 <= beyond <= 1 && 0 <= start && start + limit < |v|
    requires GoodCut(v, combining, spans, start)
    requires forall p :: p in boundaries <==> 0 <= p <= |v| && Boundary(v, combining, p)
    requires Disjoint(spans, |v|) && !SomeLinkTooLong(spans, limit)
    ensures Continuing(v, combining, spans, limit, beyond)(start, r)
    ensures r.Ok? ==> NextCuts(v, combining, spans, limit, beyond)(start, r.value)
  {
    var hardLimit := start + limit;
    var reach := hardLimit + beyond;
    SameBoundaries(v, combining, boundaries);
    r := SplitBoundary(v, start, hardLimit, reach, spans, boundaries);
    CutSoFar(v, combining, spans, limit, beyond, start, hardLimit, reach, boundaries, r);
    CutIsNext(v, combining, spans, limit, beyond, start, hardLimit, reach, boundaries, r);
  }

  lemma NothingSplit(v: string, combining: char -> bool, spans: seq<Span>, limit: int, beyond: int)
    requires Disjoint(spans, |v|)
    ensures SplitUpTo(v, combining, spans, limit, beyond, [0], [], 0)
  {
  }

  lemma LastPart(v: string, combining: char -> bool, spans: seq<Span>, limit: int, beyond: int,
                 cuts: seq<int>, parts: seq<string>, start: int)
    requires Disjoint(spans, |v|) && 0 <= beyond && 0 <= start < |v| <= start + limit
    requires SplitUpTo(v, combining, spans, limit, beyond, cuts, parts, start)
    ensures SplitUpTo(v, combining, spans, limit, beyond, cuts + [|v|], parts + [v[start..|v|]], |v|)
  {
    OneMorePart(v, combining, spans, limit, beyond, cuts, parts, start, |v|);
  }

  lemma PartsJoin(v: string, combining: char -> bool, spans: seq<Span>, limit: int, beyond: int,
                  cuts: seq<int>, parts: seq<string>)
    requires SplitUpTo(v, combining, spans, limit, beyond, cuts, parts, |v|)
    ensures Concat(parts) == v
  {
    SlicesConcat(v, cuts, parts);
    assert v[..|v|] == v;
  }

  /** One call of `SplitBoundary` with the links and boundaries of the text. */
  ghost predicate AtCut(v: string, combining: char -> bool, spans: seq<Span>, limit: int, beyond: int,
                        start: int, hardLimit: int, reach: int, boundaries: set<int>)
  {
    && 1 <= limit && 0 <= beyond <= 1 && 0 <= start && hardLimit == start + limit < |v| && reach == hardLimit + beyond
    && boundaries == BoundariesOf(v, combining) && |v| in boundaries
    && Disjoint(spans, |v|) && !SomeLinkTooLong(spans, limit)
  }

  lemma SameBoundaries(v: string, combining: char -> bool, boundaries: set<int>)
    requires forall p :: p in boundaries <==> 0 <= p <= |v| && Boundary(v, combining, p)
    ensures boundaries == BoundariesOf(v, combining) && |v| in boundaries
  {
  }

  lemma CutIsNext(v: string, combining: char -> bool, spans: seq<Span>, limit: int, beyond: int,
                  start: int, hardLimit: int, reach: int, boundaries: set<int>, r: Result<int, SplitError>)
    requires AtCut(v, combining, spans, limit, beyond, start, hardLimit, reach, boundaries)
    requires r == Cut(v, start, hardLimit, reach, spans, boundaries)
    ensures r.Ok? ==> NextCuts(v, combining, spans, limit, beyond)(start, r.value)
  {
  }

  lemma CutSoFar(v: string, combining: char -> bool, spans: seq<Span>, limit: int, beyond: int,
                 start: int, hardLimit: int, reach: int, boundaries: set<int>, r: Result<int, SplitError>)
    requires AtCut(v, combining, spans, limit, beyond, start, hardLimit, reach, boundaries)
    requires GoodCut(v, combining, spans, start)
    requires r == Cut(v, start, hardLimit, reach, spans, boundaries)
    ensures Continuing(v, combining, spans, limit, beyond)(start, r)
  {
    FailureIsReal(v, combining, spans, limit, beyond, start, hardLimit, reach, boundaries, r);
    if r.Ok? && LinkEndsFree(v, combining, spans) {
      CutKeepsLinks(v, combining, spans, limit, beyond, start, hardLimit, reach, boundaries, r);
    }
  }

  /** What one more cut keeps. */
  lemma CutKeepsLinks(v: string, combining: char -> bool, spans: seq<Span>, limit: int, beyond: int,
                      start: int, hardLimit: int, reach: int, boundaries: set<int>, r: Result<int, SplitError>)
    requires AtCut(v, combining, spans, limit, beyond, start, hardLimit, reach, boundaries)
    requires !Inside(start, spans) && LinkEndsFree(v, combining, spans)
    requires r == Cut(v, start, hardLimit, reach, spans, boundaries) && r.Ok?
    ensures !Inside(r.value, spans)
  {
    LinksAreShort(v, combining, spans, limit, boundaries);
    CutAvoidsLinks(v, start, hardLimit, reach, spans, boundaries, r);
  }

  lemma LinksAreShort(v: string, combining: char -> bool, spans: seq<Span>, limit: int, boundaries: set<int>)
    requires LinkEndsFree(v, combining, spans) && !SomeLinkTooLong(spans, limit)
    requires boundaries == BoundariesOf(v, combining)
    ensures forall k :: 0 <= k < |spans| ==> spans[k].1 - spans[k].0 <= limit && spans[k].1 in boundaries
  {
  }

  /** What a failure to cut means. */
  lemma FailureIsReal(v: string, combining: char -> bool, spans: seq<Span>, limit: int, beyond: int,
                      start: int, hardLimit: int, reach: int, boundaries: set<int>, r: Result<int, SplitError>)
    requires AtCut(v, combining, spans, limit, beyond, start, hardLimit, reach, boundaries)
    requires Boundary(v, combining, start)
    requires r == Cut(v, start, hardLimit, reach, spans, boundaries)
    ensures r == Err(GraphemeTooLong) ==> Oversized(v, combining, limit, start)
    ensures r == Err(NoBoundaryBeforeLink) ==> SomeLinkStartsInCluster(v, combining, spans)
    ensures r.Err? ==> r.error == GraphemeTooLong || r.error == NoBoundaryBeforeLink
  {
    forall q | start < q <= hardLimit && q <= |v| && Boundary(v, combining, q)
      ensures FirstAfter(boundaries, start, |v|) <= q
    {
      assert q in boundaries;
      FirstAfterIsFirst(boundaries, start, |v|, q);
    }
    if r == Err(NoBoundaryBeforeLink) {
      var link := Containing(spans, hardLimit).value;
      var k :| 0 <= k < |spans| && spans[k] == link;
      assert link.0 !in boundaries;
      assert !AtBoundary(v, combining)(spans[k].0);
    }
  }

  // ---------- One over the limit ----------

  /** One of the first `k` markers starts at or after `start` and ends at `end`. */
  predicate MarkerEnds(v: string, start: int, end: int, k: nat)
    requires k <= |MARKERS|
  {
    k > 0 && (MarkerEnds(v, start, end, k - 1) || EndsWith(v, start, end, MARKERS[k - 1]))
  }

  predicate EndsWith(v: string, start: int, end: int, marker: string) {
    start <= end - |marker| && OccursAt(v, marker, end - |marker|)
  }

  lemma AfterMarkerAtReach(v: string, boundaries: set<int>, spans: seq<Span>, start: int, reach: int, marker: string)
    requires 0 <= start && reach <= |v|
    ensures AfterMarker(v, boundaries, spans, start, reach, marker) == Some(reach)
            <==> reach in boundaries && !Inside(reach, spans) && EndsWith(v, start, reach, marker)
  {
    if EndsWith(v, start, reach, marker) {
      RFindIsLast(v, marker, start, reach, reach - |marker|);
    }
  }

  /** The furthest place that the first `k` markers give is the reach itself exactly when one of them ends there. */
  lemma {:induction false} PreferredAtReach(v: string, boundaries: set<int>, spans: seq<Span>, start: int, reach: int,
                                            k: nat)
    requires 0 <= start && reach <= |v| && k <= |MARKERS|
    ensures Preferred(v, boundaries, spans, start, reach, k) == Some(reach)
            <==> reach in boundaries && !Inside(reach, spans) && MarkerEnds(v, start, reach, k)
  {
    if k > 0 {
      PreferredAtReach(v, boundaries, spans, start, reach, k - 1);
      AfterMarkerAtReach(v, boundaries, spans, start, reach, MARKERS[k - 1]);
    }
  }

  /** A cut goes one past the limit exactly when a marker ends there, on a boundary outside the links. */
  lemma CutOverTheLimit(v: string, start: int, h: int, spans: seq<Span>, boundaries: set<int>)
    requires 0 <= start < h < |v| && |v| in boundaries
    ensures Cut(v, start, h, h + 1, spans, boundaries) == Ok(h + 1)
            <==> h + 1 in boundaries && !Inside(h + 1, spans) && MarkerEnds(v, start, h + 1, |MARKERS|)
  {
    PreferredAtReach(v, boundaries, spans, start, h + 1, |MARKERS|);
  }

  /** A marker ends one past the limit after `p`, on a cluster boundary and outside the links. */
  ghost predicate MarkerOverTheLimit(v: string, combining: char -> bool, spans: seq<Span>, limit: int, p: int) {
    var over := p + limit + 1;
    && 0 <= over <= |v| && Boundary(v, combining, over) && !Inside(over, spans)
    && MarkerEnds(v, p, over, |MARKERS|)
  }

  lemma NextCutOverTheLimit(v: string, combining: char -> bool, spans: seq<Span>, limit: int, p: int, q: int)
    requires limit >= 1 && 0 <= p && NextCuts(v, combining, spans, limit, 1)(p, q)
    ensures p < q <= p + limit + 1
    ensures q > p + limit <==> MarkerOverTheLimit(v, combining, spans, limit, p)
  {
    if p + limit < |v| {
      var boundaries := BoundariesOf(v, combining);
      CutOverTheLimit(v, p, p + limit, spans, boundaries);
      assert p + limit + 1 in boundaries <==> Boundary(v, combining, p + limit + 1);
    }
  }

  /**
    A part of a split text is longer than the limit, and then by one, exactly when a marker ends one past it,
    on a cluster boundary and outside the links.
    */
  lemma OneOverTheLimit(v: string, combining: char -> bool, spans: seq<Span>, limit: int,
                        cuts: seq<int>, parts: seq<string>, k: nat)
    requires limit >= 1 && k < |parts|
    requires SplitUpTo(v, combining, spans, limit, 1, cuts, parts, |v|)
    requires Chained(cuts, NextCuts(v, combining, spans, limit, 1))
    ensures |parts[k]| <= limit + 1
    ensures |parts[k]| > limit <==> MarkerOverTheLimit(v, combining, spans, limit, cuts[k])
  {
    var p, q := PartAt(v, combining, spans, limit, 1, cuts, parts, k);
    NextCutOverTheLimit(v, combining, spans, limit, p, q);
  }

  lemma PartAt(v: string, combining: char -> bool, spans: seq<Span>, limit: int, beyond: int,
               cuts: seq<int>, parts: seq<string>, k: nat) returns (p: int, q: int)
    requires k < |parts| && SplitUpTo(v, combining, spans, limit, beyond, cuts, parts, |v|)
    requires Chained(cuts, NextCuts(v, combining, spans, limit, beyond))
    ensures |cuts| == |parts| + 1 && p == cuts[k] && q == cuts[k + 1] && 0 <= p < q <= |v| && |parts[k]| == q - p
    ensures NextCuts(v, combining, spans, limit, beyond)(p, q)
  {
    p, q := cuts[k], cuts[k + 1];
    assert GoodCut(v, combining, spans, p) && GoodCut(v, combining, spans, q) && parts[k] == v[p..q];
  }

  // ---------- Links that are split ----------

  /** A marker far enough from the start decides the cut. */
  predicate MarkerWins(v: string, start: int, hardLimit: int, reach: int, spans: seq<Span>, boundaries: set<int>)
    requires 0 <= start && reach <= |v|
  {
    var best := Preferred(v, boundaries, spans, start, reach, |MARKERS|);
    best.Some? && best.value >= start + (hardLimit - start) / 3
  }

  predicate NoBoundary(boundaries: set<int>, from: int, end: int) { forall p :: from <= p <= end ==> p !in boundaries }

  /** The link has boundary `q` inside it after `start`, and there is none from its end to `end`. */
  predicate RunsOn(boundaries: set<int>, span: Span, start: int, end: int, q: int) {
    q in boundaries && start < q && span.0 < q < span.1 <= end && NoBoundary(boundaries, span.1, end)
  }

  /** Some link that ends by `end` runs on in one cluster to there. */
  predicate SomeRunsOn(boundaries: set<int>, spans: seq<Span>, start: int, end: int) {
    exists j, q | 0 <= j < |spans| && q in boundaries :: RunsOn(boundaries, spans[j], start, end, q)
  }

  lemma LastInLink(boundaries: set<int>, spans: seq<Span>, start: int, n: nat, length: int)
    requires Disjoint(spans, length) && n < |spans|
    ensures var before := LastIn(boundaries, start, spans[n].0);
            (before.Some? && Inside(before.value, spans)) <==> SomeRunsOn(boundaries, spans, start, spans[n].0)
  {
    var end := spans[n].0;
    var before := LastIn(boundaries, start, end);
    if before.Some? && Inside(before.value, spans) {
      var p := before.value;
      var j :| 0 <= j < |spans| && spans[j].0 < p < spans[j].1;
      assert j < n && spans[j].1 <= end;
      forall q | spans[j].1 <= q <= end ensures q !in boundaries {
        if q in boundaries {
          LastInIsLast(boundaries, start, end, q);
          assert false;
        }
      }
      assert RunsOn(boundaries, spans[j], start, end, p);
    }
    if SomeRunsOn(boundaries, spans, start, end) {
      var j, q :| 0 <= j < |spans| && q in boundaries && RunsOn(boundaries, spans[j], start, end, q);
      LastInIsLast(boundaries, start, end, q);
      assert spans[j].0 < before.value < spans[j].1;
    }
  }

  /**
    No marker decides, and a link runs on in one cluster to the start of the covering link, or there is no such
    link to stop at and no boundary outside the links in reach.
    */
  predicate MustSplitLink(v: string, start: int, hardLimit: int, reach: int, spans: seq<Span>, boundaries: set<int>)
    requires 0 <= start < hardLimit && reach <= |v|
  {
    && !MarkerWins(v, start, hardLimit, reach, spans, boundaries)
    && var link := Containing(spans, hardLimit);
       if link.Some? && link.value.0 > start then
         SomeRunsOn(boundaries, spans, start, link.value.0)
       else
         forall p :: start < p <= hardLimit && p in boundaries ==> Inside(p, spans)
  }

  lemma CutSplitsLinkExactly(v: string, start: int, h: int, reach: int, spans: seq<Span>, boundaries: set<int>, q: int)
    requires 0 <= start < h < |v| && h <= reach <= |v| && |v| in boundaries
    requires Disjoint(spans, |v|) && Cut(v, start, h, reach, spans, boundaries) == Ok(q)
    ensures Inside(q, spans) <==> MustSplitLink(v, start, h, reach, spans, boundaries)
  {
    var link := Containing(spans, h);
    if link.Some? {
      var n :| 0 <= n < |spans| && spans[n] == link.value;
      LastInLink(boundaries, spans, start, n, |v|);
    }
    var free := LastOutside(boundaries, spans, start, h);
    var first := FirstAfter(boundaries, start, |v|);
    forall p | start < p <= h && p in boundaries && free.None? ensures Inside(p, spans) {
      if !Inside(p, spans) {
        LastOutsideIsLast(boundaries, spans, start, h, p);
        assert false;
      }
    }
  }

  /** What has to happen after `p` for the next cut to split a link. */
  ghost function SplitsLink(v: string, combining: char -> bool, spans: seq<Span>, limit: int, beyond: int)
    : int -> bool
  {
    p =>
      && limit >= 1 && 0 <= beyond <= 1 && 0 <= p && p + limit < |v|
      && MustSplitLink(v, p, p + limit, p + limit + beyond, spans, BoundariesOf(v, combining))
  }

  lemma InnerCutSplitsLink(v: string, combining: char -> bool, spans: seq<Span>, limit: int, beyond: int,
                           p: int, q: int)
    requires limit >= 1 && 0 <= beyond <= 1 && 0 <= p && p + limit < |v| && Disjoint(spans, |v|)
    requires NextCut(v, combining, spans, limit, beyond, p, q)
    ensures Inside(q, spans)
            <==> MustSplitLink(v, p, p + limit, p + limit + beyond, spans, BoundariesOf(v, combining))
  {
    CutSplitsLinkExactly(v, p, p + limit, p + limit + beyond, spans, BoundariesOf(v, combining), q);
  }

  lemma NextCutSplitsLink(v: string, combining: char -> bool, spans: seq<Span>, limit: int, beyond: int, p: int, q: int)
    requires limit >= 1 && 0 <= beyond <= 1 && 0 <= p && Disjoint(spans, |v|)
    requires NextCuts(v, combining, spans, limit, beyond)(p, q)
    ensures Inside(q, spans) <==> SplitsLink(v, combining, spans, limit, beyond)(p)
  {
    if p + limit < |v| {
      InnerCutSplitsLink(v, combining, spans, limit, beyond, p, q);
    } else {
      assert q == |v| && !Inside(|v|, spans);
    }
  }

  /** A cut of a split text splits a link exactly in that case. */
  lemma LinksSplitExactly(v: string, combining: char -> bool, spans: seq<Span>, limit: int, beyond: int,
                          cuts: seq<int>, parts: seq<string>, k: nat)
    requires limit >= 1 && 0 <= beyond <= 1 && k < |parts| && Disjoint(spans, |v|)
    requires SplitUpTo(v, combining, spans, limit, beyond, cuts, parts, |v|)
    requires Chained(cuts, NextCuts(v, combining, spans, limit, beyond))
    ensures |cuts| == |parts| + 1
    ensures Inside(cuts[k + 1], spans) <==> SplitsLink(v, combining, spans, limit, beyond)(cuts[k])
  {
    var p, q := PartAt(v, combining, spans, limit, beyond, cuts, parts, k);
    NextCutSplitsLink(v, combining, spans, limit, beyond, p, q);
  }
}
