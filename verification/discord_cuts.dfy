/**
  Where a long reply is cut, said of the text alone: over cluster boundaries, links and occurrences of the
  markers, and without the search that finds the cut.
  */
module DiscordCuts {
  import opened DiscordText
  import opened Graphemes
  import opened Results
  import opened Texts

  /** One call for a cut: after `start`, with markers looked for up to `reach` and all else up to `hardLimit`. */
  datatype Place = Place(v: string, spans: seq<Span>, start: int, hardLimit: int, reach: int)

  ghost predicate Free(at: Place, boundary: int -> bool, p: int) { boundary(p) && !Inside(p, at.spans) }

  // ---------- Markers ----------

  /** The last occurrence of `marker` between start and reach ends at `end`. */
  ghost predicate EndsLast(at: Place, marker: string, end: int) {
    && EndsWith(at.v, at.start, end, marker) && end <= at.reach
    && forall p :: end < p <= at.reach ==> !EndsWith(at.v, at.start, p, marker)
  }

  /** One may cut after the last occurrence of one of the first `n` markers, and that is at `p`. */
  ghost predicate AfterSome(at: Place, boundary: int -> bool, n: nat, p: int)
    requires n <= |MARKERS|
  {
    Free(at, boundary, p) && exists k :: 0 <= k < n && EndsLast(at, MARKERS[k], p)
  }

  /** The furthest such place. */
  ghost predicate FurthestMarker(at: Place, boundary: int -> bool, n: nat, p: int)
    requires n <= |MARKERS|
  {
    AfterSome(at, boundary, n, p) && forall c :: AfterSome(at, boundary, n, c) ==> c <= p
  }

  /** Some such place lies in the last two thirds. */
  ghost predicate MarkerDecides(at: Place, boundary: int -> bool) {
    exists c :: AfterSome(at, boundary, |MARKERS|, c) && c >= at.start + (at.hardLimit - at.start) / 3
  }

  // ---------- Links and boundaries ----------

  /** The link begins after the start and would be cut in two at the hard limit. */
  predicate CoversLimit(at: Place, span: Span) { at.start < span.0 < at.hardLimit < span.1 }

  ghost predicate LinkDecides(at: Place) { exists k :: 0 <= k < |at.spans| && CoversLimit(at, at.spans[k]) }

  /** The last boundary after the start and up to `end`. */
  ghost predicate LastBoundary(at: Place, boundary: int -> bool, end: int, p: int) {
    at.start < p <= end && boundary(p) && forall c :: p < c <= end ==> !boundary(c)
  }

  /** The last boundary outside the links after the start and up to the hard limit. */
  ghost predicate LastFree(at: Place, boundary: int -> bool, p: int) {
    at.start < p <= at.hardLimit && Free(at, boundary, p)
    && forall c :: p < c <= at.hardLimit ==> !Free(at, boundary, c)
  }

  /** There is no such boundary, and `p` is the first one after the start. */
  ghost predicate OnlyInLinks(at: Place, boundary: int -> bool, p: int) {
    && (forall c :: at.start < c <= at.hardLimit ==> !Free(at, boundary, c))
    && at.start < p <= at.hardLimit && boundary(p) && (forall c :: at.start < c < p ==> !boundary(c))
  }

  // ---------- The cut ----------

  /**
    A place after a marker in the last two thirds decides first, the furthest one winning. Otherwise a link
    over the hard limit does, and the cut is the last boundary up to its start. Otherwise the cut is the
    last boundary outside the links within the limit, or, with none, the first boundary.
    */
  ghost predicate CutsAt(at: Place, boundary: int -> bool, p: int) {
    if MarkerDecides(at, boundary) then FurthestMarker(at, boundary, |MARKERS|, p)
    else if LinkDecides(at) then
      exists k :: 0 <= k < |at.spans| && CoversLimit(at, at.spans[k]) && LastBoundary(at, boundary, at.spans[k].0, p)
    else LastFree(at, boundary, p) || OnlyInLinks(at, boundary, p)
  }

  ghost function MeantAt(at: Place, boundary: int -> bool): int -> bool { p => CutsAt(at, boundary, p) }

  ghost predicate Sound(at: Place) { 0 <= at.start < at.hardLimit < |at.v| && at.hardLimit <= at.reach <= |at.v| }

  ghost predicate Same(at: Place, boundaries: set<int>, boundary: int -> bool) {
    |at.v| in boundaries && forall p :: p in boundaries <==> boundary(p)
  }

  lemma MarkerPlace(at: Place, boundaries: set<int>, boundary: int -> bool, marker: string, p: int)
    requires Sound(at) && Same(at, boundaries, boundary)
    ensures AfterMarker(at.v, boundaries, at.spans, at.start, at.reach, marker) == Some(p)
            <==> Free(at, boundary, p) && EndsLast(at, marker, p)
  {
    var found := RFind(at.v, marker, at.start, at.reach);
    forall q | q <= at.reach && EndsWith(at.v, at.start, q, marker)
      ensures found.Some? && q <= found.value + |marker|
    {
      RFindIsLast(at.v, marker, at.start, at.reach, q - |marker|);
    }
    if found.Some? {
      assert EndsWith(at.v, at.start, found.value + |marker|, marker);
    }
  }

  /** The search over the markers gives the furthest place, or none when there is none. */
  lemma {:induction false} PreferredIsFurthest(at: Place, boundaries: set<int>, boundary: int -> bool, n: nat)
    requires Sound(at) && Same(at, boundaries, boundary) && n <= |MARKERS|
    ensures IsFurthest(at, boundary, n, Preferred(at.v, boundaries, at.spans, at.start, at.reach, n))
  {
    if n > 0 {
      PreferredIsFurthest(at, boundaries, boundary, n - 1);
      var before := Preferred(at.v, boundaries, at.spans, at.start, at.reach, n - 1);
      var here := AfterMarker(at.v, boundaries, at.spans, at.start, at.reach, MARKERS[n - 1]);
      OneMoreMarker(at, boundaries, boundary, n, here);
      FurthestOfTwo(at, boundary, n, before, here, Preferred(at.v, boundaries, at.spans, at.start, at.reach, n));
    }
  }

  /** One more marker adds at most its own place. */
  lemma OneMoreMarker(at: Place, boundaries: set<int>, boundary: int -> bool, n: nat, here: Option<int>)
    requires Sound(at) && Same(at, boundaries, boundary) && 0 < n <= |MARKERS|
    requires here == AfterMarker(at.v, boundaries, at.spans, at.start, at.reach, MARKERS[n - 1])
    ensures forall c :: AfterSome(at, boundary, n, c) <==> AfterSome(at, boundary, n - 1, c) || here == Some(c)
  {
    forall c ensures AfterSome(at, boundary, n, c) <==> AfterSome(at, boundary, n - 1, c) || here == Some(c) {
      MarkerPlace(at, boundaries, boundary, MARKERS[n - 1], c);
    }
  }

  ghost predicate IsFurthest(at: Place, boundary: int -> bool, n: nat, best: Option<int>)
    requires n <= |MARKERS|
  {
    if best.Some? then FurthestMarker(at, boundary, n, best.value) else forall c :: !AfterSome(at, boundary, n, c)
  }

  lemma FurthestOfTwo(at: Place, boundary: int -> bool, n: nat, before: Option<int>, here: Option<int>,
                      best: Option<int>)
    requires 0 < n <= |MARKERS| && IsFurthest(at, boundary, n - 1, before)
    requires forall c :: AfterSome(at, boundary, n, c) <==> AfterSome(at, boundary, n - 1, c) || here == Some(c)
    requires best == if here.None? || (before.Some? && before.value >= here.value) then before else here
    ensures IsFurthest(at, boundary, n, best)
  {
  }

  lemma OneCovers(at: Place, j: nat, k: nat)
    requires Disjoint(at.spans, |at.v|) && j < |at.spans| && k < |at.spans|
    requires at.spans[j].0 < at.hardLimit < at.spans[j].1 && at.spans[k].0 < at.hardLimit < at.spans[k].1
    ensures j == k
  {
  }

  lemma LinkFound(at: Place)
    requires Sound(at) && Disjoint(at.spans, |at.v|)
    ensures var link := Containing(at.spans, at.hardLimit);
            && (link.Some? && link.value.0 > at.start <==> LinkDecides(at))
            && (LinkDecides(at) ==> exists k :: 0 <= k < |at.spans| && at.spans[k] == link.value)
  {
    var link := Containing(at.spans, at.hardLimit);
    if LinkDecides(at) {
      var k :| 0 <= k < |at.spans| && CoversLimit(at, at.spans[k]);
      assert Inside(at.hardLimit, at.spans);
      var n :| 0 <= n < |at.spans| && at.spans[n] == link.value;
      OneCovers(at, n, k);
    }
  }

  lemma FreeCut(at: Place, boundaries: set<int>, boundary: int -> bool, p: int)
    requires Sound(at) && Same(at, boundaries, boundary)
    requires var free := LastOutside(boundaries, at.spans, at.start, at.hardLimit);
             p == if free.Some? then free.value else FirstAfter(boundaries, at.start, |at.v|)
    requires p <= at.hardLimit
    ensures LastFree(at, boundary, p) || OnlyInLinks(at, boundary, p)
  {
    var free := LastOutside(boundaries, at.spans, at.start, at.hardLimit);
    forall c | at.start < c <= at.hardLimit && Free(at, boundary, c) ensures free.Some? && c <= free.value {
      LastOutsideIsLast(boundaries, at.spans, at.start, at.hardLimit, c);
    }
    forall c | at.start < c && boundary(c) ensures FirstAfter(boundaries, at.start, |at.v|) <= c {
      FirstAfterIsFirst(boundaries, at.start, |at.v|, c);
    }
  }

  lemma LinkCut(at: Place, boundaries: set<int>, boundary: int -> bool, end: int, p: int)
    requires Same(at, boundaries, boundary) && LastIn(boundaries, at.start, end) == Some(p)
    ensures LastBoundary(at, boundary, end, p)
  {
    forall c | p < c <= end ensures !boundary(c) {
      if boundary(c) {
        LastInIsLast(boundaries, at.start, end, c);
      }
    }
  }

  /** The search finds the cut that is meant. */
  lemma CutIsMeant(at: Place, boundaries: set<int>, boundary: int -> bool, p: int)
    requires Sound(at) && Same(at, boundaries, boundary) && Disjoint(at.spans, |at.v|)
    requires Cut(at.v, at.start, at.hardLimit, at.reach, at.spans, boundaries) == Ok(p)
    ensures CutsAt(at, boundary, p)
  {
    PreferredIsFurthest(at, boundaries, boundary, |MARKERS|);
    var best := Preferred(at.v, boundaries, at.spans, at.start, at.reach, |MARKERS|);
    var link := Containing(at.spans, at.hardLimit);
    LinkFound(at);
    if best.Some? && best.value >= at.start + (at.hardLimit - at.start) / 3 {
      assert MarkerDecides(at, boundary);
    } else if LinkDecides(at) {
      LinkCut(at, boundaries, boundary, link.value.0, p);
    } else {
      FreeCut(at, boundaries, boundary, p);
    }
  }

  /** No two different cuts are meant for one place. */
  lemma MeantCutIsUnique(at: Place, boundary: int -> bool, p: int, q: int)
    requires Disjoint(at.spans, |at.v|) && CutsAt(at, boundary, p) && CutsAt(at, boundary, q)
    ensures p == q
  {
    if !MarkerDecides(at, boundary) && LinkDecides(at) {
      var j :| 0 <= j < |at.spans| && CoversLimit(at, at.spans[j]) && LastBoundary(at, boundary, at.spans[j].0, p);
      var k :| 0 <= k < |at.spans| && CoversLimit(at, at.spans[k]) && LastBoundary(at, boundary, at.spans[k].0, q);
      OneCovers(at, j, k);
    }
  }

  lemma LinkStartFound(at: Place, boundaries: set<int>, boundary: int -> bool, p: int)
    requires Same(at, boundaries, boundary) && Disjoint(at.spans, |at.v|)
    requires exists k ::
               0 <= k < |at.spans| && CoversLimit(at, at.spans[k]) && LastBoundary(at, boundary, at.spans[k].0, p)
    ensures var link := Containing(at.spans, at.hardLimit);
            link.Some? && link.value.0 > at.start && LastIn(boundaries, at.start, link.value.0).Some?
  {
    var k :| 0 <= k < |at.spans| && CoversLimit(at, at.spans[k]) && LastBoundary(at, boundary, at.spans[k].0, p);
    assert Inside(at.hardLimit, at.spans);
    var link := Containing(at.spans, at.hardLimit);
    var n :| 0 <= n < |at.spans| && at.spans[n] == link.value;
    OneCovers(at, n, k);
    LastInIsLast(boundaries, at.start, at.spans[k].0, p);
  }

  /** The search fails only where no cut is meant. */
  lemma FailureMeansNoCut(at: Place, boundaries: set<int>, boundary: int -> bool, p: int)
    requires Sound(at) && Same(at, boundaries, boundary) && Disjoint(at.spans, |at.v|)
    requires Cut(at.v, at.start, at.hardLimit, at.reach, at.spans, boundaries).Err?
    ensures !CutsAt(at, boundary, p)
  {
    PreferredIsFurthest(at, boundaries, boundary, |MARKERS|);
    var best := Preferred(at.v, boundaries, at.spans, at.start, at.reach, |MARKERS|);
    LinkFound(at);
    if CutsAt(at, boundary, p) {
      assert !MarkerDecides(at, boundary);
      if LinkDecides(at) {
        LinkStartFound(at, boundaries, boundary, p);
      } else if LastFree(at, boundary, p) {
        LastOutsideIsLast(boundaries, at.spans, at.start, at.hardLimit, p);
      } else {
        FirstAfterIsFirst(boundaries, at.start, |at.v|, p);
      }
      assert false;
    }
  }

  /** The search finds a place exactly when it is the one that is meant; otherwise none is. */
  lemma CutExactly(at: Place, boundaries: set<int>, boundary: int -> bool, p: int)
    requires Sound(at) && Same(at, boundaries, boundary) && Disjoint(at.spans, |at.v|)
    ensures Cut(at.v, at.start, at.hardLimit, at.reach, at.spans, boundaries) == Ok(p) <==> MeantAt(at, boundary)(p)
  {
    var r := Cut(at.v, at.start, at.hardLimit, at.reach, at.spans, boundaries);
    if r.Ok? {
      CutIsMeant(at, boundaries, boundary, r.value);
      if CutsAt(at, boundary, p) {
        MeantCutIsUnique(at, boundary, p, r.value);
      }
    } else {
      FailureMeansNoCut(at, boundaries, boundary, p);
    }
  }

  // ---------- All cuts of a text ----------

  /** The place of the cut after `p`. */
  function After(v: string, spans: seq<Span>, limit: int, beyond: int, p: int): Place {
    Place(v, spans, p, p + limit, p + limit + beyond)
  }

  /** What is meant for neighbouring cuts: while more than the limit is left, and then the end of the text. */
  ghost function MeantCuts(v: string, combining: char -> bool, spans: seq<Span>, limit: int, beyond: int)
    : (int, int) -> bool
  {
    (p, q) =>
      if 0 <= p && p + limit < |v| then MeantAt(After(v, spans, limit, beyond, p), AtBoundary(v, combining))(q)
      else p < |v| && q == |v|
  }

  lemma BoundariesAgree(at: Place, combining: char -> bool)
    ensures Same(at, BoundariesOf(at.v, combining), AtBoundary(at.v, combining))
  {
  }

  /** The place that the search finds. */
  ghost function FoundAt(at: Place, combining: char -> bool): int -> bool
    requires Sound(at)
  {
    BoundariesAgree(at, combining);
    p => Cut(at.v, at.start, at.hardLimit, at.reach, at.spans, BoundariesOf(at.v, combining)) == Ok(p)
  }

  lemma NextCutIsFound(v: string, combining: char -> bool, spans: seq<Span>, limit: int, beyond: int, p: int, q: int)
    requires limit >= 1 && 0 <= beyond <= 1 && 0 <= p && p + limit < |v|
    requires NextCuts(v, combining, spans, limit, beyond)(p, q)
    ensures FoundAt(After(v, spans, limit, beyond, p), combining)(q)
  {
  }

  lemma FoundIsMeant(at: Place, combining: char -> bool, q: int)
    requires Sound(at) && Disjoint(at.spans, |at.v|) && FoundAt(at, combining)(q)
    ensures MeantAt(at, AtBoundary(at.v, combining))(q)
  {
    BoundariesAgree(at, combining);
    CutExactly(at, BoundariesOf(at.v, combining), AtBoundary(at.v, combining), q);
  }

  lemma NextCutIsMeant(v: string, combining: char -> bool, spans: seq<Span>, limit: int, beyond: int, p: int, q: int)
    requires limit >= 1 && 0 <= beyond <= 1 && Disjoint(spans, |v|)
    requires NextCuts(v, combining, spans, limit, beyond)(p, q)
    ensures MeantCuts(v, combining, spans, limit, beyond)(p, q)
  {
    if 0 <= p && p + limit < |v| {
      NextCutIsFound(v, combining, spans, limit, beyond, p, q);
      FoundIsMeant(After(v, spans, limit, beyond, p), combining, q);
    }
  }

  /** Every cut of a split text is the one that is meant. */
  lemma CutsAreMeant(v: string, combining: char -> bool, spans: seq<Span>, limit: int, beyond: int, cuts: seq<int>)
    requires limit >= 1 && 0 <= beyond <= 1 && Disjoint(spans, |v|)
    requires Chained(cuts, NextCuts(v, combining, spans, limit, beyond))
    ensures Chained(cuts, MeantCuts(v, combining, spans, limit, beyond))
  {
    forall i | 0 <= i < |cuts| - 1 ensures MeantCuts(v, combining, spans, limit, beyond)(cuts[i], cuts[i + 1]) {
      NextCutIsMeant(v, combining, spans, limit, beyond, cuts[i], cuts[i + 1]);
    }
  }
}
