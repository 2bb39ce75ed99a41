/**
  The grapheme rule of the Discord renderer (a simplification of UAX #29) and the chunker built on it.
  `combining` is the character class that the Unicode database provides.
  */
module Graphemes {
  import opened Greedy
  import opened Results
  import opened Texts

  const ZERO_WIDTH_JOINER := '\U{200D}'

  predicate RegionalIndicator(c: char) { '\U{1F1E6}' <= c <= '\U{1F1FF}' }

  predicate VariationSelector(c: char) {
    '\U{FE00}' <= c <= '\U{FE0F}' || '\U{E0100}' <= c <= '\U{E01EF}'
  }

  predicate EmojiModifier(c: char) { '\U{1F3FB}' <= c <= '\U{1F3FF}' }

  /** The character at `p` always belongs to the cluster of the one before it. */
  predicate JoinsBefore(v: string, combining: char -> bool, p: int)
    requires 0 < p < |v|
  {
    || combining(v[p]) || VariationSelector(v[p]) || EmojiModifier(v[p])
    || v[p] == ZERO_WIDTH_JOINER || v[p - 1] == ZERO_WIDTH_JOINER
  }

  /**
    The boundary relation, position by position: the ends of the text, and every place that neither
    continues a cluster nor separates the two halves of a flag whose first half starts a cluster.
    */
  predicate Boundary(v: string, combining: char -> bool, p: int)
    requires 0 <= p <= |v|
    decreases p
  {
    || p == 0
    || p == |v|
    || (&& !JoinsBefore(v, combining, p)
        && !(RegionalIndicator(v[p - 1]) && RegionalIndicator(v[p]) && Boundary(v, combining, p - 1)))
  }

  /** The cluster scan finds exactly the boundaries. */
  method GraphemeBoundaries(v: string, combining: char -> bool) returns (boundaries: set<int>)
    ensures forall p :: p in boundaries <==> 0 <= p <= |v| && Boundary(v, combining, p)
  {
    boundaries := {0};
    var index := 0;
    while index < |v|
      invariant 0 <= index <= |v| && Boundary(v, combining, index)
      invariant forall p :: p in boundaries <==> 0 <= p <= index && Boundary(v, combining, p)
    {
      ghost var first := index;
      var paired := RegionalIndicator(v[index]) && index + 1 < |v| && RegionalIndicator(v[index + 1]);
      index := index + if paired then 2 else 1;
      while index < |v| && JoinsBefore(v, combining, index)
        invariant first < index <= |v|
        invariant paired ==> first + 1 < index
        invariant forall p :: first < p < index ==> !Boundary(v, combining, p)
        invariant index == first + 1 < |v| ==> !(RegionalIndicator(v[first]) && RegionalIndicator(v[index]))
      {
        index := index + 1;
      }
      boundaries := boundaries + {index};
    }
  }

  /** A row of regional indicators from a cluster start is cut after every second one: into whole flags. */
  lemma {:induction false} FlagsArePaired(v: string, combining: char -> bool, start: nat, n: nat)
    requires start + n < |v| && Boundary(v, combining, start)
    requires forall p :: start <= p <= start + n ==> RegionalIndicator(v[p]) && !combining(v[p])
    ensures Boundary(v, combining, start + n) <==> n % 2 == 0
  {
    if n > 0 {
      FlagsArePaired(v, combining, start, n - 1);
    }
  }

  /** The last boundary in (lo, hi]. */
  function LastIn(boundaries: set<int>, lo: int, hi: int): (r: Option<int>)
    ensures r.Some? ==> lo < r.value <= hi && r.value in boundaries
    decreases hi - lo
  {
    if hi <= lo then None
    else if hi in boundaries then Some(hi)
    else LastIn(boundaries, lo, hi - 1)
  }

  lemma {:induction false} LastInIsLast(boundaries: set<int>, lo: int, hi: int, p: int)
    requires lo < p <= hi && p in boundaries
    ensures LastIn(boundaries, lo, hi).Some? && p <= LastIn(boundaries, lo, hi).value
    decreases hi - lo
  {
    if p < hi && hi !in boundaries {
      LastInIsLast(boundaries, lo, hi - 1, p);
    }
  }

  // ---------- Chunks ----------

  ghost function AtBoundary(v: string, combining: char -> bool): int -> bool {
    p => 0 <= p <= |v| && Boundary(v, combining, p)
  }

  ghost function ShortEnough(limit: int): (int, int) -> bool { (i, j) => j - i <= limit }

  /** A cluster longer than the limit starts at `p`. */
  ghost predicate Oversized(v: string, combining: char -> bool, limit: int, p: int) {
    && 0 <= p < |v| && Boundary(v, combining, p)
    && forall q :: p < q <= |v| && q <= p + limit ==> !Boundary(v, combining, q)
  }

  datatype ChunkError = ClusterTooLong

  /** The longest chunks of whole clusters; it fails exactly when some cluster is longer than the limit. */
  method SplitGraphemeChunks(v: string, combining: char -> bool, limit: int)
    returns (r: Result<seq<string>, ChunkError>, ghost cuts: seq<int>)
    ensures r.Err? <==> exists p :: Oversized(v, combining, limit, p)
    ensures r.Ok? ==>
              && Greedily(cuts, 0, |v|, AtBoundary(v, combining), ShortEnough(limit), |v|)
              && Slices(v, cuts, r.value)
  {
    var boundaries := GraphemeBoundaries(v, combining);
    var chunks: seq<string> := [];
    var start := 0;
    cuts := [0];
    while start < |v|
      invariant 0 <= start <= |v|
      invariant Greedily(cuts, 0, |v|, AtBoundary(v, combining), ShortEnough(limit), start)
      invariant Slices(v, cuts, chunks)
    {
      var end := LastIn(boundaries, start, start + limit);
      forall q | start < q <= start + limit && q in boundaries ensures end.Some? && q <= end.value {
        LastInIsLast(boundaries, start, start + limit, q);
      }
      if end.None? {
        assert Oversized(v, combining, limit, start);
        return Err(ClusterTooLong), cuts;
      }
      Extend(cuts, 0, |v|, AtBoundary(v, combining), ShortEnough(limit), start, end.value);
      chunks := chunks + [v[start..end.value]];
      cuts := cuts + [end.value];
      start := end.value;
    }
    NoneOversized(v, combining, limit, cuts);
    r := Ok(chunks);
  }

  lemma NoneOversized(v: string, combining: char -> bool, limit: int, cuts: seq<int>)
    requires Greedily(cuts, 0, |v|, AtBoundary(v, combining), ShortEnough(limit), |v|)
    ensures forall p :: !Oversized(v, combining, limit, p)
  {
    ChunksAreHereditary(v, combining, limit);
    forall p | 0 <= p < |v| && Boundary(v, combining, p)
      ensures !Oversized(v, combining, limit, p)
    {
      var q := PieceCanStart(p, cuts, 0, |v|, AtBoundary(v, combining), ShortEnough(limit));
      assert p < q <= |v| && Boundary(v, combining, q);
    }
  }

  lemma ChunksAreHereditary(v: string, combining: char -> bool, limit: int)
    ensures Hereditary(0, |v|, AtBoundary(v, combining), ShortEnough(limit))
  {
  }

  /** No way to chunk whole clusters within the limit needs fewer chunks. */
  lemma ChunksAreFewest(v: string, combining: char -> bool, limit: int, cuts: seq<int>, other: seq<int>)
    requires Greedily(cuts, 0, |v|, AtBoundary(v, combining), ShortEnough(limit), |v|)
    requires Partition(other, 0, |v|, AtBoundary(v, combining), ShortEnough(limit))
    ensures |cuts| <= |other|
  {
    ChunksAreHereditary(v, combining, limit);
    FewestPieces(cuts, other, 0, |v|, AtBoundary(v, combining), ShortEnough(limit));
  }
}
