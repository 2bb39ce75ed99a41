/**
  Cutting a range [lo, hi) into pieces, taking the longest fitting piece each time.

  The table paginator, the grapheme chunker and the UTF-8 chunker all follow this scheme.
  `fits(i, j)` says that [i, j) may be one piece; `cut(j)` says that j is a place where a cut
  is allowed at all.
  */
module Greedy {

  /** `cuts` climbs strictly from `lo` to its last element, through allowed cuts only. */
  ghost predicate Ladder(cuts: seq<int>, lo: int, hi: int, cut: int -> bool)
  {
    && |cuts| > 0
    && cuts[0] == lo
    && (forall i :: 0 <= i < |cuts| ==> lo <= cuts[i] <= hi && cut(cuts[i]))
    && (forall i, j :: 0 <= i < j < |cuts| ==> cuts[i] < cuts[j])
  }

  /** Every piece between neighbouring cuts fits. */
  ghost predicate Fitting(cuts: seq<int>, fits: (int, int) -> bool)
  {
    forall i :: 0 <= i < |cuts| - 1 ==> fits(cuts[i], cuts[i + 1])
  }

  /** A complete cutting of [lo, hi) into fitting pieces; it has |cuts| - 1 pieces. */
  ghost predicate Partition(cuts: seq<int>, lo: int, hi: int, cut: int -> bool, fits: (int, int) -> bool)
  {
    Ladder(cuts, lo, hi, cut) && cuts[|cuts| - 1] == hi && Fitting(cuts, fits)
  }

  /** No piece could have been longer. */
  ghost predicate Longest(cuts: seq<int>, hi: int, cut: int -> bool, fits: (int, int) -> bool)
  {
    forall i, j :: 0 <= i < |cuts| - 1 && cuts[i + 1] < j <= hi && cut(j) ==> !fits(cuts[i], j)
  }

  /** A greedy cutting on its way: it has come as far as `at`. */
  ghost predicate Greedily(cuts: seq<int>, lo: int, hi: int, cut: int -> bool, fits: (int, int) -> bool, at: int)
  {
    && Ladder(cuts, lo, hi, cut)
    && cuts[|cuts| - 1] == at
    && Fitting(cuts, fits)
    && Longest(cuts, hi, cut, fits)
  }

  /** One more longest piece. */
  lemma Extend(cuts: seq<int>, lo: int, hi: int, cut: int -> bool, fits: (int, int) -> bool, at: int, next: int)
    requires Greedily(cuts, lo, hi, cut, fits, at)
    requires at < next <= hi && cut(next) && fits(at, next)
    requires forall j :: next < j <= hi && cut(j) ==> !fits(at, j)
    ensures Greedily(cuts + [next], lo, hi, cut, fits, next)
  {
    var after := cuts + [next];
    assert forall i :: 0 <= i < |cuts| ==> after[i] == cuts[i];
    forall i | 0 <= i < |after| - 1
      ensures fits(after[i], after[i + 1])
    {
      if i < |cuts| - 1 {
        assert fits(cuts[i], cuts[i + 1]);
      }
    }
    StillLongest(cuts, hi, cut, fits, next);
  }

  lemma StillLongest(cuts: seq<int>, hi: int, cut: int -> bool, fits: (int, int) -> bool, next: int)
    requires |cuts| > 0 && Longest(cuts, hi, cut, fits)
    requires forall j :: next < j <= hi && cut(j) ==> !fits(cuts[|cuts| - 1], j)
    ensures Longest(cuts + [next], hi, cut, fits)
  {
    var after := cuts + [next];
    forall i, j | 0 <= i < |after| - 1 && after[i + 1] < j <= hi && cut(j)
      ensures !fits(after[i], j)
    {
      assert after[i] == cuts[i] && (i < |cuts| - 1 ==> after[i + 1] == cuts[i + 1]);
    }
  }

  /** A part of a fitting piece fits. */
  ghost predicate Hereditary(lo: int, hi: int, cut: int -> bool, fits: (int, int) -> bool)
  {
    forall i, j, i', j' | lo <= i <= i' < j' <= j <= hi && cut(i') && cut(j') && fits(i, j) :: fits(i', j')
  }

  /** After the same number of pieces the greedy cutting has come at least as far. */
  lemma {:induction false} StaysAhead(greedy: seq<int>, other: seq<int>, lo: int, hi: int,
                                      cut: int -> bool, fits: (int, int) -> bool, k: nat)
    requires Hereditary(lo, hi, cut, fits)
    requires Ladder(greedy, lo, hi, cut) && Fitting(greedy, fits) && Longest(greedy, hi, cut, fits)
    requires Ladder(other, lo, hi, cut) && Fitting(other, fits)
    requires k < |greedy| && k < |other|
    ensures other[k] <= greedy[k]
  {
    if k == 0 {
    } else {
      StaysAhead(greedy, other, lo, hi, cut, fits, k - 1);
      var from, to := greedy[k - 1], other[k];
      if from < to {
        assert fits(other[k - 1], other[k - 1 + 1]);
        assert fits(from, to);
        assert greedy[k - 1 + 1] < to ==> !fits(from, to);
      }
    }
  }

  /** The greedy cutting has the fewest pieces of all complete fitting cuttings. */
  lemma FewestPieces(greedy: seq<int>, other: seq<int>, lo: int, hi: int,
                     cut: int -> bool, fits: (int, int) -> bool)
    requires Hereditary(lo, hi, cut, fits)
    requires Partition(greedy, lo, hi, cut, fits) && Longest(greedy, hi, cut, fits)
    requires Partition(other, lo, hi, cut, fits)
    ensures |greedy| <= |other|
  {
    if |other| <= |greedy| {
      StaysAhead(greedy, other, lo, hi, cut, fits, |other| - 1);
      assert greedy[|other| - 1] == hi;
      assert forall i :: 0 <= i < |greedy| - 1 ==> greedy[i] < greedy[|greedy| - 1];
    }
  }

  /** The piece of a cutting that spans a given place. */
  lemma {:induction false} PieceAround(cuts: seq<int>, lo: int, hi: int, cut: int -> bool, at: int)
    returns (i: nat)
    requires Ladder(cuts, lo, hi, cut) && lo <= at < cuts[|cuts| - 1]
    ensures i < |cuts| - 1 && cuts[i] <= at < cuts[i + 1]
  {
    i := 0;
    while cuts[i + 1] <= at
      invariant i < |cuts| - 1 && cuts[i] <= at
      decreases |cuts| - i
    {
      i := i + 1;
    }
  }

  /** Where a complete cutting exists, some piece can start at every allowed place. */
  lemma PieceCanStart(at: int, cuts: seq<int>, lo: int, hi: int, cut: int -> bool, fits: (int, int) -> bool)
    returns (j: int)
    requires Hereditary(lo, hi, cut, fits)
    requires lo <= at < hi && cut(at)
    requires Partition(cuts, lo, hi, cut, fits)
    ensures at < j <= hi && cut(j) && fits(at, j)
  {
    var i := PieceAround(cuts, lo, hi, cut, at);
    assert fits(cuts[i], cuts[i + 1]);
    j := cuts[i + 1];
  }
}
