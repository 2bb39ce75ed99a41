/** Texts as sequences: occurrences of a part, and cutting and rejoining. */
module Texts {
  predicate OccursAt(v: string, part: string, i: int) {
    0 <= i <= |v| - |part| && v[i..i + |part|] == part
  }

  /** The parts one after the other. */
  function Concat<T>(parts: seq<seq<T>>): seq<T> {
    if |parts| == 0 then [] else Concat(parts[..|parts| - 1]) + parts[|parts| - 1]
  }

  /** The parts are the slices of `v` between neighbouring cuts. */
  ghost predicate Slices<T>(v: seq<T>, cuts: seq<int>, parts: seq<seq<T>>)
    requires forall i :: 0 <= i < |cuts| ==> 0 <= cuts[i] <= |v|
    requires forall i, j :: 0 <= i < j < |cuts| ==> cuts[i] < cuts[j]
  {
    |parts| + 1 == |cuts| && forall i :: 0 <= i < |parts| ==> parts[i] == v[cuts[i]..cuts[i + 1]]
  }

  lemma {:induction false} SlicesConcat(v: string, cuts: seq<int>, parts: seq<string>)
    requires |cuts| > 0 && cuts[0] == 0
    requires forall i :: 0 <= i < |cuts| ==> 0 <= cuts[i] <= |v|
    requires forall i, j :: 0 <= i < j < |cuts| ==> cuts[i] < cuts[j]
    requires Slices(v, cuts, parts)
    ensures Concat(parts) == v[..cuts[|parts|]]
  {
    if |parts| > 0 {
      var n := |parts| - 1;
      SlicesConcat(v, cuts[..n + 1], parts[..n]);
      assert v[..cuts[n]] + v[cuts[n]..cuts[n + 1]] == v[..cuts[n + 1]];
    }
  }

  // ---------- Splitting at a separator ----------

  function IndexOf(s: string, c: char): (i: nat)
    ensures i <= |s| && c !in s[..i] && (i < |s| ==> s[i] == c)
  {
    if |s| == 0 || s[0] == c then 0 else 1 + IndexOf(s[1..], c)
  }

  function Split(c: char, s: string): (parts: seq<string>)
    ensures |parts| > 0
    decreases |s|
  {
    var i := IndexOf(s, c);
    if i == |s| then [s] else [s[..i]] + Split(c, s[i + 1..])
  }

  function Join(c: char, parts: seq<string>): string
    requires |parts| > 0
  {
    if |parts| == 1 then parts[0] else parts[0] + [c] + Join(c, parts[1..])
  }

  lemma JoinFirst(c: char, first: string, rest: seq<string>)
    requires |rest| > 0
    ensures Join(c, [first] + rest) == first + [c] + Join(c, rest)
  {
    assert ([first] + rest)[1..] == rest;
  }

  /** Splitting loses nothing, and no part contains the separator. */
  lemma {:induction false} SplitJoins(c: char, s: string)
    ensures Join(c, Split(c, s)) == s
    ensures forall k :: 0 <= k < |Split(c, s)| ==> c !in Split(c, s)[k]
    decreases |s|
  {
    var i := IndexOf(s, c);
    if i < |s| {
      var rest := Split(c, s[i + 1..]);
      SplitJoins(c, s[i + 1..]);
      assert Split(c, s) == [s[..i]] + rest;
      JoinFirst(c, s[..i], rest);
      assert s == s[..i] + [c] + s[i + 1..];
      forall k | 0 <= k < |Split(c, s)| ensures c !in Split(c, s)[k] {
        assert k > 0 ==> Split(c, s)[k] == rest[k - 1];
      }
    }
  }

  lemma {:induction false} IndexOfNone(s: string, c: char)
    requires c !in s
    ensures IndexOf(s, c) == |s|
  {
    if |s| > 0 {
      IndexOfNone(s[1..], c);
    }
  }

  lemma {:induction false} IndexBetween(before: string, c: char, after: string)
    requires c !in before
    ensures IndexOf(before + [c] + after, c) == |before|
  {
    var s := before + [c] + after;
    if |before| > 0 {
      assert s[1..] == before[1..] + [c] + after;
      IndexBetween(before[1..], c, after);
    }
  }

  /** Joining parts without the separator and splitting again gives the parts. */
  lemma {:induction false} JoinSplits(c: char, parts: seq<string>)
    requires |parts| > 0 && forall k :: 0 <= k < |parts| ==> c !in parts[k]
    ensures Split(c, Join(c, parts)) == parts
  {
    if |parts| == 1 {
      IndexOfNone(parts[0], c);
    } else {
      JoinSplits(c, parts[1..]);
      SplitFirst(c, parts[0], Join(c, parts[1..]));
      assert parts == [parts[0]] + parts[1..];
    }
  }

  lemma SplitFirst(c: char, first: string, rest: string)
    requires c !in first
    ensures Split(c, first + [c] + rest) == [first] + Split(c, rest)
  {
    var s := first + [c] + rest;
    IndexBetween(first, c, rest);
    assert s[..|first|] == first && s[|first| + 1..] == rest;
  }

  lemma {:induction false} PartCharacters(c: char, s: string, other: char, k: nat)
    requires k < |Split(c, s)| && other !in s
    ensures other !in Split(c, s)[k]
    decreases |s|
  {
    var i := IndexOf(s, c);
    if i < |s| && k > 0 {
      PartCharacters(c, s[i + 1..], other, k - 1);
    }
  }
}
