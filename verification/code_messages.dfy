/** Code blocks as Discord messages: a fence longer than any run of backticks, around whole-cluster chunks. */
module CodeMessages {
  import opened Graphemes
  import opened Greedy
  import opened Results
  import opened Texts

  const BACKTICK := '`'

  /** Length of the run of backticks that ends just before `end`. */
  function RunBefore(v: string, end: nat): nat
    requires end <= |v|
  {
    if end > 0 && v[end - 1] == BACKTICK then 1 + RunBefore(v, end - 1) else 0
  }

  /** Length of the longest run of backticks in the first `end` characters. */
  function LongestRun(v: string, end: nat): nat
    requires end <= |v|
  {
    if end == 0 then 0
    else if RunBefore(v, end) > LongestRun(v, end - 1) then RunBefore(v, end)
    else LongestRun(v, end - 1)
  }

  function Backticks(n: nat): string { seq(n, _ => BACKTICK) }

  /** `part` occurs somewhere in `v`. */
  ghost predicate Contains(v: string, part: string) {
    exists i :: OccursAt(v, part, i)
  }

  lemma {:induction false} RunReaches(v: string, i: nat, n: nat)
    requires i + n <= |v| && v[i..i + n] == Backticks(n)
    ensures RunBefore(v, i + n) >= n
  {
    if n > 0 {
      assert v[i..i + n][n - 1] == BACKTICK;
      assert v[i..i + (n - 1)] == v[i..i + n][..n - 1] == Backticks(n - 1);
      RunReaches(v, i, n - 1);
    }
  }

  lemma {:induction false} LongestIsLongest(v: string, end: nat, upTo: nat)
    requires end <= upTo <= |v|
    ensures RunBefore(v, end) <= LongestRun(v, upTo)
  {
    if end < upTo {
      LongestIsLongest(v, end, upTo - 1);
    }
  }

  /** No stretch of the text is a longer sequence of backticks than its longest run. */
  lemma NoLongerRun(v: string, n: nat)
    requires n > LongestRun(v, |v|)
    ensures !Contains(v, Backticks(n))
  {
    if Contains(v, Backticks(n)) {
      var i :| OccursAt(v, Backticks(n), i);
      RunReaches(v, i, n);
      LongestIsLongest(v, i + n, |v|);
      assert false;
    }
  }

  lemma {:induction false} RunIsThere(v: string, end: nat, n: nat)
    requires end <= |v| && n <= RunBefore(v, end)
    ensures n <= end && v[end - n..end] == Backticks(n)
  {
    if n > 0 {
      RunIsThere(v, end - 1, n - 1);
      assert v[end - n..end] == v[end - n..end - 1] + [v[end - 1]];
      assert Backticks(n) == Backticks(n - 1) + [BACKTICK];
    }
  }

  lemma {:induction false} LongestIsReached(v: string, upTo: nat, n: nat)
    requires upTo <= |v| && n <= LongestRun(v, upTo)
    ensures Contains(v, Backticks(n))
  {
    if n <= RunBefore(v, upTo) {
      RunIsThere(v, upTo, n);
      assert OccursAt(v, Backticks(n), upTo - n);
    } else {
      LongestIsReached(v, upTo - 1, n);
    }
  }

  /** The fence is the shortest row of three or more backticks that the code does not contain. */
  lemma FenceIsShortest(v: string)
    ensures var n := |Fence(v)|;
            && n >= 3 && Fence(v) == Backticks(n) && !Contains(v, Fence(v))
            && forall shorter: nat :: 3 <= shorter < n ==> Contains(v, Backticks(shorter))
  {
    NoLongerRun(v, |Fence(v)|);
    forall shorter: nat | 3 <= shorter < |Fence(v)| ensures Contains(v, Backticks(shorter)) {
      LongestIsReached(v, |v|, shorter);
    }
  }

  lemma SliceOfSlice(v: string, from: nat, to: nat, i: nat, n: nat)
    requires from <= to <= |v| && i + n <= to - from
    ensures v[from..to][i..i + n] == v[from + i..from + i + n]
  {
    var a, b := v[from..to][i..i + n], v[from + i..from + i + n];
    assert forall k :: 0 <= k < n ==> a[k] == v[from + i + k] == b[k];
  }

  lemma PartsContainLess(v: string, from: nat, to: nat, part: string)
    requires from <= to <= |v| && !Contains(v, part)
    ensures !Contains(v[from..to], part)
  {
    forall i | 0 <= i <= to - from - |part|
      ensures !OccursAt(v[from..to], part, i)
    {
      assert !OccursAt(v, part, from + i);
      SliceOfSlice(v, from, to, i, |part|);
    }
  }

  function Fence(v: string): string {
    var longest := LongestRun(v, |v|);
    Backticks(if longest + 1 > 3 then longest + 1 else 3)
  }

  /** What a message of at most `limit` characters leaves for its chunk. */
  function ContentLimit(v: string, language: string, limit: int): int {
    limit - 2 * |Fence(v)| - |language| - 2
  }

  datatype CodeError = LimitTooSmall | GraphemeTooLong

  /**
    Every message fits, carries one chunk between an opening and a closing fence, and its chunk has no
    fence of its own; the chunks together are the code, in order.
    */
  method SplitDiscordCode(v: string, combining: char -> bool, language: string, limit: int)
    returns (r: Result<seq<string>, CodeError>, ghost chunks: seq<string>, ghost cuts: seq<int>)
    ensures r.Err? && r.error == LimitTooSmall <==> ContentLimit(v, language, limit) < 1
    ensures r.Err? && r.error == GraphemeTooLong ==>
              exists p :: Oversized(v, combining, ContentLimit(v, language, limit), p)
    ensures r.Ok? ==>
              && |r.value| == |chunks| > 0
              && Concat(chunks) == v
              && (forall k :: 0 <= k < |chunks| ==>
                    && |r.value[k]| <= limit
                    && r.value[k] == Fence(v) + language + "\n" + chunks[k] + "\n" + Fence(v)
                    && !Contains(chunks[k], Fence(v)))
    ensures r.Ok? && v != [] ==>
              && Greedily(cuts, 0, |v|, AtBoundary(v, combining),
                          ShortEnough(ContentLimit(v, language, limit)), |v|)
              && Slices(v, cuts, chunks)
  {
    var fence := Fence(v);
    var prefix, suffix := fence + language + "\n", "\n" + fence;
    var contentLimit := limit - |prefix| - |suffix|;
    chunks, cuts := [], [0];
    if contentLimit < 1 {
      return Err(LimitTooSmall), chunks, cuts;
    }
    var split, at := SplitGraphemeChunks(v, combining, contentLimit);
    if split.Err? {
      return Err(GraphemeTooLong), chunks, cuts;
    }
    cuts := at;
    var parts := if |split.value| == 0 then [""] else split.value;
    chunks := parts;
    NoLongerRun(v, |fence|);
    ChunksRestore(v, cuts, split.value, fence);
    r := Ok(seq(|parts|, k requires 0 <= k < |parts| => prefix + parts[k] + suffix));
    assert forall k :: 0 <= k < |parts| ==> r.value[k] == fence + language + "\n" + parts[k] + "\n" + fence;
    assert |split.value| == 0 ==> v == [] && Concat([""]) == "";
    forall k | 0 <= k < |parts|
      ensures |r.value[k]| <= limit
    {
      assert |split.value| > 0 ==> ShortEnough(contentLimit)(cuts[k], cuts[k + 1]);
    }
  }

  lemma ChunksRestore(v: string, cuts: seq<int>, chunks: seq<string>, fence: string)
    requires |cuts| > 0 && cuts[0] == 0 && cuts[|cuts| - 1] == |v|
    requires forall i :: 0 <= i < |cuts| ==> 0 <= cuts[i] <= |v|
    requires forall i, j :: 0 <= i < j < |cuts| ==> cuts[i] < cuts[j]
    requires Slices(v, cuts, chunks)
    requires !Contains(v, fence) && |fence| > 0
    ensures Concat(chunks) == v
    ensures forall k :: 0 <= k < |chunks| ==> !Contains(chunks[k], fence)
    ensures !Contains("", fence)
  {
    SlicesConcat(v, cuts, chunks);
    forall k | 0 <= k < |chunks|
      ensures !Contains(chunks[k], fence)
    {
      PartsContainLess(v, cuts[k], cuts[k + 1], fence);
    }
  }

  /** A reader who strips a message of the prefix and the suffix of known length gets its chunk back. */
  function Strip(message: string, prefix: nat, suffix: nat): string
    requires prefix + suffix <= |message|
  {
    message[prefix..|message| - suffix]
  }

  lemma StripRestores(fence: string, language: string, chunk: string)
    ensures var message := fence + language + "\n" + chunk + "\n" + fence;
            Strip(message, |fence| + |language| + 1, |fence| + 1) == chunk
  {
    var prefix, suffix := fence + language + "\n", "\n" + fence;
    assert fence + language + "\n" + chunk + "\n" + fence == prefix + chunk + suffix;
  }
}
