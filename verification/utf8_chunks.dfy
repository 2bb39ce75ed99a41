/** Attachments of limited size: the UTF-8 encoding (section 3 of RFC 3629) cut between characters. */
module Utf8Chunks {
  import opened Greedy
  import opened Results
  import opened Texts

  type byte = x: int | 0 <= x < 256

  /** One character, in one to four bytes. */
  function Encode(c: char): (bytes: seq<byte>)
    ensures 1 <= |bytes| <= 4
  {
    var n := c as int;
    if n < 0x80 then [n]
    else if n < 0x800 then [0xC0 + n / 64, 0x80 + n % 64]
    else if n < 0x10000 then [0xE0 + n / 4096, 0x80 + n / 64 % 64, 0x80 + n % 64]
    else [0xF0 + n / 262144, 0x80 + n / 4096 % 64, 0x80 + n / 64 % 64, 0x80 + n % 64]
  }

  function EncodeAll(v: string): seq<byte> {
    if |v| == 0 then [] else EncodeAll(v[..|v| - 1]) + Encode(v[|v| - 1])
  }

  // ---------- Reading the bytes back ----------

  predicate ContinuationByte(b: byte) { 0x80 <= b < 0xC0 }

  /** The number of bytes that the first byte of a character announces. */
  function Announced(b: byte): nat {
    if b < 0x80 then 1 else if b < 0xE0 then 2 else if b < 0xF0 then 3 else 4
  }

  lemma EncodedShape(c: char)
    ensures Announced(Encode(c)[0]) == |Encode(c)| && !ContinuationByte(Encode(c)[0])
    ensures forall i :: 1 <= i < |Encode(c)| ==> ContinuationByte(Encode(c)[i])
  {
  }

  /** The code point that a well-formed group of bytes stands for. */
  function CodePoint(b: seq<byte>): int
    requires 1 <= |b| <= 4
  {
    var lead, last: int := b[0], b[|b| - 1];
    match |b|
    case 1 => lead
    case 2 => (lead - 0xC0) * 64 + (last - 0x80)
    case 3 => (lead - 0xE0) * 4096 + (b[1] as int - 0x80) * 64 + (last - 0x80)
    case _ => (lead - 0xF0) * 262144 + (b[1] as int - 0x80) * 4096 + (b[2] as int - 0x80) * 64 + (last - 0x80)
  }

  lemma Digits(n: nat)
    ensures n == n / 64 * 64 + n % 64
    ensures n / 64 == n / 4096 * 64 + n / 64 % 64
    ensures n / 4096 == n / 262144 * 64 + n / 4096 % 64
  {
  }

  lemma CodePointOfEncoding(c: char)
    ensures CodePoint(Encode(c)) == c as int
  {
    Digits(c as int);
  }

  /** The code points of a byte string, read group by group; None when a group is cut short. */
  function Decode(b: seq<byte>): Option<seq<int>>
    decreases |b|
  {
    if |b| == 0 then Some([])
    else if Announced(b[0]) > |b| then None
    else
      match Decode(b[Announced(b[0])..])
      case None => None
      case Some(rest) => Some([CodePoint(b[..Announced(b[0])])] + rest)
  }

  function CodePoints(v: string): seq<int> { seq(|v|, i requires 0 <= i < |v| => v[i] as int) }

  lemma {:induction false} EncodeAllFirst(v: string)
    requires |v| > 0
    ensures EncodeAll(v) == Encode(v[0]) + EncodeAll(v[1..])
  {
    var n := |v| - 1;
    if n == 0 {
      assert EncodeAll(v[..0]) == [] && EncodeAll(v[1..]) == [];
    } else {
      EncodeAllFirst(v[..n]);
      assert v[..n][1..] == v[1..][..n - 1];
      assert EncodeAll(v[1..]) == EncodeAll(v[1..][..n - 1]) + Encode(v[n]);
    }
  }

  lemma CodePointsFirst(v: string)
    requires |v| > 0
    ensures CodePoints(v) == [v[0] as int] + CodePoints(v[1..])
  {
  }

  lemma DecodeGroup(group: seq<byte>, rest: seq<byte>)
    requires 1 <= |group| <= 4 && Announced(group[0]) == |group|
    requires Decode(rest).Some?
    ensures Decode(group + rest) == Some([CodePoint(group)] + Decode(rest).value)
  {
    var b := group + rest;
    assert b[0] == group[0] && b[..|group|] == group && b[|group|..] == rest;
  }

  /** Decoding undoes encoding. */
  lemma {:induction false} DecodeUndoesEncode(v: string)
    ensures Decode(EncodeAll(v)) == Some(CodePoints(v))
  {
    if |v| > 0 {
      EncodeAllFirst(v);
      EncodedShape(v[0]);
      CodePointOfEncoding(v[0]);
      DecodeUndoesEncode(v[1..]);
      DecodeGroup(Encode(v[0]), EncodeAll(v[1..]));
      CodePointsFirst(v);
    } else {
      assert CodePoints(v) == [];
    }
  }

  // ---------- Chunks ----------

  function Size(v: string, i: int, j: int): nat
    requires 0 <= i <= j <= |v|
  {
    |EncodeAll(v[i..j])|
  }

  ghost function BetweenCharacters(v: string): int -> bool { p => 0 <= p <= |v| }

  ghost function FewEnoughBytes(v: string, maxBytes: int): (int, int) -> bool {
    (i, j) => 0 <= i <= j <= |v| && Size(v, i, j) <= maxBytes
  }

  /** Each chunk is the encoding of the characters between two neighbouring cuts. */
  ghost predicate Encodes(v: string, cuts: seq<int>, chunks: seq<seq<byte>>)
    requires forall i :: 0 <= i < |cuts| ==> 0 <= cuts[i] <= |v|
    requires forall i, j :: 0 <= i < j < |cuts| ==> cuts[i] < cuts[j]
  {
    |chunks| + 1 == |cuts| && forall i :: 0 <= i < |chunks| ==> chunks[i] == EncodeAll(v[cuts[i]..cuts[i + 1]])
  }

  lemma EncodeNext(v: string, i: int, j: int)
    requires 0 <= i <= j < |v|
    ensures EncodeAll(v[i..j + 1]) == EncodeAll(v[i..j]) + Encode(v[j])
  {
    assert v[i..j + 1][..j - i] == v[i..j];
  }

  lemma Associates(a: seq<byte>, b: seq<byte>, c: seq<byte>)
    ensures (a + b) + c == a + (b + c)
  {
  }

  lemma EncodeLast(v: string, i: int, k: int)
    requires 0 <= i < k <= |v|
    ensures EncodeAll(v[i..k]) == EncodeAll(v[i..k - 1]) + Encode(v[k - 1])
  {
    EncodeNext(v, i, k - 1);
  }

  lemma {:induction false} EncodeJoin(v: string, i: int, j: int, k: int)
    requires 0 <= i <= j <= k <= |v|
    ensures EncodeAll(v[i..k]) == EncodeAll(v[i..j]) + EncodeAll(v[j..k])
    decreases k
  {
    if j < k {
      EncodeJoin(v, i, j, k - 1);
      EncodeLast(v, i, k);
      EncodeLast(v, j, k);
      var a, b, c := EncodeAll(v[i..j]), EncodeAll(v[j..k - 1]), Encode(v[k - 1]);
      Associates(a, b, c);
      assert EncodeAll(v[i..k]) == (a + b) + c;
    } else {
      assert v[j..k] == [];
    }
  }

  lemma ByteChunksAreHereditary(v: string, maxBytes: int)
    ensures Hereditary(0, |v|, BetweenCharacters(v), FewEnoughBytes(v, maxBytes))
  {
    forall i, j, i', j' | 0 <= i <= i' < j' <= j <= |v| && FewEnoughBytes(v, maxBytes)(i, j)
      ensures FewEnoughBytes(v, maxBytes)(i', j')
    {
      EncodeJoin(v, i, i', j);
      EncodeJoin(v, i', j', j);
    }
  }

  lemma {:induction false} ChunksJoin(v: string, cuts: seq<int>, chunks: seq<seq<byte>>)
    requires |cuts| > 0 && cuts[0] == 0
    requires forall i :: 0 <= i < |cuts| ==> 0 <= cuts[i] <= |v|
    requires forall i, j :: 0 <= i < j < |cuts| ==> cuts[i] < cuts[j]
    requires Encodes(v, cuts, chunks)
    ensures Concat(chunks) == EncodeAll(v[..cuts[|chunks|]])
  {
    if |chunks| > 0 {
      var n := |chunks| - 1;
      ChunksJoin(v, cuts[..n + 1], chunks[..n]);
      EncodeJoin(v, 0, cuts[n], cuts[n + 1]);
      assert v[..cuts[n]] == v[0..cuts[n]] && v[..cuts[n + 1]] == v[0..cuts[n + 1]];
    }
  }

  datatype ByteError = LimitNotPositive | CharacterTooLong

  /** The whole text is cut greedily into chunks, and the chunks join to its encoding. */
  ghost predicate Chunked(v: string, maxBytes: int, cuts: seq<int>, chunks: seq<seq<byte>>) {
    && Greedily(cuts, 0, |v|, BetweenCharacters(v), FewEnoughBytes(v, maxBytes), |v|)
    && Encodes(v, cuts, chunks)
    && Concat(chunks) == EncodeAll(v)
    && forall k :: 0 <= k < |chunks| ==> 0 < |chunks[k]| <= maxBytes
  }

  /**
    The chunks join to the encoding of the text, none is longer than the limit or splits a character,
    and each is as long as possible; it fails exactly when one character alone is over the limit.
    */
  method SplitUtf8Chunks(v: string, maxBytes: int)
    returns (r: Result<seq<seq<byte>>, ByteError>, ghost cuts: seq<int>)
    ensures r == Err(LimitNotPositive) <==> maxBytes < 1
    ensures maxBytes >= 1 ==> (r.Err? <==> exists i :: 0 <= i < |v| && |Encode(v[i])| > maxBytes)
    ensures r.Ok? ==> Chunked(v, maxBytes, cuts, r.value)
  {
    cuts := [0];
    if maxBytes < 1 {
      return Err(LimitNotPositive), cuts;
    }
    var chunks: seq<seq<byte>> := [];
    var current, currentBytes := "", 0;
    ghost var start := 0;
    for i := 0 to |v|
      invariant Filling(v, maxBytes, cuts, chunks, start, i)
      invariant current == v[start..i] && currentBytes == Size(v, start, i)
      invariant forall k :: 0 <= k < i ==> |Encode(v[k])| <= maxBytes
    {
      if |Encode(v[i])| > maxBytes {
        return Err(CharacterTooLong), cuts;
      }
      current, currentBytes, chunks, cuts, start :=
        AddCharacter(v, maxBytes, i, current, currentBytes, chunks, cuts, start);
    }
    if |current| > 0 {
      Flush(v, maxBytes, cuts, chunks, start, |v|);
      chunks := chunks + [EncodeAll(current)];
      cuts := cuts + [|v|];
    }
    Finished(v, maxBytes, cuts, chunks);
    r := Ok(chunks);
  }

  /** Puts character `i` into the current chunk, after closing that chunk when the character is too much for it. */
  method AddCharacter(v: string, maxBytes: int, i: int, current: string, currentBytes: int, chunks: seq<seq<byte>>,
                      ghost cuts: seq<int>, ghost start: int)
    returns (current': string, currentBytes': int, chunks': seq<seq<byte>>, ghost cuts': seq<int>, ghost start': int)
    requires 0 <= i < |v| && Filling(v, maxBytes, cuts, chunks, start, i)
    requires current == v[start..i] && currentBytes == Size(v, start, i)
    requires |Encode(v[i])| <= maxBytes
    ensures Filling(v, maxBytes, cuts', chunks', start', i + 1)
    ensures current' == v[start'..i + 1] && currentBytes' == Size(v, start', i + 1)
  {
    var encoded := Encode(v[i]);
    current', currentBytes', chunks' := current, currentBytes, chunks;
    cuts', start' := cuts, start;
    EncodeNext(v, start, i);
    if |current| > 0 && currentBytes + |encoded| > maxBytes {
      FlushAndAdvance(v, maxBytes, cuts, chunks, start, i);
      chunks' := chunks + [EncodeAll(current)];
      cuts', start' := cuts + [i], i;
      current', currentBytes' := "", 0;
    }
    current' := current' + [v[i]];
    currentBytes' := currentBytes' + |encoded|;
  }

  lemma Finished(v: string, maxBytes: int, cuts: seq<int>, chunks: seq<seq<byte>>)
    requires Greedily(cuts, 0, |v|, BetweenCharacters(v), FewEnoughBytes(v, maxBytes), |v|)
    requires Encodes(v, cuts, chunks)
    ensures Chunked(v, maxBytes, cuts, chunks)
  {
    ChunksJoin(v, cuts, chunks);
    assert v[..|v|] == v;
    BoundedChunks(v, maxBytes, cuts, chunks);
  }

  /** The characters from `start` to `i` fill the current chunk. */
  ghost predicate Filling(v: string, maxBytes: int, cuts: seq<int>, chunks: seq<seq<byte>>, start: int, i: int)
  {
    && 0 <= start <= i <= |v| && (start == i ==> i == 0)
    && Size(v, start, i) <= maxBytes
    && Greedily(cuts, 0, |v|, BetweenCharacters(v), FewEnoughBytes(v, maxBytes), start)
    && Encodes(v, cuts, chunks)
  }

  lemma StaysTooMuch(v: string, maxBytes: int, start: int, end: int, j: int)
    requires 0 <= start < end < j <= |v|
    requires Size(v, start, end) + |Encode(v[end])| > maxBytes
    ensures Size(v, start, j) > maxBytes
  {
    EncodeNext(v, start, end);
    EncodeJoin(v, start, end + 1, j);
  }

  /** Cutting before `end` keeps the greedy invariant when the next character would be too much. */
  lemma Flush(v: string, maxBytes: int, cuts: seq<int>, chunks: seq<seq<byte>>, start: int, end: int)
    requires 0 <= start < end <= |v|
    requires Greedily(cuts, 0, |v|, BetweenCharacters(v), FewEnoughBytes(v, maxBytes), start)
    requires Encodes(v, cuts, chunks)
    requires Size(v, start, end) <= maxBytes
    requires end < |v| ==> Size(v, start, end) + |Encode(v[end])| > maxBytes
    ensures Greedily(cuts + [end], 0, |v|, BetweenCharacters(v), FewEnoughBytes(v, maxBytes), end)
    ensures Encodes(v, cuts + [end], chunks + [EncodeAll(v[start..end])])
  {
    forall j | end < j <= |v| ensures !FewEnoughBytes(v, maxBytes)(start, j) {
      StaysTooMuch(v, maxBytes, start, end, j);
    }
    Extend(cuts, 0, |v|, BetweenCharacters(v), FewEnoughBytes(v, maxBytes), start, end);
  }

  lemma FlushAndAdvance(v: string, maxBytes: int, cuts: seq<int>, chunks: seq<seq<byte>>, start: int, i: int)
    requires start < i < |v| && Filling(v, maxBytes, cuts, chunks, start, i)
    requires |Encode(v[i])| <= maxBytes < Size(v, start, i) + |Encode(v[i])|
    ensures Filling(v, maxBytes, cuts + [i], chunks + [EncodeAll(v[start..i])], i, i + 1)
    ensures Size(v, i, i + 1) == |Encode(v[i])|
  {
    Flush(v, maxBytes, cuts, chunks, start, i);
    EncodeNext(v, i, i);
  }

  lemma BoundedChunks(v: string, maxBytes: int, cuts: seq<int>, chunks: seq<seq<byte>>)
    requires Greedily(cuts, 0, |v|, BetweenCharacters(v), FewEnoughBytes(v, maxBytes), |v|)
    requires Encodes(v, cuts, chunks)
    ensures forall k :: 0 <= k < |chunks| ==> 0 < |chunks[k]| <= maxBytes
  {
    forall k | 0 <= k < |chunks|
      ensures 0 < |chunks[k]| <= maxBytes
    {
      assert FewEnoughBytes(v, maxBytes)(cuts[k], cuts[k + 1]);
      EncodeNext(v, cuts[k], cuts[k + 1] - 1);
    }
  }

  /** No way to cut between characters within the limit needs fewer chunks. */
  lemma ByteChunksAreFewest(v: string, maxBytes: int, cuts: seq<int>, other: seq<int>)
    requires Greedily(cuts, 0, |v|, BetweenCharacters(v), FewEnoughBytes(v, maxBytes), |v|)
    requires Partition(other, 0, |v|, BetweenCharacters(v), FewEnoughBytes(v, maxBytes))
    ensures |cuts| <= |other|
  {
    ByteChunksAreHereditary(v, maxBytes);
    FewestPieces(cuts, other, 0, |v|, BetweenCharacters(v), FewEnoughBytes(v, maxBytes));
  }
}
