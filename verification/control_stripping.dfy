/**
  Removal of unsafe Unicode controls before text is shown: control characters, default-ignorable
  characters, and joiners and variation selectors that no emoji or keycap sequence needs.
  */
module ControlStripping {
  import opened Graphemes

  /** The general categories that matter here; `category` stands for the Unicode database. */
  datatype Category = Format | OtherSymbol | NonspacingMark | AnyOther

  /** What the Unicode database says of the joiner and of the variation selectors. */
  ghost predicate UnicodeFacts(category: char -> Category) {
    && category(ZERO_WIDTH_JOINER) == Format
    && forall c :: VariationSelector(c) ==> category(c) == NonspacingMark
  }

  predicate Control(c: char) {
    var n := c as int;
    n <= 0x08 || n == 0x0B || n == 0x0C || 0x0E <= n <= 0x1F || 0x7F <= n <= 0x9F
  }

  const IGNORABLE_RANGES: seq<(int, int)> :=
    [(0x034F, 0x034F), (0x115F, 0x1160), (0x17B4, 0x17B5), (0x180B, 0x180F), (0x2065, 0x2065), (0x2800, 0x2800),
     (0x3164, 0x3164), (0xFE00, 0xFE0F), (0xFFA0, 0xFFA0), (0xFFF0, 0xFFF8), (0xE0000, 0xE0FFF)]

  predicate DefaultIgnorable(c: char, category: char -> Category) {
    || category(c) == Format
    || exists r :: r in IGNORABLE_RANGES && r.0 <= c as int <= r.1
  }

  predicate EmojiBase(c: char, category: char -> Category) {
    category(c) == OtherSymbol || c == '\U{2194}' || c == '\U{3030}'
  }

  // ---------- Filters ----------

  /** The kept ones among the first `n` characters; whether one is kept may depend on its neighbours. */
  function Kept(v: string, keep: (string, int) -> bool, n: nat): string
    requires n <= |v|
  {
    if n == 0 then [] else Kept(v, keep, n - 1) + if keep(v, n - 1) then [v[n - 1]] else []
  }

  function Filter(v: string, keep: (string, int) -> bool): string { Kept(v, keep, |v|) }

  lemma {:induction false} KeptIsPrefix(v: string, keep: (string, int) -> bool, m: nat, n: nat)
    requires m <= n <= |v|
    ensures Kept(v, keep, m) <= Kept(v, keep, n)
  {
    if m < n {
      KeptIsPrefix(v, keep, m, n - 1);
    }
  }

  /** The place in `v` that the character `j` of the filtered text comes from. */
  lemma {:induction false} Origin(v: string, keep: (string, int) -> bool, n: nat, j: nat) returns (i: nat)
    requires n <= |v| && j < |Kept(v, keep, n)|
    ensures i < n && keep(v, i) && |Kept(v, keep, i)| == j && Kept(v, keep, n)[j] == v[i]
  {
    if j < |Kept(v, keep, n - 1)| {
      i := Origin(v, keep, n - 1, j);
    } else {
      i := n - 1;
    }
  }

  lemma {:induction false} NothingRemoved(v: string, keep: (string, int) -> bool, n: nat)
    requires n <= |v| && forall i :: 0 <= i < n ==> keep(v, i)
    ensures Kept(v, keep, n) == v[..n]
  {
    if n > 0 {
      NothingRemoved(v, keep, n - 1);
    }
  }

  // ---------- The two passes ----------

  function Candidate(category: char -> Category): (string, int) -> bool {
    (v: string, i: int) =>
      && 0 <= i < |v| && !Control(v[i])
      && (v[i] == ZERO_WIDTH_JOINER || VariationSelector(v[i]) || !DefaultIgnorable(v[i], category))
  }

  /** The text ends in an emoji base, possibly followed by variation selectors and modifiers. */
  predicate EndsInEmoji(v: string, category: char -> Category) {
    && |v| > 0
    && var last := v[|v| - 1];
       if VariationSelector(last) || EmojiModifier(last) then EndsInEmoji(v[..|v| - 1], category)
       else EmojiBase(last, category)
  }

  predicate ValidJoiner(v: string, category: char -> Category, i: int)
    requires 0 <= i < |v|
  {
    EndsInEmoji(v[..i], category) && i + 1 < |v| && EmojiBase(v[i + 1], category)
  }

  /** The backward scan decides exactly that. */
  method ValidEmojiJoiner(v: string, category: char -> Category, index: int) returns (valid: bool)
    requires 0 <= index < |v|
    ensures valid == ValidJoiner(v, category, index)
  {
    var left := index - 1;
    while left >= 0 && (VariationSelector(v[left]) || EmojiModifier(v[left]))
      invariant -1 <= left < index
      invariant EndsInEmoji(v[..index], category) == EndsInEmoji(v[..left + 1], category)
    {
      assert v[..left + 1][..left] == v[..left];
      left := left - 1;
    }
    valid := left >= 0 && EmojiBase(v[left], category) && index + 1 < |v| && EmojiBase(v[index + 1], category);
  }

  const KEYCAP_BASES := "#*0123456789"

  predicate ValidSelector(v: string, category: char -> Category, i: int)
    requires 0 <= i < |v|
  {
    && i > 0
    && (|| EmojiBase(v[i - 1], category)
        || (v[i] == '\U{FE0F}' && v[i - 1] in KEYCAP_BASES && i + 1 < |v| && v[i + 1] == '\U{20E3}'))
  }

  function Needed(category: char -> Category): (string, int) -> bool {
    (v: string, i: int) =>
      && 0 <= i < |v|
      && (VariationSelector(v[i]) ==> ValidSelector(v, category, i))
      && (v[i] == ZERO_WIDTH_JOINER ==> ValidJoiner(v, category, i))
  }

  function Strip(v: string, category: char -> Category): string {
    Filter(Filter(v, Candidate(category)), Needed(category))
  }

  // ---------- What the result is like ----------

  /** Removing selectors in between does not hide the emoji base before a joiner. */
  lemma {:induction false} EmojiSurvives(v: string, category: char -> Category, n: nat)
    requires UnicodeFacts(category) && n <= |v| && EndsInEmoji(v[..n], category)
    ensures EndsInEmoji(Kept(v, Needed(category), n), category)
  {
    var keep := Needed(category);
    var last := v[..n][n - 1];
    var kept, before := Kept(v, keep, n), Kept(v, keep, n - 1);
    if VariationSelector(last) || EmojiModifier(last) {
      assert v[..n][..n - 1] == v[..n - 1];
      EmojiSurvives(v, category, n - 1);
      if keep(v, n - 1) {
        assert kept[..|kept| - 1] == before;
      } else {
        assert kept == before;
      }
    } else {
      assert keep(v, n - 1);
    }
  }

  lemma BasesAreKept(c: char, category: char -> Category)
    requires UnicodeFacts(category) && (EmojiBase(c, category) || c in KEYCAP_BASES)
    ensures !VariationSelector(c) && c != ZERO_WIDTH_JOINER
  {
  }

  /** Where `v[i]` and the kept character before it end up. */
  lemma NeighboursSurvive(v: string, keep: (string, int) -> bool, i: nat, j: nat)
    requires i < |v| && keep(v, i) && |Kept(v, keep, i)| == j
    ensures j < |Filter(v, keep)| && Filter(v, keep)[j] == v[i]
    ensures i > 0 && keep(v, i - 1) ==> j > 0 && Filter(v, keep)[j - 1] == v[i - 1]
  {
    KeptIsPrefix(v, keep, i, |v|);
    KeptIsPrefix(v, keep, i + 1, |v|);
    if i > 0 && keep(v, i - 1) {
      assert Kept(v, keep, i) == Kept(v, keep, i - 1) + [v[i - 1]];
    }
  }

  lemma SelectorStillNeeded(v: string, category: char -> Category, i: nat, j: nat)
    requires UnicodeFacts(category)
    requires i < |v| && VariationSelector(v[i]) && Needed(category)(v, i) && |Kept(v, Needed(category), i)| == j
    ensures j < |Filter(v, Needed(category))| && ValidSelector(Filter(v, Needed(category)), category, j)
  {
    BasesAreKept(v[i - 1], category);
    NeighboursSurvive(v, Needed(category), i, j);
    if !EmojiBase(v[i - 1], category) {
      NextSurvives(v, Needed(category), i, j);
    }
  }

  /** A character that was needed among the candidates is needed among the survivors too. */
  lemma StillNeeded(v: string, category: char -> Category, j: nat)
    requires UnicodeFacts(category) && j < |Filter(v, Needed(category))|
    ensures Needed(category)(Filter(v, Needed(category)), j)
  {
    var keep := Needed(category);
    var out := Filter(v, keep);
    var i := Origin(v, keep, |v|, j);
    KeptIsPrefix(v, keep, i, |v|);
    KeptIsPrefix(v, keep, i + 1, |v|);
    assert out[..j] == Kept(v, keep, i);
    if VariationSelector(out[j]) {
      SelectorStillNeeded(v, category, i, j);
    }
    if out[j] == ZERO_WIDTH_JOINER {
      EmojiSurvives(v, category, i);
      NextSurvives(v, keep, i, j);
    }
  }

  lemma NextSurvives(v: string, keep: (string, int) -> bool, i: nat, j: nat)
    requires i + 1 < |v| && keep(v, i) && keep(v, i + 1) && |Kept(v, keep, i)| == j
    ensures j + 1 < |Filter(v, keep)| && Filter(v, keep)[j + 1] == v[i + 1]
  {
    KeptIsPrefix(v, keep, i + 2, |v|);
    assert Kept(v, keep, i + 2) == Kept(v, keep, i) + [v[i]] + [v[i + 1]];
  }

  /** A character that may be shown, judged in the text where it stands. */
  ghost predicate Justified(v: string, category: char -> Category, j: int)
    requires 0 <= j < |v|
  {
    && !Control(v[j])
    && (VariationSelector(v[j]) ==> ValidSelector(v, category, j))
    && (v[j] == ZERO_WIDTH_JOINER ==> ValidJoiner(v, category, j))
    && (DefaultIgnorable(v[j], category) ==> VariationSelector(v[j]) || v[j] == ZERO_WIDTH_JOINER)
  }

  /** Every joiner and selector that survives has, in the output, the neighbours that justify it. */
  lemma SurvivorsAreJustified(v: string, category: char -> Category)
    requires UnicodeFacts(category)
    ensures var out := Strip(v, category);
            forall j :: 0 <= j < |out| ==> Justified(out, category, j)
  {
    var candidates := Filter(v, Candidate(category));
    var out := Strip(v, category);
    forall j | 0 <= j < |out|
      ensures Justified(out, category, j)
    {
      StillNeeded(candidates, category, j);
      var i := Origin(candidates, Needed(category), |candidates|, j);
      var o := Origin(v, Candidate(category), |v|, i);
    }
  }

  /** A text whose characters are all justified is left as it is. */
  lemma JustifiedIsKept(v: string, category: char -> Category)
    requires forall j :: 0 <= j < |v| ==> Justified(v, category, j)
    ensures Strip(v, category) == v
  {
    forall j | 0 <= j < |v|
      ensures Candidate(category)(v, j) && Needed(category)(v, j)
    {
      assert Justified(v, category, j);
    }
    NothingRemoved(v, Candidate(category), |v|);
    assert v[..|v|] == v;
    NothingRemoved(v, Needed(category), |v|);
  }

  /** The fixed points of the stripping are exactly the justified texts. */
  lemma FixedExactlyWhenJustified(v: string, category: char -> Category)
    requires UnicodeFacts(category)
    ensures Strip(v, category) == v <==> forall j :: 0 <= j < |v| ==> Justified(v, category, j)
  {
    SurvivorsAreJustified(v, category);
    if forall j :: 0 <= j < |v| ==> Justified(v, category, j) {
      JustifiedIsKept(v, category);
    }
  }

  /** A second pass removes nothing. */
  lemma StripIsIdempotent(v: string, category: char -> Category)
    requires UnicodeFacts(category)
    ensures Strip(Strip(v, category), category) == Strip(v, category)
  {
    SurvivorsAreJustified(v, category);
    JustifiedIsKept(Strip(v, category), category);
  }

  // ---------- What is removed ----------

  ghost function Judge(category: char -> Category): (string, int) -> bool {
    (v: string, i: int) => 0 <= i < |v| && Justified(v, category, i)
  }

  lemma {:induction false} JudgedAlike(w: string, category: char -> Category, n: nat)
    requires n <= |w| && forall i :: 0 <= i < |w| ==> Candidate(category)(w, i)
    ensures Kept(w, Needed(category), n) == Kept(w, Judge(category), n)
  {
    if n > 0 {
      JudgedAlike(w, category, n - 1);
      assert Candidate(category)(w, n - 1);
    }
  }

  lemma {:induction false} CandidatesRemain(v: string, category: char -> Category, i: nat)
    requires i < |Filter(v, Candidate(category))|
    ensures Candidate(category)(Filter(v, Candidate(category)), i)
  {
    var o := Origin(v, Candidate(category), |v|, i);
  }

  /**
    Nothing else is removed: of the text without controls and ignorable characters, the characters that are
    justified in that text are exactly the ones that stay.
    */
  lemma StripKeepsTheJustified(v: string, category: char -> Category)
    ensures var w := Filter(v, Candidate(category));
            Strip(v, category) == Filter(w, Judge(category))
    ensures forall i :: 0 <= i < |v| ==>
              (Candidate(category)(v, i) <==>
                 !Control(v[i]) && (DefaultIgnorable(v[i], category) ==>
                                      v[i] == ZERO_WIDTH_JOINER || VariationSelector(v[i])))
  {
    var w := Filter(v, Candidate(category));
    forall i | 0 <= i < |w| ensures Candidate(category)(w, i) {
      CandidatesRemain(v, category, i);
    }
    JudgedAlike(w, category, |w|);
  }

  // ---------- What is not removed ----------

  /** Ordinary characters are the ones that no rule is about. */
  predicate Ordinary(c: char, category: char -> Category) {
    !Control(c) && !DefaultIgnorable(c, category) && c != ZERO_WIDTH_JOINER && !VariationSelector(c)
  }

  function OrdinaryText(v: string, category: char -> Category): string {
    if |v| == 0 then []
    else OrdinaryText(v[..|v| - 1], category) + if Ordinary(v[|v| - 1], category) then [v[|v| - 1]] else []
  }

  lemma {:induction false} OrdinaryOfKept(v: string, category: char -> Category, keep: (string, int) -> bool, n: nat)
    requires n <= |v| && forall i :: 0 <= i < |v| && Ordinary(v[i], category) ==> keep(v, i)
    ensures OrdinaryText(Kept(v, keep, n), category) == OrdinaryText(v[..n], category)
  {
    if n > 0 {
      OrdinaryOfKept(v, category, keep, n - 1);
      assert v[..n][..n - 1] == v[..n - 1];
      var before, after := Kept(v, keep, n - 1), Kept(v, keep, n);
      if keep(v, n - 1) {
        assert after[..|after| - 1] == before;
      } else {
        assert after == before;
      }
    }
  }

  /** All ordinary characters survive, in order. */
  lemma OrdinaryTextSurvives(v: string, category: char -> Category)
    ensures OrdinaryText(Strip(v, category), category) == OrdinaryText(v, category)
  {
    var candidates := Filter(v, Candidate(category));
    OrdinaryOfKept(v, category, Candidate(category), |v|);
    OrdinaryOfKept(candidates, category, Needed(category), |candidates|);
    assert v[..|v|] == v && candidates[..|candidates|] == candidates;
  }
}
