/**
  Page layout of a rendered Markdown table: column widths, row heights, greedy pagination and the
  memory estimate. Fonts and drawing are parameters: a table is known through the number of lines
  each cell wraps to and the pixel width of its widest line.
  */
module Tables {
  import opened Greedy
  import opened Results

  const PADDING_X := 16
  const PADDING_Y := 12
  const PAGE_FOOTER := 42
  const FIRST_WRAP := 34

  datatype Limits = Limits(maxPageWidth: int, maxPageHeight: int, maxPages: int, memoryMib: int)

  /** Row 0 is the header. `lines(r, c, w)` counts the lines of cell (r, c) wrapped at w characters. */
  datatype Measured = Measured(rows: nat, columns: nat, lines: (nat, nat, int) -> nat, textWidth: (nat, nat) -> nat,
                               lineHeight: nat)
  {
    /** A header, at least one column, at least one line per cell, and the font's minimal line height. */
    ghost predicate Valid() {
      rows > 0 && columns > 0 && lineHeight >= 28 && forall r: nat, c: nat, w: int :: lines(r, c, w) > 0
    }
  }

  datatype Failure = TooWide | RowTooTall | TooManyPages | MemoryBudget
  datatype Layout = Layout(widths: seq<int>, heights: seq<int>, pages: seq<(int, int)>, estimatedBytes: int)

  function Max(a: int, b: int): int { if a < b then b else a }

  function Min(a: int, b: int): int { if a < b then a else b }

  function Sum(s: seq<int>, i: int, j: int): int
    requires 0 <= i <= j <= |s|
    decreases j
  {
    if i == j then 0 else Sum(s, i, j - 1) + s[j - 1]
  }

  function Total(s: seq<int>): int { Sum(s, 0, |s|) }

  /** The width one cell asks for. */
  function CellWidth(m: Measured, r: nat, c: nat): int {
    Min(560, Max(100, m.textWidth(r, c) + 2 * PADDING_X))
  }

  /** The most lines of any of the first `upTo` cells of a row. */
  function MostLines(m: Measured, r: nat, upTo: nat, wrap: nat -> int): (most: nat) {
    if upTo == 0 then 0 else Max(MostLines(m, r, upTo - 1, wrap), m.lines(r, upTo - 1, wrap(upTo - 1)))
  }

  function RowHeight(m: Measured, r: nat, wrap: nat -> int): int {
    MostLines(m, r, m.columns, wrap) * m.lineHeight + 2 * PADDING_Y
  }

  lemma RowsAreTall(m: Measured, r: nat, wrap: nat -> int)
    requires m.Valid()
    ensures RowHeight(m, r, wrap) >= 52
  {
    var last: nat := m.columns - 1;
    var w: int := wrap(last);
    assert m.lines(r, last, w) > 0;
    MulAtLeast(MostLines(m, r, m.columns, wrap), m.lineHeight);
  }

  lemma MulAtLeast(a: nat, b: nat)
    requires a >= 1
    ensures a * b >= b
  {
  }

  /** The height that one cell needs. */
  function NeededHeight(m: Measured, r: nat, c: nat, wrap: nat -> int): int {
    m.lines(r, c, wrap(c)) * m.lineHeight + 2 * PADDING_Y
  }

  /** The least height that every cell of the row fits. */
  ghost predicate FitsRow(m: Measured, r: nat, wrap: nat -> int, height: int) {
    && (forall c: nat :: c < m.columns ==> NeededHeight(m, r, c, wrap) <= height)
    && exists c: nat :: c < m.columns && NeededHeight(m, r, c, wrap) == height
  }

  lemma {:induction false} MostLinesIsMost(m: Measured, r: nat, upTo: nat, wrap: nat -> int)
    ensures forall c: nat :: c < upTo ==> m.lines(r, c, wrap(c)) <= MostLines(m, r, upTo, wrap)
    ensures upTo > 0 ==> exists c: nat :: c < upTo && m.lines(r, c, wrap(c)) == MostLines(m, r, upTo, wrap)
  {
    if upTo > 0 {
      MostLinesIsMost(m, r, upTo - 1, wrap);
      var last: nat := upTo - 1;
      assert m.lines(r, last, wrap(last)) <= MostLines(m, r, upTo, wrap);
    }
  }

  lemma RowFits(m: Measured, r: nat, wrap: nat -> int)
    requires m.columns > 0
    ensures FitsRow(m, r, wrap, RowHeight(m, r, wrap))
  {
    MostLinesIsMost(m, r, m.columns, wrap);
    var most := MostLines(m, r, m.columns, wrap);
    forall c: nat | c < m.columns ensures NeededHeight(m, r, c, wrap) <= RowHeight(m, r, wrap) {
      MulMonotone(m.lineHeight, m.lines(r, c, wrap(c)), most);
    }
    var c: nat :| c < m.columns && m.lines(r, c, wrap(c)) == most;
    assert NeededHeight(m, r, c, wrap) == RowHeight(m, r, wrap);
  }

  // ---------- Column widths ----------

  /** The least column widths from 100 up that give every cell what it asks for. */
  ghost predicate Natural(m: Measured, widths: seq<int>) {
    && |widths| == m.columns
    && (forall c :: 0 <= c < m.columns ==> 100 <= widths[c] <= 560)
    && (forall r, c :: 0 <= r < m.rows && 0 <= c < m.columns ==> CellWidth(m, r, c) <= widths[c])
    && (forall c :: 0 <= c < m.columns ==>
          widths[c] == 100 || exists r :: 0 <= r < m.rows && CellWidth(m, r, c) == widths[c])
  }

  method NaturalWidths(m: Measured) returns (widths: seq<int>)
    ensures Natural(m, widths)
  {
    widths := seq(m.columns, _ => 100);
    for r := 0 to m.rows
      invariant |widths| == m.columns
      invariant forall c :: 0 <= c < m.columns ==> 100 <= widths[c] <= 560
      invariant forall r', c :: 0 <= r' < r && 0 <= c < m.columns ==> CellWidth(m, r', c) <= widths[c]
      invariant forall c :: 0 <= c < m.columns ==>
                  widths[c] == 100 || exists r' :: 0 <= r' < r && CellWidth(m, r', c) == widths[c]
    {
      ghost var before := widths;
      for index := 0 to m.columns
        invariant |widths| == m.columns
        invariant forall c :: 0 <= c < index ==> widths[c] == Max(before[c], CellWidth(m, r, c))
        invariant forall c :: index <= c < m.columns ==> widths[c] == before[c]
      {
        widths := widths[index := Max(widths[index], CellWidth(m, r, index))];
      }
      forall c | 0 <= c < m.columns
        ensures widths[c] == 100 || exists r' :: 0 <= r' < r + 1 && CellWidth(m, r', c) == widths[c]
      {
        if widths[c] == before[c] {
        } else {
          assert CellWidth(m, r, c) == widths[c];
        }
      }
    }
  }

  /** Shrinks the columns in proportion, in exact arithmetic, but none below 80. */
  function Scaled(widths: seq<int>, limits: Limits): (scaled: seq<int>)
    requires Total(widths) + 1 > 0
    ensures |scaled| == |widths|
    ensures forall c :: 0 <= c < |scaled| ==> scaled[c] >= 80
  {
    seq(|widths|, c requires 0 <= c < |widths| =>
      Max(80, widths[c] * (limits.maxPageWidth - 1) / (Total(widths) + 1)))
  }

  /** Each column gets its whole proportional share, rounded down, and at least 80 pixels. */
  lemma ScaledExactly(widths: seq<int>, limits: Limits, c: nat)
    requires Total(widths) + 1 > 0 && c < |widths|
    ensures var share, total, width := widths[c] * (limits.maxPageWidth - 1), Total(widths) + 1,
                                       Scaled(widths, limits)[c];
            && width >= 80
            && (width > 80 ==> width * total <= share)
            && share < (width + 1) * total
  {
    var share, total := widths[c] * (limits.maxPageWidth - 1), Total(widths) + 1;
    RoundsDown(share, total);
    assert share < (share / total + 1) * total;
    MulMonotone(total, share / total + 1, Scaled(widths, limits)[c] + 1);
  }

  /** A cell is as wide as its text with the padding, unless its column has the greatest width. */
  lemma TextFitsColumn(m: Measured, widths: seq<int>, r: nat, c: nat)
    requires Natural(m, widths) && r < m.rows && c < m.columns
    ensures m.textWidth(r, c) + 2 * PADDING_X <= widths[c] || widths[c] == 560
  {
    assert CellWidth(m, r, c) <= widths[c];
  }

  /** No column is wider than that: it has the least width, or one of its texts asks for the width it has. */
  lemma ColumnIsTight(m: Measured, widths: seq<int>, c: nat)
    requires Natural(m, widths) && c < m.columns
    ensures widths[c] == 100 || exists r :: 0 <= r < m.rows && AsksFor(m, r, c, widths[c])
  {
    if widths[c] != 100 {
      var r :| 0 <= r < m.rows && CellWidth(m, r, c) == widths[c];
      assert AsksFor(m, r, c, widths[c]);
    }
  }

  predicate AsksFor(m: Measured, r: nat, c: nat, width: int) {
    var wanted := m.textWidth(r, c) + 2 * PADDING_X;
    wanted == width || (wanted > width && width == 560)
  }

  lemma {:induction false} ScaledSum(widths: seq<int>, limits: Limits, total: int, k: nat)
    requires 0 <= k <= |widths| && limits.maxPageWidth >= 1 && total == Total(widths) + 1 > 0
    requires forall c :: 0 <= c < |widths| ==> widths[c] >= 0
    requires forall c :: 0 <= c < |widths| ==> widths[c] * (limits.maxPageWidth - 1) / total >= 80
    ensures Sum(Scaled(widths, limits), 0, k) * total <= Sum(widths, 0, k) * (limits.maxPageWidth - 1)
  {
    if k > 0 {
      ScaledSum(widths, limits, total, k - 1);
      var product := widths[k - 1] * (limits.maxPageWidth - 1);
      assert Scaled(widths, limits)[k - 1] == product / total;
      RoundsDown(product, total);
      Distribute(Sum(Scaled(widths, limits), 0, k - 1), product / total, total);
      Distribute(Sum(widths, 0, k - 1), widths[k - 1], limits.maxPageWidth - 1);
    }
  }

  lemma RoundsDown(a: int, b: int)
    requires b > 0
    ensures a / b * b <= a
  {
  }

  lemma Distribute(a: int, b: int, c: int)
    ensures (a + b) * c == a * c + b * c
  {
  }

  /** A table is too wide only when the lower bound of 80 stops some column from shrinking. */
  lemma ScalingFits(widths: seq<int>, limits: Limits)
    requires limits.maxPageWidth >= 1 && Total(widths) + 1 > 0
    requires forall c :: 0 <= c < |widths| ==> widths[c] >= 0
    requires forall c :: 0 <= c < |widths| ==> widths[c] * (limits.maxPageWidth - 1) / (Total(widths) + 1) >= 80
    ensures Total(Scaled(widths, limits)) + 1 <= limits.maxPageWidth
  {
    var total, room := Total(widths) + 1, limits.maxPageWidth - 1;
    ScaledSum(widths, limits, total, |widths|);
    Distribute(Total(widths), 1, room);
    Cancel(Total(Scaled(widths, limits)), room, total);
  }

  lemma Cancel(a: int, b: int, t: int)
    requires t > 0 && a * t <= t * b
    ensures a <= b
  {
    assert (a - b) * t <= 0;
  }

  // ---------- Pagination ----------

  ghost function EveryRow(): int -> bool { _ => true }

  /** Rows [i, j) share a page when their heights stay within the budget. */
  ghost function FitsPage(heights: seq<int>, budget: int): (int, int) -> bool {
    (i, j) => 0 <= i <= j <= |heights| && Sum(heights, i, j) <= budget
  }

  /** The cuts between pages: the first body row, then the end of every page. */
  function Cuts(pages: seq<(int, int)>): seq<int> {
    [1] + seq(|pages|, k requires 0 <= k < |pages| => pages[k].1)
  }

  /** Pages follow each other without gap or overlap, starting at the first body row. */
  predicate Consecutive(pages: seq<(int, int)>) {
    forall k :: 0 <= k < |pages| ==> pages[k].0 == Cuts(pages)[k]
  }

  lemma {:induction false} SumGrows(s: seq<int>, i: int, i': int, j': int, j: int)
    requires 0 <= i <= i' <= j' <= j <= |s|
    requires forall k :: 0 <= k < |s| ==> s[k] >= 0
    ensures Sum(s, i', j') <= Sum(s, i, j)
    decreases j
  {
    if j' < j {
      SumGrows(s, i, i', j', j - 1);
    } else if i' < j' {
      SumGrows(s, i, i', j' - 1, j - 1);
    } else if i < j {
      SumGrows(s, i, j - 1, j - 1, j - 1);
    }
  }

  lemma PagesAreHereditary(heights: seq<int>, budget: int)
    requires forall k :: 0 <= k < |heights| ==> heights[k] >= 0
    ensures Hereditary(1, |heights|, EveryRow(), FitsPage(heights, budget))
  {
    forall i, j, i', j' | 1 <= i <= i' < j' <= j <= |heights| && FitsPage(heights, budget)(i, j)
      ensures FitsPage(heights, budget)(i', j')
    {
      SumGrows(heights, i, i', j', j);
    }
  }

  /** The pages are a complete greedy cutting of the body rows. */
  ghost predicate Paginated(heights: seq<int>, budget: int, pages: seq<(int, int)>) {
    && Consecutive(pages)
    && Greedily(Cuts(pages), 1, |heights|, EveryRow(), FitsPage(heights, budget), |heights|)
  }

  lemma TooTallAfter(heights: seq<int>, budget: int, start: int, end: int, j: int)
    requires forall k :: 0 <= k < |heights| ==> heights[k] > 0
    requires 1 <= start < end < j <= |heights| && Sum(heights, start, end) + heights[end] > budget
    ensures Sum(heights, start, j) > budget
  {
    SumGrows(heights, start, start, end + 1, j);
  }

  lemma CutsGrow(pages: seq<(int, int)>, start: int, end: int)
    requires Consecutive(pages) && Cuts(pages)[|pages|] == start
    ensures Cuts(pages + [(start, end)]) == Cuts(pages) + [end] && Consecutive(pages + [(start, end)])
  {
    var after := pages + [(start, end)];
    assert Cuts(after) == Cuts(pages) + [end];
    forall k | 0 <= k < |after| ensures after[k].0 == Cuts(after)[k] {
      assert k < |pages| ==> after[k] == pages[k];
    }
  }

  lemma NextCutIsGreedy(heights: seq<int>, budget: int, cuts: seq<int>, start: int, end: int)
    requires forall k :: 0 <= k < |heights| ==> heights[k] > 0
    requires 1 <= start < end <= |heights|
    requires Greedily(cuts, 1, |heights|, EveryRow(), FitsPage(heights, budget), start)
    requires Sum(heights, start, end) <= budget
    requires end < |heights| ==> Sum(heights, start, end) + heights[end] > budget
    ensures Greedily(cuts + [end], 1, |heights|, EveryRow(), FitsPage(heights, budget), end)
  {
    forall j | end < j <= |heights| ensures !FitsPage(heights, budget)(start, j) {
      TooTallAfter(heights, budget, start, end, j);
    }
    Extend(cuts, 1, |heights|, EveryRow(), FitsPage(heights, budget), start, end);
  }

  lemma NextPage(heights: seq<int>, budget: int, pages: seq<(int, int)>, start: int, end: int)
    requires forall k :: 0 <= k < |heights| ==> heights[k] > 0
    requires 1 <= start < end <= |heights|
    requires Consecutive(pages)
    requires Greedily(Cuts(pages), 1, |heights|, EveryRow(), FitsPage(heights, budget), start)
    requires Sum(heights, start, end) <= budget
    requires end < |heights| ==> Sum(heights, start, end) + heights[end] > budget
    ensures Consecutive(pages + [(start, end)])
    ensures Greedily(Cuts(pages + [(start, end)]), 1, |heights|, EveryRow(), FitsPage(heights, budget), end)
  {
    CutsGrow(pages, start, end);
    NextCutIsGreedy(heights, budget, Cuts(pages), start, end);
  }

  /** The end of the page that starts at row `start`. */
  method FillPage(heights: seq<int>, budget: int, start: int) returns (end: int)
    requires forall k :: 0 <= k < |heights| ==> heights[k] > 0
    requires 1 <= start < |heights|
    ensures start <= end <= |heights|
    ensures start < end ==> Sum(heights, start, end) <= budget
    ensures end < |heights| ==> Sum(heights, start, end) + heights[end] > budget
    ensures forall k :: start <= k < end ==> heights[k] <= budget
  {
    var height := 0;
    end := start;
    while end < |heights| && height + heights[end] <= budget
      invariant start <= end <= |heights|
      invariant 0 <= height == Sum(heights, start, end) && (start < end ==> height <= budget)
      invariant forall k :: start <= k < end ==> heights[k] <= budget
    {
      height := height + heights[end];
      end := end + 1;
    }
  }

  /** Greedy pagination: complete and page-wise maximal, unless a single body row exceeds the budget. */
  method Paginate(heights: seq<int>, budget: int) returns (r: Result<seq<(int, int)>, Failure>)
    requires |heights| > 0 && forall k :: 0 <= k < |heights| ==> heights[k] > 0
    ensures r.Err? <==> exists k :: 1 <= k < |heights| && heights[k] > budget
    ensures r.Err? ==> r.error == RowTooTall
    ensures r.Ok? && |heights| == 1 ==> r.value == [(1, 1)]
    ensures r.Ok? && |heights| > 1 ==> Paginated(heights, budget, r.value)
  {
    var pages: seq<(int, int)> := [];
    var start := 1;
    while start < |heights|
      invariant 1 <= start <= |heights|
      invariant Consecutive(pages)
      invariant Greedily(Cuts(pages), 1, |heights|, EveryRow(), FitsPage(heights, budget), start)
      invariant forall k :: 1 <= k < start ==> heights[k] <= budget
    {
      var end := FillPage(heights, budget, start);
      if end == start {
        return Err(RowTooTall);
      }
      NextPage(heights, budget, pages, start, end);
      pages := pages + [(start, end)];
      start := end;
    }
    assert |heights| > 1 ==> Paginated(heights, budget, pages);
    if |pages| == 0 {
      assert Cuts(pages) == [1];
      pages := [(1, 1)];
    }
    r := Ok(pages);
  }

  /** Pages needed by any other way to cut the body rows into fitting pages. */
  lemma GreedyIsMinimal(heights: seq<int>, budget: int, pages: seq<(int, int)>, other: seq<int>)
    requires forall k :: 0 <= k < |heights| ==> heights[k] >= 0
    requires Paginated(heights, budget, pages)
    requires Partition(other, 1, |heights|, EveryRow(), FitsPage(heights, budget))
    ensures |pages| <= |other| - 1
  {
    PagesAreHereditary(heights, budget);
    FewestPieces(Cuts(pages), other, 1, |heights|, EveryRow(), FitsPage(heights, budget));
  }

  /** `pages` pages are enough for some way of cutting the body rows. */
  ghost predicate Achievable(heights: seq<int>, budget: int, pages: int) {
    exists other :: Partition(other, 1, |heights|, EveryRow(), FitsPage(heights, budget)) && |other| - 1 <= pages
  }

  // ---------- Drawing size and memory ----------

  /** Pixel height of the image of one page. */
  function PageHeight(heights: seq<int>, page: (int, int)): int
    requires 0 < |heights| && 0 <= page.0 <= page.1 <= |heights|
  {
    heights[0] + Sum(heights, page.0, page.1) + PAGE_FOOTER + 1
  }

  /** Bytes of the RGB images of the first `k` pages. */
  function RgbBytes(widths: seq<int>, heights: seq<int>, pages: seq<(int, int)>, k: nat): int
    requires 0 < |heights| && k <= |pages|
    requires forall p :: 0 <= p < |pages| ==> 0 <= pages[p].0 <= pages[p].1 <= |heights|
  {
    if k == 0 then 0
    else RgbBytes(widths, heights, pages, k - 1)
         + 3 * (Total(widths) + 1) * PageHeight(heights, pages[k - 1])
  }

  lemma PageInRange(heights: seq<int>, budget: int, pages: seq<(int, int)>, p: nat)
    requires Paginated(heights, budget, pages) && p < |pages|
    ensures 1 <= pages[p].0 < pages[p].1 <= |heights| && Sum(heights, pages[p].0, pages[p].1) <= budget
  {
    var cuts := Cuts(pages);
    assert cuts[p] < cuts[p + 1] && pages[p] == (cuts[p], cuts[p + 1]);
    assert FitsPage(heights, budget)(cuts[p], cuts[p + 1]);
  }

  lemma PagesInRange(heights: seq<int>, budget: int, pages: seq<(int, int)>)
    requires Paginated(heights, budget, pages)
    ensures forall p :: 0 <= p < |pages| ==> 1 <= pages[p].0 < pages[p].1 <= |heights|
    ensures forall p :: 0 <= p < |pages| ==> Sum(heights, pages[p].0, pages[p].1) <= budget
  {
    forall p | 0 <= p < |pages|
      ensures 1 <= pages[p].0 < pages[p].1 <= |heights| && Sum(heights, pages[p].0, pages[p].1) <= budget
    {
      PageInRange(heights, budget, pages, p);
    }
  }

  /** Three bytes per pixel with the extra border row and column stay below four without them. */
  lemma FourCoversThree(w: int, h: int, pageHeight: int)
    requires w >= 80 && h >= 84 && 0 <= pageHeight <= h + 1
    ensures 3 * (w + 1) * pageHeight <= w * h * 4
  {
    MulMonotone(w + 1, pageHeight, h + 1);
    assert (w + 1) * (h + 1) == w * h + w + h + 1;
    MulAtLeast(w - 3, h - 3);
    assert (w - 3) * (h - 3) == w * h - 3 * w - 3 * h + 9;
    assert 3 * (w + 1) * pageHeight == 3 * ((w + 1) * pageHeight);
    assert w * h * 4 == 4 * (w * h);
  }

  lemma MulMonotone(a: nat, b: int, c: int)
    requires b <= c
    ensures a * b <= a * c
  {
  }

  lemma {:induction false} RgbWithinEstimate(widths: seq<int>, heights: seq<int>, pages: seq<(int, int)>,
                                             maxPageHeight: int, k: nat)
    requires 0 < |heights| && k <= |pages|
    requires forall p :: 0 <= p < |pages| ==> 0 <= pages[p].0 <= pages[p].1 <= |heights|
    requires Total(widths) >= 80 && maxPageHeight >= 84
    requires forall p :: 0 <= p < |pages| ==> 0 <= PageHeight(heights, pages[p]) <= maxPageHeight + 1
    ensures RgbBytes(widths, heights, pages, k) <= Total(widths) * maxPageHeight * 4 * k
  {
    if k > 0 {
      RgbWithinEstimate(widths, heights, pages, maxPageHeight, k - 1);
      FourCoversThree(Total(widths), maxPageHeight, PageHeight(heights, pages[k - 1]));
      var perPage := Total(widths) * maxPageHeight * 4;
      assert perPage * (k - 1) + perPage == perPage * k;
    }
  }

  lemma {:induction false} TotalAtLeast(widths: seq<int>, k: nat)
    requires 0 < k <= |widths| && forall c :: 0 <= c < |widths| ==> widths[c] >= 80
    ensures Sum(widths, 0, k) >= 80
  {
    if k > 1 {
      TotalAtLeast(widths, k - 1);
    }
  }

  // ---------- The whole layout ----------

  /** Every row has the least height that its cells fit. */
  ghost predicate HeightsOf(m: Measured, heights: seq<int>, wrap: nat -> int) {
    |heights| == m.rows && forall r :: 0 <= r < m.rows ==> FitsRow(m, r, wrap, heights[r])
  }

  function WrapAtFirst(): nat -> int { _ => FIRST_WRAP }

  function WrapToColumn(widths: seq<int>): nat -> int {
    (c: nat) => if c < |widths| then Max(8, widths[c] / 13) else 8
  }

  /** A scaled column wraps at as many characters of 13 pixels as it has room for, and at 8 or more. */
  lemma WrapFollowsWidth(widths: seq<int>, c: nat)
    requires c < |widths|
    ensures var wrap := WrapToColumn(widths)(c);
            wrap >= 8 && (wrap > 8 ==> 13 * wrap <= widths[c]) && widths[c] < 13 * (wrap + 1)
  {
  }

  function BodyBudget(heights: seq<int>, limits: Limits): int
    requires |heights| > 0
  {
    limits.maxPageHeight - heights[0] - PAGE_FOOTER
  }

  /**
    A layout respects the page width; with a body row it respects the page height up to one pixel,
    and all its images together take no more than the estimate, which is within the memory budget.
    It uses as few pages as any pagination could.
    */
  ghost predicate GoodLayout(layout: Layout, limits: Limits)
    requires |layout.heights| > 0
  {
    var heights, budget := layout.heights, BodyBudget(layout.heights, limits);
    && Total(layout.widths) + 1 <= limits.maxPageWidth
    && 1 <= |layout.pages| <= limits.maxPages
    && layout.estimatedBytes == Total(layout.widths) * limits.maxPageHeight * 4 * |layout.pages|
    && layout.estimatedBytes <= limits.memoryMib * 1024 * 1024
    && (|heights| > 1 ==>
          && Paginated(heights, budget, layout.pages)
          && (forall p :: 0 <= p < |layout.pages| ==> 1 <= layout.pages[p].0 < layout.pages[p].1 <= |heights|)
          && (forall p :: 0 <= p < |layout.pages| ==>
                PageHeight(heights, layout.pages[p]) <= limits.maxPageHeight + 1)
          && RgbBytes(layout.widths, heights, layout.pages, |layout.pages|) <= layout.estimatedBytes)
    && (|heights| == 1 ==> layout.pages == [(1, 1)])
  }

  /** Each error is reported only for its own reason. */
  ghost predicate GoodFailure(error: Failure, heights: seq<int>, widths: seq<int>, limits: Limits)
    requires |heights| > 0
  {
    var budget := BodyBudget(heights, limits);
    match error
    case TooWide => Total(widths) + 1 > limits.maxPageWidth
    case RowTooTall => exists k :: 1 <= k < |heights| && heights[k] > budget
    case TooManyPages => if |heights| == 1 then limits.maxPages < 1 else !Achievable(heights, budget, limits.maxPages)
    case MemoryBudget =>
      if |heights| == 1 then TooMuchFor(widths, limits, 1) else NoPaginationFits(widths, heights, limits)
  }

  /** The estimate for that many pages exceeds the memory budget. */
  predicate TooMuchFor(widths: seq<int>, limits: Limits, pages: int) {
    Total(widths) * limits.maxPageHeight * 4 * pages > limits.memoryMib * 1024 * 1024
  }

  /** Whichever way the body rows are cut into fitting pages, the estimate exceeds the memory budget. */
  ghost predicate NoPaginationFits(widths: seq<int>, heights: seq<int>, limits: Limits)
    requires |heights| > 0
  {
    forall other ::
      Partition(other, 1, |heights|, EveryRow(), FitsPage(heights, BodyBudget(heights, limits))) ==>
      TooMuchFor(widths, limits, |other| - 1)
  }

  /** Some column would have to be narrower than the minimal width, and has that width instead. */
  ghost predicate ColumnStops(natural: seq<int>, widths: seq<int>, limits: Limits)
    requires Total(natural) + 1 > 0 && |natural| == |widths|
  {
    exists c :: 0 <= c < |natural|
      && natural[c] * (limits.maxPageWidth - 1) / (Total(natural) + 1) < 80 && widths[c] == 80
  }

  lemma TooWideStopsColumn(natural: seq<int>, limits: Limits)
    requires |natural| > 0 && Total(natural) + 1 > 0 && forall c :: 0 <= c < |natural| ==> natural[c] >= 100
    requires Total(Scaled(natural, limits)) + 1 > limits.maxPageWidth
    ensures ColumnStops(natural, Scaled(natural, limits), limits)
  {
    if limits.maxPageWidth < 1 {
      NotPositive(natural[0], limits.maxPageWidth - 1, Total(natural) + 1);
      assert Scaled(natural, limits)[0] == 80;
    } else if forall c :: 0 <= c < |natural| ==> natural[c] * (limits.maxPageWidth - 1) / (Total(natural) + 1) >= 80 {
      ScalingFits(natural, limits);
      assert false;
    } else {
      var c :| 0 <= c < |natural| && natural[c] * (limits.maxPageWidth - 1) / (Total(natural) + 1) < 80;
      assert Scaled(natural, limits)[c] == 80;
    }
  }

  lemma NotPositive(a: nat, b: int, c: int)
    requires b <= 0 < c
    ensures a * b / c <= 0
  {
    assert a * b <= 0;
  }

  lemma MoreIsTooMuch(widths: seq<int>, limits: Limits, few: int, many: int)
    requires Total(widths) >= 0 && limits.maxPageHeight >= 0 && few <= many && TooMuchFor(widths, limits, few)
    ensures TooMuchFor(widths, limits, many)
  {
    MulMonotone(Total(widths), 0, limits.maxPageHeight);
    MulMonotone(Total(widths) * limits.maxPageHeight * 4, few, many);
  }

  lemma MemoryIsTooSmall(widths: seq<int>, heights: seq<int>, limits: Limits, pages: seq<(int, int)>)
    requires |heights| > 1 && forall k :: 0 <= k < |heights| ==> heights[k] >= 0
    requires Total(widths) >= 0 && limits.maxPageHeight >= 0
    requires Paginated(heights, BodyBudget(heights, limits), pages) && TooMuchFor(widths, limits, |pages|)
    ensures NoPaginationFits(widths, heights, limits)
  {
    forall other | Partition(other, 1, |heights|, EveryRow(), FitsPage(heights, BodyBudget(heights, limits)))
      ensures TooMuchFor(widths, limits, |other| - 1)
    {
      OtherIsTooMuch(widths, heights, limits, pages, other);
    }
  }

  lemma OtherIsTooMuch(widths: seq<int>, heights: seq<int>, limits: Limits, pages: seq<(int, int)>, other: seq<int>)
    requires |heights| > 1 && forall k :: 0 <= k < |heights| ==> heights[k] >= 0
    requires Total(widths) >= 0 && limits.maxPageHeight >= 0
    requires Paginated(heights, BodyBudget(heights, limits), pages) && TooMuchFor(widths, limits, |pages|)
    requires Partition(other, 1, |heights|, EveryRow(), FitsPage(heights, BodyBudget(heights, limits)))
    ensures TooMuchFor(widths, limits, |other| - 1)
  {
    GreedyIsMinimal(heights, BodyBudget(heights, limits), pages, other);
    MoreIsTooMuch(widths, limits, |pages|, |other| - 1);
  }

  /** Natural widths, or scaled ones when the table is wider than a page. */
  method SettleColumns(m: Measured, limits: Limits)
    returns (columns: seq<int>, wrap: nat -> int, natural: seq<int>)
    requires m.Valid()
    ensures Natural(m, natural) && Total(natural) + 1 > 0 && Total(columns) >= 80
    ensures Total(natural) + 1 <= limits.maxPageWidth ==> columns == natural && wrap == WrapAtFirst()
    ensures Total(natural) + 1 > limits.maxPageWidth ==>
              columns == Scaled(natural, limits) && wrap == WrapToColumn(columns)
  {
    columns := NaturalWidths(m);
    natural := columns;
    TotalAtLeast(columns, |columns|);
    wrap := WrapAtFirst();
    if Total(columns) + 1 > limits.maxPageWidth {
      columns := Scaled(columns, limits);
      wrap := WrapToColumn(columns);
      TotalAtLeast(columns, |columns|);
    }
  }

  method LayoutPages(m: Measured, limits: Limits)
    returns (r: Result<Layout, Failure>, natural: seq<int>, widths: seq<int>, heights: seq<int>)
    requires m.Valid()
    ensures Natural(m, natural) && Total(natural) + 1 > 0 && |heights| == m.rows
    ensures Total(natural) + 1 <= limits.maxPageWidth ==> widths == natural && HeightsOf(m, heights, WrapAtFirst())
    ensures Total(natural) + 1 > limits.maxPageWidth ==>
              widths == Scaled(natural, limits) && HeightsOf(m, heights, WrapToColumn(widths))
    ensures r.Ok? ==> r.value.widths == widths && r.value.heights == heights && GoodLayout(r.value, limits)
    ensures r.Err? ==> GoodFailure(r.error, heights, widths, limits)
    ensures r == Err(TooWide) ==>
              Total(natural) + 1 > limits.maxPageWidth && |natural| == |widths| && ColumnStops(natural, widths, limits)
  {
    var columns, wrap, fitted := SettleColumns(m, limits);
    natural, widths := fitted, columns;
    heights := RowHeights(m, wrap);
    r := PlacePages(columns, heights, limits);
    if r == Err(TooWide) {
      TooWideStopsColumn(natural, limits);
    }
  }

  method RowHeights(m: Measured, wrap: nat -> int) returns (heights: seq<int>)
    requires m.Valid()
    ensures HeightsOf(m, heights, wrap)
    ensures forall k :: 0 <= k < |heights| ==> heights[k] >= 52
  {
    heights := seq(m.rows, r requires 0 <= r < m.rows => RowHeight(m, r, wrap));
    forall k | 0 <= k < m.rows ensures heights[k] >= 52 && FitsRow(m, k, wrap, heights[k]) {
      RowsAreTall(m, k, wrap);
      RowFits(m, k, wrap);
    }
  }

  method PlacePages(columns: seq<int>, heights: seq<int>, limits: Limits) returns (r: Result<Layout, Failure>)
    requires Total(columns) >= 80
    requires |heights| > 0 && forall k :: 0 <= k < |heights| ==> heights[k] >= 52
    ensures r.Ok? ==> r.value.widths == columns && r.value.heights == heights && GoodLayout(r.value, limits)
    ensures r.Err? ==> GoodFailure(r.error, heights, columns, limits)
  {
    if Total(columns) + 1 > limits.maxPageWidth {
      return Err(TooWide);
    }
    var budget := BodyBudget(heights, limits);
    var paged := Paginate(heights, budget);
    if paged.Err? {
      return Err(paged.error);
    }
    if |heights| > 1 {
      SomePage(heights, budget, paged.value);
    }
    r := AdmitPages(columns, heights, limits, paged.value);
  }

  /** The checks that follow the pagination. */
  method AdmitPages(columns: seq<int>, heights: seq<int>, limits: Limits, pages: seq<(int, int)>)
    returns (r: Result<Layout, Failure>)
    requires Total(columns) >= 80 && Total(columns) + 1 <= limits.maxPageWidth
    requires |heights| > 0 && forall k :: 0 <= k < |heights| ==> heights[k] >= 52
    requires |pages| > 0 && (|heights| > 1 ==> Paginated(heights, BodyBudget(heights, limits), pages))
    requires |heights| == 1 ==> pages == [(1, 1)]
    ensures r.Ok? ==> r.value.widths == columns && r.value.heights == heights && GoodLayout(r.value, limits)
    ensures r.Err? ==> GoodFailure(r.error, heights, columns, limits)
  {
    if |pages| > limits.maxPages {
      if |heights| > 1 {
        NotAchievable(heights, BodyBudget(heights, limits), pages, limits.maxPages);
      }
      return Err(TooManyPages);
    }
    var estimated := Total(columns) * limits.maxPageHeight * 4 * Max(1, |pages|);
    if |heights| > 1 {
      ImagesFit(columns, heights, limits, pages);
    }
    if estimated > limits.memoryMib * 1024 * 1024 {
      if |heights| > 1 {
        MemoryIsTooSmall(columns, heights, limits, pages);
      }
      return Err(MemoryBudget);
    }
    r := Ok(Layout(columns, heights, pages, estimated));
  }

  lemma NotAchievable(heights: seq<int>, budget: int, pages: seq<(int, int)>, maxPages: int)
    requires forall k :: 0 <= k < |heights| ==> heights[k] >= 0
    requires Paginated(heights, budget, pages) && maxPages < |pages|
    ensures !Achievable(heights, budget, maxPages)
  {
    forall other | Partition(other, 1, |heights|, EveryRow(), FitsPage(heights, budget))
      ensures |other| - 1 > maxPages
    {
      GreedyIsMinimal(heights, budget, pages, other);
    }
  }

  lemma SomePage(heights: seq<int>, budget: int, pages: seq<(int, int)>)
    requires |heights| > 1 && Paginated(heights, budget, pages)
    ensures |pages| >= 1
  {
    var cuts := Cuts(pages);
    assert cuts[0] == 1 && cuts[|cuts| - 1] == |heights|;
  }

  lemma ImagesFit(widths: seq<int>, heights: seq<int>, limits: Limits, pages: seq<(int, int)>)
    requires Total(widths) >= 80
    requires |heights| > 1 && forall k :: 0 <= k < |heights| ==> heights[k] >= 52
    requires |pages| > 0 && Paginated(heights, BodyBudget(heights, limits), pages)
    ensures limits.maxPageHeight >= 84
    ensures forall p :: 0 <= p < |pages| ==> 1 <= pages[p].0 < pages[p].1 <= |heights|
    ensures forall p :: 0 <= p < |pages| ==> PageHeight(heights, pages[p]) <= limits.maxPageHeight + 1
    ensures RgbBytes(widths, heights, pages, |pages|) <= Total(widths) * limits.maxPageHeight * 4 * |pages|
  {
    PagesInRange(heights, BodyBudget(heights, limits), pages);
    PagesFit(heights, limits, pages);
    RgbWithinEstimate(widths, heights, pages, limits.maxPageHeight, |pages|);
  }

  lemma PagesFit(heights: seq<int>, limits: Limits, pages: seq<(int, int)>)
    requires |heights| > 1 && forall k :: 0 <= k < |heights| ==> heights[k] >= 52
    requires |pages| > 0 && Paginated(heights, BodyBudget(heights, limits), pages)
    requires forall p :: 0 <= p < |pages| ==> 1 <= pages[p].0 < pages[p].1 <= |heights|
    ensures limits.maxPageHeight >= 84
    ensures forall p :: 0 <= p < |pages| ==> 0 <= PageHeight(heights, pages[p]) <= limits.maxPageHeight + 1
  {
    PagesInRange(heights, BodyBudget(heights, limits), pages);
    forall p | 0 <= p < |pages|
      ensures 52 <= Sum(heights, pages[p].0, pages[p].1)
    {
      SumGrows(heights, pages[p].0, pages[p].0, pages[p].0 + 1, pages[p].1);
    }
    assert Sum(heights, pages[0].0, pages[0].1) <= BodyBudget(heights, limits);
  }

  /**
    The exact condition for the page height: all pages of a layout keep it, up to one pixel, unless the table
    has no body row and its header with the footer is too tall for a page.
    */
  lemma PageHeightHoldsExactly(layout: Layout, limits: Limits)
    requires |layout.heights| > 0 && GoodLayout(layout, limits)
    requires forall p :: 0 <= p < |layout.pages| ==> 0 <= layout.pages[p].0 <= layout.pages[p].1 <= |layout.heights|
    ensures (forall p :: 0 <= p < |layout.pages| ==>
               PageHeight(layout.heights, layout.pages[p]) <= limits.maxPageHeight + 1)
            <==> |layout.heights| > 1 || BodyBudget(layout.heights, limits) >= 0
  {
    if |layout.heights| == 1 {
      assert layout.pages[0] == (1, 1) && Sum(layout.heights, 1, 1) == 0;
    }
  }
}
