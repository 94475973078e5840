/**
 How changed files are batched for commit-message prompts: by category, in the order given, greedily under a
 file limit and a character limit.
 */
module CommitBatches {

  import opened Wrappers

  datatype Category = Runtime | UserInterface | Configuration | Tests | Documentation | Source

  /** A changed file: what `categorizePath` and `displayPath` say of its path, and its diff. */
  datatype Item = Item(category: Category, shownPath: string, diff: string)

  datatype Batch = Batch(category: Category, items: seq<Item>)

  /** `runtime`, or `runtime 2/3`. */
  datatype Label = Whole(category: Category) | Part(category: Category, part: nat, total: nat)

  datatype Labelled = Labelled(batch: Batch, tag: Label)

  const BATCH_CHAR_LIMIT := 12000
  const MAX_FILES_PER_BATCH := 10
  const MAX_DIFF_CHARS_PER_FILE := 5000
  const TRUNCATED := "\n[diff truncated]\n"
  const CATEGORY_ORDER := [Runtime, UserInterface, Configuration, Tests, Documentation, Source]

  function Rank(c: Category): nat {
    match c
    case Runtime => 0
    case UserInterface => 1
    case Configuration => 2
    case Tests => 3
    case Documentation => 4
    case Source => 5
  }

  // Rendering

  function Half(maxChars: int): nat {
    if (maxChars - 80) / 2 > 300 then (maxChars - 80) / 2 else 300
  }

  function Head(text: string, n: nat): string { if n < |text| then text[..n] else text }
  function Tail(text: string, n: nat): string { if n < |text| then text[|text| - n..] else text }

  function TruncateText(text: string, maxChars: int): string {
    if |text| <= maxChars then text
    else Head(text, Half(maxChars)) + TRUNCATED + Tail(text, Half(maxChars))
  }

  function RenderDiffItem(item: Item, maxDiffChars: int): string {
    var diff := TruncateText(item.diff, maxDiffChars);
    "FILE: " + item.shownPath + "\n" + "DIFF:" + "\n" + (if diff == "" then "[no textual diff available]" else diff)
  }

  /** The limit is met exactly by texts that need no cut and by limits that leave room for the fixed halves. */
  lemma TruncationFits(text: string, maxChars: int)
    ensures |TruncateText(text, maxChars)| <= maxChars <==> |text| <= maxChars || maxChars >= 618
  {
    assert |TRUNCATED| == 18;
    var half := Half(maxChars);
    assert |Head(text, half)| == |Tail(text, half)| == if half < |text| then half else |text|;
  }

  /** Where a cut fits, it keeps a start and an end of the text that do not overlap. */
  lemma TruncationKeepsEnds(text: string, maxChars: int)
    requires 618 <= maxChars < |text|
    ensures exists h: nat ::
              && 2 * h < |text|
              && TruncateText(text, maxChars) == text[..h] + TRUNCATED + text[|text| - h..]
              && (h == 300 || maxChars - 81 <= 2 * h <= maxChars - 80)
  {
    var h := Half(maxChars);
    assert TruncateText(text, maxChars) == text[..h] + TRUNCATED + text[|text| - h..];
  }

  /**
   The program always renders with the limit of 5000, and that is respected: longer diffs keep their first and
   their last 2460 characters, and the rendered text is longer than the diff's share by the path and a fixed frame.
   */
  lemma RenderedDiffFits(item: Item)
    ensures var cut := TruncateText(item.diff, MAX_DIFF_CHARS_PER_FILE);
            && |cut| <= MAX_DIFF_CHARS_PER_FILE
            && (|item.diff| <= MAX_DIFF_CHARS_PER_FILE ==> cut == item.diff)
            && (|item.diff| > MAX_DIFF_CHARS_PER_FILE ==>
                  cut == item.diff[..2460] + TRUNCATED + item.diff[|item.diff| - 2460..])
            && RenderedLength(item) == |item.shownPath| + 15 + if cut == "" then 27 else |cut|
  {
    TruncationFits(item.diff, MAX_DIFF_CHARS_PER_FILE);
    if |item.diff| > MAX_DIFF_CHARS_PER_FILE { CutInHalves(item.diff); }
    RenderedFrame(item, MAX_DIFF_CHARS_PER_FILE);
    hide TruncateText, RenderDiffItem;
  }

  lemma CutInHalves(text: string)
    requires |text| > MAX_DIFF_CHARS_PER_FILE
    ensures TruncateText(text, MAX_DIFF_CHARS_PER_FILE) == text[..2460] + TRUNCATED + text[|text| - 2460..]
  {
  }

  lemma RenderedFrame(item: Item, maxDiffChars: int)
    ensures var cut := TruncateText(item.diff, maxDiffChars);
            |RenderDiffItem(item, maxDiffChars)| == |item.shownPath| + 13 + if cut == "" then 27 else |cut|
  {
    hide TruncateText;
  }

  /** The path on the first line, then a line that announces the diff, then the diff or a remark that there is none. */
  lemma RenderedLines(item: Item, maxDiffChars: int)
    ensures var text, cut := RenderDiffItem(item, maxDiffChars), TruncateText(item.diff, maxDiffChars);
            && "FILE: " + item.shownPath + "\nDIFF:\n" <= text
            && text[|item.shownPath| + 13..] == if |cut| > 0 then cut else "[no textual diff available]"
  {
    hide TruncateText;
    var cut := TruncateText(item.diff, maxDiffChars);
    var start, shown := "FILE: " + item.shownPath + "\nDIFF:\n", if |cut| > 0 then cut else "[no textual diff available]";
    assert RenderDiffItem(item, maxDiffChars) == start + shown;
  }

  /** As a fact about the function alone: below 618 a short text even comes out twice. */
  lemma ShortLimitRepeats(text: string, maxChars: int)
    requires maxChars < |text| <= 300
    ensures TruncateText(text, maxChars) == text + TRUNCATED + text
  {
  }

  function RenderedLength(item: Item): nat { |RenderDiffItem(item, MAX_DIFF_CHARS_PER_FILE)| + 2 }

  function Chars(items: seq<Item>): nat {
    if items == [] then 0 else Chars(items[..|items| - 1]) + RenderedLength(items[|items| - 1])
  }

  /** The rendered diffs with an empty line between them, as they go into a prompt. */
  function RenderAllDiffs(items: seq<Item>): string {
    if items == [] then ""
    else
      var last := RenderDiffItem(items[|items| - 1], MAX_DIFF_CHARS_PER_FILE);
      if |items| == 1 then last else RenderAllDiffs(items[..|items| - 1]) + "\n\n" + last
  }

  /** The running count is exact: two more per file than the file's text are the separators, and one too many of them. */
  lemma {:induction false} CharsAreExact(items: seq<Item>)
    requires items != []
    ensures |RenderAllDiffs(items)| + 2 == Chars(items)
  {
    hide RenderDiffItem;
    if |items| == 1 {
      assert items[..0] == [];
    } else {
      CharsAreExact(items[..|items| - 1]);
    }
  }

  // What a split should be

  function Flat(parts: seq<seq<Item>>): seq<Item> {
    if parts == [] then [] else parts[0] + Flat(parts[1..])
  }

  /** A single item, or several within both limits. */
  predicate Fits(items: seq<Item>, fileLimit: int, charLimit: int) {
    |items| <= 1 || (|items| <= fileLimit && Chars(items) <= charLimit)
  }

  ghost predicate IsSplit(parts: seq<seq<Item>>, items: seq<Item>, fileLimit: int, charLimit: int) {
    && Flat(parts) == items
    && forall i :: 0 <= i < |parts| ==> Fits(parts[i], fileLimit, charLimit)
  }

  ghost predicate IsLeastSplit(parts: seq<seq<Item>>, items: seq<Item>, fileLimit: int, charLimit: int) {
    && IsSplit(parts, items, fileLimit, charLimit)
    && (forall i :: 0 <= i < |parts| ==> parts[i] != [])
    && forall other :: IsSplit(other, items, fileLimit, charLimit) ==> |parts| <= |other|
  }

  predicate Full(items: seq<Item>, next: Item, fileLimit: int, charLimit: int) {
    |items| >= fileLimit || Chars(items) + RenderedLength(next) > charLimit
  }

  /** No batch has room for the first item of the batch behind it. */
  ghost predicate Greedy(parts: seq<seq<Item>>, fileLimit: int, charLimit: int) {
    && (forall i :: 0 <= i < |parts| ==> parts[i] != [])
    && forall i :: 0 < i < |parts| ==> Full(parts[i - 1], parts[i][0], fileLimit, charLimit)
  }

  lemma {:induction false} CharsConcat(a: seq<Item>, b: seq<Item>)
    ensures Chars(a + b) == Chars(a) + Chars(b)
  {
    hide RenderedLength;
    if b == [] {
      assert a + b == a;
    } else {
      CharsConcat(a, b[..|b| - 1]);
      assert (a + b)[..|a + b| - 1] == a + b[..|b| - 1];
    }
  }

  lemma {:induction false} FlatConcat(a: seq<seq<Item>>, b: seq<seq<Item>>)
    ensures Flat(a + b) == Flat(a) + Flat(b)
  {
    if a == [] {
      assert a + b == b;
    } else {
      FlatConcat(a[1..], b);
      assert (a + b)[1..] == a[1..] + b;
      assert a[0] + (Flat(a[1..]) + Flat(b)) == (a[0] + Flat(a[1..])) + Flat(b);
    }
  }

  lemma FlatSnoc(parts: seq<seq<Item>>, last: seq<Item>)
    ensures Flat(parts + [last]) == Flat(parts) + last
  {
    FlatConcat(parts, [last]);
    assert [last][1..] == [];
  }

  /** A piece of several items inside a fitting batch leaves room for its own last item. */
  lemma PieceIsNotFull(batch: seq<Item>, k: nat, n: nat, fileLimit: int, charLimit: int)
    requires 0 < n && k + n < |batch| && Fits(batch, fileLimit, charLimit)
    ensures !Full(batch[k..k + n], batch[k + n], fileLimit, charLimit)
  {
    hide RenderedLength;
    var piece, next := batch[k..k + n], batch[k + n];
    assert batch == batch[..k] + (piece + [next]) + batch[k + n + 1..];
    CharsConcat(batch[..k] + (piece + [next]), batch[k + n + 1..]);
    CharsConcat(batch[..k], piece + [next]);
    assert (piece + [next])[..n] == piece;
  }

  /** When the greedy split is `k` items ahead, its next batch ends no earlier than the other split's. */
  lemma StaysAhead(items: seq<Item>, k: nat, greedy: seq<seq<Item>>, first: seq<Item>, fileLimit: int, charLimit: int)
    requires k <= |items| && Flat(greedy) == items[k..] && greedy != [] && Greedy(greedy, fileLimit, charLimit)
    requires first <= items && Fits(first, fileLimit, charLimit)
    ensures |first| <= k + |greedy[0]| <= |items|
  {
    hide Chars, RenderedLength, Full, Fits;
    var n := |greedy[0]|;
    assert greedy[0] == items[k..][..n];
    if k + n < |items| {
      assert Flat(greedy[1..]) == items[k..][n..];
      assert greedy[1..] != [];
      assert greedy[1..][0][0] == items[k..][n];
      assert Full(greedy[0], greedy[1][0], fileLimit, charLimit) && greedy[1][0] == items[k + n];
      if k + n < |first| {
        assert greedy[0] == first[k..k + n] && items[k + n] == first[k + n];
        PieceIsNotFull(first, k, n, fileLimit, charLimit);
      }
    }
  }

  lemma {:induction false} GreedyIsLeast(items: seq<Item>, k: nat, greedy: seq<seq<Item>>, other: seq<seq<Item>>,
                                         fileLimit: int, charLimit: int)
    requires k <= |items| && Flat(greedy) == items[k..] && Greedy(greedy, fileLimit, charLimit)
    requires IsSplit(other, items, fileLimit, charLimit)
    ensures |greedy| <= |other|
    decreases |other|
  {
    hide Full, Fits;
    if greedy != [] {
      assert other != [];
      StaysAhead(items, k, greedy, other[0], fileLimit, charLimit);
      var rest, ahead := items[|other[0]|..], k + |greedy[0]| - |other[0]|;
      assert Flat(greedy[1..]) == items[k..][|greedy[0]|..];
      assert items[k..][|greedy[0]|..] == rest[ahead..];
      GreedyIsLeast(rest, ahead, greedy[1..], other[1..], fileLimit, charLimit);
    }
  }

  // The code

  function Limit(option: Option<int>, default: int): int {
    if option.Some? && option.value != 0 then option.value else default
  }

  /** The state of the loop over the items of a category: closed batches, the open one, and what was read. */
  ghost predicate Progress(parts: seq<seq<Item>>, current: seq<Item>, read: seq<Item>, fileLimit: int, charLimit: int) {
    && Flat(parts) + current == read
    && (current == [] ==> parts == [])
    && (forall i :: 0 <= i < |parts| ==> Fits(parts[i], fileLimit, charLimit))
    && Fits(current, fileLimit, charLimit)
    && Greedy(parts, fileLimit, charLimit)
    && (parts != [] ==> Full(parts[|parts| - 1], current[0], fileLimit, charLimit))
  }

  lemma ItemAdded(parts: seq<seq<Item>>, current: seq<Item>, read: seq<Item>, item: Item, fileLimit: int, charLimit: int)
    requires Progress(parts, current, read, fileLimit, charLimit)
    requires current == [] || !Full(current, item, fileLimit, charLimit)
    ensures Progress(parts, current + [item], read + [item], fileLimit, charLimit)
  {
    AddedFits(current, item, fileLimit, charLimit);
    hide Greedy, Full, Fits;
    assert Flat(parts) + (current + [item]) == (Flat(parts) + current) + [item];
    assert current != [] ==> (current + [item])[0] == current[0];
  }

  lemma AddedFits(current: seq<Item>, item: Item, fileLimit: int, charLimit: int)
    requires current == [] || !Full(current, item, fileLimit, charLimit)
    ensures Fits(current + [item], fileLimit, charLimit)
  {
    hide RenderedLength;
    assert (current + [item])[..|current|] == current;
  }

  lemma BatchClosed(parts: seq<seq<Item>>, current: seq<Item>, read: seq<Item>, fileLimit: int, charLimit: int)
    requires Progress(parts, current, read, fileLimit, charLimit) && current != []
    ensures Flat(parts + [current]) == read && Greedy(parts + [current], fileLimit, charLimit)
    ensures forall i :: 0 <= i < |parts + [current]| ==> Fits((parts + [current])[i], fileLimit, charLimit)
  {
    hide Full, Fits;
    FlatSnoc(parts, current);
  }

  lemma BatchStarted(parts: seq<seq<Item>>, read: seq<Item>, item: Item, fileLimit: int, charLimit: int)
    requires Flat(parts) == read && Greedy(parts, fileLimit, charLimit) && parts != []
    requires forall i :: 0 <= i < |parts| ==> Fits(parts[i], fileLimit, charLimit)
    requires Full(parts[|parts| - 1], item, fileLimit, charLimit)
    ensures Progress(parts, [item], read + [item], fileLimit, charLimit)
  {
    SingleFits(item, fileLimit, charLimit);
    hide Full, Greedy, Fits, Flat;
  }

  lemma SingleFits(item: Item, fileLimit: int, charLimit: int)
    ensures Fits([item], fileLimit, charLimit)
  {
  }

  /** The loop over the items of one category. */
  method BatchItems(items: seq<Item>, fileLimit: int, charLimit: int) returns (parts: seq<seq<Item>>)
    ensures IsLeastSplit(parts, items, fileLimit, charLimit)
  {
    hide RenderedLength, Progress, IsLeastSplit, Greedy;
    parts := [];
    var current: seq<Item> := [];
    var currentChars := 0;
    NoProgress(fileLimit, charLimit);
    for i := 0 to |items|
      invariant Progress(parts, current, items[..i], fileLimit, charLimit) && currentChars == Chars(current)
    {
      var item := items[i];
      var renderedLength := RenderedLength(item);
      assert items[..i] + [item] == items[..i + 1];
      if current != [] && (|current| >= fileLimit || currentChars + renderedLength > charLimit) {
        BatchClosed(parts, current, items[..i], fileLimit, charLimit);
        parts := parts + [current];
        BatchStarted(parts, items[..i], item, fileLimit, charLimit);
        current := [];
        currentChars := 0;
      } else {
        ItemAdded(parts, current, items[..i], item, fileLimit, charLimit);
      }
      assert (current + [item])[..|current|] == current && [] + [item] == [item];
      current := current + [item];
      currentChars := currentChars + renderedLength;
    }
    assert items[..|items|] == items;
    if current != [] {
      BatchClosed(parts, current, items, fileLimit, charLimit);
      parts := parts + [current];
    } else {
      NothingRead(parts, items, fileLimit, charLimit);
    }
    GreedyGivesLeast(parts, items, fileLimit, charLimit);
  }

  lemma NoProgress(fileLimit: int, charLimit: int)
    ensures Progress([], [], [], fileLimit, charLimit)
  {
  }

  lemma NothingRead(parts: seq<seq<Item>>, items: seq<Item>, fileLimit: int, charLimit: int)
    requires Progress(parts, [], items, fileLimit, charLimit)
    ensures parts == [] && items == [] && Flat(parts) == items && Greedy(parts, fileLimit, charLimit)
  {
  }

  lemma GreedyGivesLeast(parts: seq<seq<Item>>, items: seq<Item>, fileLimit: int, charLimit: int)
    requires Flat(parts) == items && Greedy(parts, fileLimit, charLimit)
    requires forall i :: 0 <= i < |parts| ==> Fits(parts[i], fileLimit, charLimit)
    ensures IsLeastSplit(parts, items, fileLimit, charLimit)
  {
    hide Full, Fits, Flat;
    assert items[0..] == items;
    forall other | IsSplit(other, items, fileLimit, charLimit) ensures |parts| <= |other| {
      GreedyIsLeast(items, 0, parts, other, fileLimit, charLimit);
    }
  }

  /** The items of a category, in the order given. */
  function Group(diffs: seq<Item>, c: Category): seq<Item> {
    if diffs == [] then []
    else
      var last := diffs[|diffs| - 1];
      Group(diffs[..|diffs| - 1], c) + if last.category == c then [last] else []
  }

  lemma CategoryHasRank(c: Category)
    ensures c in CATEGORY_ORDER
  {
    assert CATEGORY_ORDER[Rank(c)] == c;
  }

  method GroupItems(diffs: seq<Item>) returns (groups: map<Category, seq<Item>>)
    ensures forall c :: c in groups && groups[c] == Group(diffs, c)
  {
    forall c ensures c in CATEGORY_ORDER { CategoryHasRank(c); }
    groups := map c | c in CATEGORY_ORDER :: [];
    assert diffs[..0] == [];
    for i := 0 to |diffs|
      invariant forall c :: c in groups && groups[c] == Group(diffs[..i], c)
    {
      groups := groups[diffs[i].category := groups[diffs[i].category] + [diffs[i]]];
      assert diffs[..i + 1][..i] == diffs[..i];
    }
    assert diffs[..|diffs|] == diffs;
  }

  /** The batches of a category, as lists of items. */
  function PartsOf(batches: seq<Batch>, c: Category): seq<seq<Item>> {
    if batches == [] then []
    else
      var last := batches[|batches| - 1];
      PartsOf(batches[..|batches| - 1], c) + if last.category == c then [last.items] else []
  }

  function Tagged(parts: seq<seq<Item>>, c: Category): seq<Batch> {
    seq(|parts|, i requires 0 <= i < |parts| => Batch(c, parts[i]))
  }

  lemma {:induction false} PartsOfTagged(batches: seq<Batch>, parts: seq<seq<Item>>, c: Category, d: Category)
    ensures PartsOf(batches + Tagged(parts, c), d) == if d == c then PartsOf(batches, d) + parts else PartsOf(batches, d)
  {
    if parts == [] {
      assert batches + Tagged(parts, c) == batches;
    } else {
      var front, last := parts[..|parts| - 1], parts[|parts| - 1];
      PartsOfTagged(batches, front, c, d);
      var all := batches + Tagged(parts, c);
      assert all[..|all| - 1] == batches + Tagged(front, c) && all[|all| - 1] == Batch(c, last);
      assert parts == front + [last];
    }
  }

  ghost predicate InCategoryOrder(batches: seq<Batch>) {
    forall i, j :: 0 <= i < j < |batches| ==> Rank(batches[i].category) <= Rank(batches[j].category)
  }

  ghost predicate BatchesOk(batches: seq<Batch>, diffs: seq<Item>, fileLimit: int, charLimit: int) {
    && InCategoryOrder(batches)
    && forall c :: IsLeastSplit(PartsOf(batches, c), Group(diffs, c), fileLimit, charLimit)
  }

  lemma NothingToSplit(fileLimit: int, charLimit: int)
    ensures IsLeastSplit([], [], fileLimit, charLimit)
  {
  }

  lemma PartsOfNew(batches: seq<Batch>, parts: seq<seq<Item>>, c: Category, d: Category)
    requires PartsOf(batches, c) == []
    ensures PartsOf(batches + Tagged(parts, c), d) == if d == c then parts else PartsOf(batches, d)
  {
    hide *;
    PartsOfTagged(batches, parts, c, d);
  }

  /** The first `k` categories have their least splits, and nothing else is there. */
  ghost predicate BatchedUpTo(batches: seq<Batch>, diffs: seq<Item>, k: nat, fileLimit: int, charLimit: int) {
    && InCategoryOrder(batches)
    && (forall i :: 0 <= i < |batches| ==> Rank(batches[i].category) < k)
    && (forall c :: Rank(c) < k ==> IsLeastSplit(PartsOf(batches, c), Group(diffs, c), fileLimit, charLimit))
    && (forall c :: Rank(c) >= k ==> PartsOf(batches, c) == [])
  }

  lemma OrderKept(batches: seq<Batch>, parts: seq<seq<Item>>, c: Category)
    requires InCategoryOrder(batches) && forall i :: 0 <= i < |batches| ==> Rank(batches[i].category) < Rank(c)
    ensures var more := batches + Tagged(parts, c);
            InCategoryOrder(more) && forall i :: 0 <= i < |more| ==> Rank(more[i].category) < Rank(c) + 1
  {
    hide Rank;
  }

  lemma CategoryAdded(batches: seq<Batch>, parts: seq<seq<Item>>, c: Category, diffs: seq<Item>, fileLimit: int, charLimit: int)
    requires BatchedUpTo(batches, diffs, Rank(c), fileLimit, charLimit)
    requires IsLeastSplit(parts, Group(diffs, c), fileLimit, charLimit)
    ensures BatchedUpTo(batches + Tagged(parts, c), diffs, Rank(c) + 1, fileLimit, charLimit)
  {
    hide IsLeastSplit, Group, PartsOf, InCategoryOrder, Tagged;
    var more := batches + Tagged(parts, c);
    OrderKept(batches, parts, c);
    assert PartsOf(batches, c) == [];
    forall d ensures PartsOf(more, d) == if d == c then parts else PartsOf(batches, d) {
      PartsOfNew(batches, parts, c, d);
    }
    forall d | Rank(d) < Rank(c) + 1 ensures IsLeastSplit(PartsOf(more, d), Group(diffs, d), fileLimit, charLimit) {
      if d != c { assert Rank(d) < Rank(c); }
    }
  }

  method BatchAll(diffs: seq<Item>, fileLimit: int, charLimit: int) returns (batches: seq<Batch>)
    ensures BatchesOk(batches, diffs, fileLimit, charLimit)
  {
    hide IsLeastSplit, Group, PartsOf, InCategoryOrder;
    var groups := GroupItems(diffs);
    batches := [];
    NothingBatched(diffs, fileLimit, charLimit);
    for k := 0 to |CATEGORY_ORDER|
      invariant BatchedUpTo(batches, diffs, k, fileLimit, charLimit)
    {
      var category := CATEGORY_ORDER[k];
      assert Rank(category) == k;
      var items := groups[category];
      NothingToSplit(fileLimit, charLimit);
      if items != [] {
        var parts := BatchItems(items, fileLimit, charLimit);
        CategoryAdded(batches, parts, category, diffs, fileLimit, charLimit);
        batches := batches + Tagged(parts, category);
      } else {
        CategoryAdded(batches, [], category, diffs, fileLimit, charLimit);
        assert batches + Tagged([], category) == batches;
      }
    }
  }

  lemma NothingBatched(diffs: seq<Item>, fileLimit: int, charLimit: int)
    ensures BatchedUpTo([], diffs, 0, fileLimit, charLimit)
  {
  }

  function Plain(labelled: seq<Labelled>): seq<Batch> {
    seq(|labelled|, i requires 0 <= i < |labelled| => labelled[i].batch)
  }

  /** The label of batch `i`: its number among the batches of its category, when there are several. */
  function LabelOf(batches: seq<Batch>, i: nat): Label
    requires i < |batches|
  {
    var c := batches[i].category;
    var total := |PartsOf(batches, c)|;
    if total > 1 then Part(c, |PartsOf(batches[..i + 1], c)|, total) else Whole(c)
  }

  lemma NoParts(batches: seq<Batch>, c: Category)
    ensures PartsOf(batches[..0], c) == []
  {
  }

  lemma OneMorePart(batches: seq<Batch>, i: nat, c: Category)
    requires i < |batches|
    ensures |PartsOf(batches[..i + 1], c)| == |PartsOf(batches[..i], c)| + if batches[i].category == c then 1 else 0
  {
    assert batches[..i + 1][..i] == batches[..i];
  }

  /** The greedy batches, category by category: least splits of the input, numbered in order. */
  method BuildSemanticBatches(diffs: seq<Item>, charOption: Option<int>, fileOption: Option<int>)
    returns (labelled: seq<Labelled>)
    // an option that is missing or zero stands for ten files, or for 12000 characters
    ensures BatchesOk(Plain(labelled), diffs, if fileOption.Some? && fileOption.value != 0 then fileOption.value else 10,
                      if charOption.Some? && charOption.value != 0 then charOption.value else 12000)
    ensures forall i :: 0 <= i < |labelled| ==> labelled[i].tag == LabelOf(Plain(labelled), i)
  {
    hide BatchesOk, PartsOf;
    var charLimit := Limit(charOption, BATCH_CHAR_LIMIT);
    var fileLimit := Limit(fileOption, MAX_FILES_PER_BATCH);
    var batches := BatchAll(diffs, fileLimit, charLimit);
    labelled := [];
    var categoryParts: map<Category, nat> := map[];
    forall c { NoParts(batches, c); }
    for i := 0 to |batches|
      invariant |labelled| == i && forall j :: 0 <= j < i ==> labelled[j] == Labelled(batches[j], LabelOf(batches, j))
      invariant forall c :: (if c in categoryParts then categoryParts[c] else 0) == |PartsOf(batches[..i], c)|
    {
      var batch := batches[i];
      forall c { OneMorePart(batches, i, c); }
      var part := (if batch.category in categoryParts then categoryParts[batch.category] else 0) + 1;
      categoryParts := categoryParts[batch.category := part];
      var totalParts := |PartsOf(batches, batch.category)|;
      var tag := if totalParts > 1 then Part(batch.category, part, totalParts) else Whole(batch.category);
      labelled := labelled + [Labelled(batch, tag)];
    }
    assert Plain(labelled) == batches;
  }

  // What follows for the whole result

  lemma {:induction false} PartsGrow(batches: seq<Batch>, i: nat, c: Category)
    requires i <= |batches|
    ensures PartsOf(batches[..i], c) <= PartsOf(batches, c)
    decreases |batches|
  {
    if i < |batches| {
      PartsGrow(batches[..|batches| - 1], i, c);
      assert batches[..|batches| - 1][..i] == batches[..i];
    } else {
      assert batches[..i] == batches;
    }
  }

  /** The number in a label is between 1 and the total, and says which of the category's batches it is. */
  lemma PartsAreNumbered(batches: seq<Batch>, i: nat)
    requires i < |batches|
    ensures var c := batches[i].category;
            var part, total := |PartsOf(batches[..i + 1], c)|, |PartsOf(batches, c)|;
            && 1 <= part <= total && PartsOf(batches, c)[part - 1] == batches[i].items
            && LabelOf(batches, i) == if total > 1 then Part(c, part, total) else Whole(c)
  {
    var c := batches[i].category;
    PartsGrow(batches, i + 1, c);
    assert batches[..i + 1][..i] == batches[..i];
    var parts := PartsOf(batches[..i + 1], c);
    assert parts == PartsOf(batches[..i], c) + [batches[i].items];
    assert parts[|parts| - 1] == batches[i].items;
  }

  lemma LabelsAreDistinct(batches: seq<Batch>, i: nat, j: nat)
    requires i < j < |batches|
    ensures LabelOf(batches, i) != LabelOf(batches, j)
  {
    var c := batches[j].category;
    if batches[i].category == c {
      PartsAreNumbered(batches, i);
      PartsAreNumbered(batches, j);
      PartsGrow(batches[..j], i + 1, c);
      assert batches[..j][..i + 1] == batches[..i + 1] && batches[..j + 1][..j] == batches[..j];
    }
  }

  function AllItems(batches: seq<Batch>): seq<Item> {
    if batches == [] then [] else AllItems(batches[..|batches| - 1]) + batches[|batches| - 1].items
  }

  predicate OfCategory(items: seq<Item>, c: Category) {
    forall i :: 0 <= i < |items| ==> items[i].category == c
  }

  lemma {:induction false} GroupConcat(a: seq<Item>, b: seq<Item>, c: Category)
    ensures Group(a + b, c) == Group(a, c) + Group(b, c)
  {
    if b == [] {
      assert a + b == a;
    } else {
      GroupConcat(a, b[..|b| - 1], c);
      assert (a + b)[..|a + b| - 1] == a + b[..|b| - 1];
    }
  }

  lemma {:induction false} GroupOfSame(items: seq<Item>, c: Category, d: Category)
    requires OfCategory(items, c)
    ensures Group(items, d) == if d == c then items else []
  {
    if items != [] {
      GroupOfSame(items[..|items| - 1], c, d);
      assert items == items[..|items| - 1] + [items[|items| - 1]];
    }
  }

  lemma {:induction false} GroupsAreOfCategory(diffs: seq<Item>, c: Category)
    ensures OfCategory(Group(diffs, c), c)
  {
    if diffs != [] { GroupsAreOfCategory(diffs[..|diffs| - 1], c); }
  }

  /** A batch is a piece of the flattened batches of its category. */
  lemma {:induction false} PartIsOfCategory(parts: seq<seq<Item>>, i: nat, c: Category)
    requires i < |parts| && OfCategory(Flat(parts), c)
    ensures OfCategory(parts[i], c)
  {
    assert Flat(parts) == parts[0] + Flat(parts[1..]);
    if i > 0 {
      forall j | 0 <= j < |Flat(parts[1..])| ensures Flat(parts[1..])[j].category == c {
        assert Flat(parts)[|parts[0]| + j] == Flat(parts[1..])[j];
      }
      PartIsOfCategory(parts[1..], i - 1, c);
    } else {
      forall j | 0 <= j < |parts[0]| ensures parts[0][j].category == c { assert Flat(parts)[j] == parts[0][j]; }
    }
  }

  lemma {:induction false} GroupOfAll(batches: seq<Batch>, c: Category)
    requires forall i :: 0 <= i < |batches| ==> OfCategory(batches[i].items, batches[i].category)
    ensures Group(AllItems(batches), c) == Flat(PartsOf(batches, c))
  {
    if batches != [] {
      var front, last := batches[..|batches| - 1], batches[|batches| - 1];
      GroupOfAll(front, c);
      GroupConcat(AllItems(front), last.items, c);
      GroupOfSame(last.items, last.category, c);
      FlatSnoc(PartsOf(front, c), last.items);
      assert PartsOf(front, c) + [] == PartsOf(front, c) && Flat(PartsOf(front, c)) + [] == Flat(PartsOf(front, c));
    }
  }

  lemma {:induction false} SameGroupsSameItems(a: seq<Item>, x: Item)
    ensures multiset(a)[x] == multiset(Group(a, x.category))[x]
  {
    if a != [] {
      var front, last := a[..|a| - 1], a[|a| - 1];
      SameGroupsSameItems(front, x);
      assert a == front + [last];
    }
  }

  lemma BatchIsOfCategory(batches: seq<Batch>, diffs: seq<Item>, fileLimit: int, charLimit: int, i: nat)
    requires BatchesOk(batches, diffs, fileLimit, charLimit) && i < |batches|
    ensures batches[i].items != [] && OfCategory(batches[i].items, batches[i].category)
  {
    hide Group, PartsOf, IsLeastSplit, OfCategory, InCategoryOrder, LabelOf;
    var c := batches[i].category;
    assert IsLeastSplit(PartsOf(batches, c), Group(diffs, c), fileLimit, charLimit);
    PartsAreNumbered(batches, i);
    GroupsAreOfCategory(diffs, c);
    PartOfLeastSplit(PartsOf(batches, c), Group(diffs, c), fileLimit, charLimit, |PartsOf(batches[..i + 1], c)| - 1, c);
  }

  lemma PartOfLeastSplit(parts: seq<seq<Item>>, items: seq<Item>, fileLimit: int, charLimit: int, i: nat, c: Category)
    requires IsLeastSplit(parts, items, fileLimit, charLimit) && OfCategory(items, c) && i < |parts|
    ensures parts[i] != [] && OfCategory(parts[i], c)
  {
    hide OfCategory, Flat;
    PartIsOfCategory(parts, i, c);
  }

  lemma SameGroupsSameMultiset(a: seq<Item>, b: seq<Item>)
    requires forall c :: Group(a, c) == Group(b, c)
    ensures multiset(a) == multiset(b)
  {
    hide Group;
    forall x ensures multiset(a)[x] == multiset(b)[x] {
      SameGroupsSameItems(a, x);
      SameGroupsSameItems(b, x);
    }
  }

  /**
   Every item of the input is in exactly one batch, and in a batch of its own category; within a category the
   batches keep the order of the input.
   */
  lemma BatchesPartition(batches: seq<Batch>, diffs: seq<Item>, fileLimit: int, charLimit: int)
    requires BatchesOk(batches, diffs, fileLimit, charLimit)
    ensures multiset(AllItems(batches)) == multiset(diffs)
    ensures forall i :: 0 <= i < |batches| ==> batches[i].items != [] && OfCategory(batches[i].items, batches[i].category)
    ensures forall c :: Group(AllItems(batches), c) == Group(diffs, c)
  {
    hide Group, PartsOf, Flat, OfCategory, AllItems, InCategoryOrder;
    forall i | 0 <= i < |batches| ensures batches[i].items != [] && OfCategory(batches[i].items, batches[i].category) {
      BatchIsOfCategory(batches, diffs, fileLimit, charLimit, i);
    }
    forall c ensures Group(AllItems(batches), c) == Group(diffs, c) {
      GroupOfAll(batches, c);
      assert IsLeastSplit(PartsOf(batches, c), Group(diffs, c), fileLimit, charLimit);
    }
    SameGroupsSameMultiset(AllItems(batches), diffs);
  }

  /** With the default limits only a path of some seven thousand characters can push a batch over the limit. */
  lemma DefaultBatchesFit(items: seq<Item>)
    requires Fits(items, 10, 12000)
    requires forall i :: 0 <= i < |items| ==> |items[i].shownPath| <= 6985
    ensures |items| <= 10 && Chars(items) <= 12000
  {
    if |items| == 1 {
      TruncationFits(items[0].diff, MAX_DIFF_CHARS_PER_FILE);
      assert items[..0] == [];
    }
  }
}
