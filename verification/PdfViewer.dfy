/**
 * The resume viewer (components/pdf-viewer.tsx): the locator that picks the
 * widest cluster of page fragments occurring in the highlighted text, the
 * per-fragment renderer that wraps a fragment of that cluster in `<mark>`,
 * and the page and rotation controls.
 */
module PdfViewer {
  import Text

  /** The `{ length, startIndex }` record `findLargestWindowFromIndexed` returns. */
  datatype Window = Window(length: int, startIndex: int)

  /** The largest gap between consecutive fragment positions `textRenderer` tolerates. */
  const HighlightGapThreshold: int := 20

  /** The original positions of an indexed list. */
  function Indices(items: seq<(int, string)>): (r: seq<int>)
    ensures |r| == |items|
    ensures forall i :: 0 <= i < |items| ==> r[i] == items[i].0
  {
    seq(|items|, i requires 0 <= i < |items| => items[i].0)
  }

  predicate StrictlyAscending(idx: seq<int>) {
    forall p, q :: 0 <= p < q < |idx| ==> idx[p] < idx[q]
  }

  /** The distance between the original positions of items `p - 1` and `p`. */
  function Gap(idx: seq<int>, p: int): int
    requires 0 < p < |idx|
  {
    idx[p] - idx[p - 1]
  }

  /**
   * The position at which the run holding position `i` begins: runs are
   * maximal stretches whose consecutive gaps are all at most `threshold`.
   */
  function RunFirst(idx: seq<int>, threshold: int, i: nat): (f: nat)
    requires i < |idx|
    ensures f <= i
  {
    if i == 0 then 0
    else if Gap(idx, i) > threshold then i
    else RunFirst(idx, threshold, i - 1)
  }

  /** The run through `i` has every gap within the threshold, and a larger gap (or the start) before it. */
  lemma {:induction false} RunFirstIsRunStart(idx: seq<int>, threshold: int, i: nat)
    requires i < |idx|
    ensures var f := RunFirst(idx, threshold, i);
      && (forall p :: f < p <= i ==> Gap(idx, p) <= threshold)
      && (f == 0 || Gap(idx, f) > threshold)
  {
    if i > 0 && Gap(idx, i) <= threshold {
      RunFirstIsRunStart(idx, threshold, i - 1);
    }
  }

  /** The width, in original positions, of the run from its first item up to position `i`. */
  function Span(idx: seq<int>, threshold: int, i: nat): int
    requires i < |idx|
  {
    idx[i] - idx[RunFirst(idx, threshold, i)] + 1
  }

  function Spans(idx: seq<int>, threshold: int): (r: seq<int>)
    ensures |r| == |idx|
    ensures forall i :: 0 <= i < |idx| ==> r[i] == Span(idx, threshold, i)
  {
    seq(|idx|, i requires 0 <= i < |idx| => Span(idx, threshold, i))
  }

  /** The first position holding the largest value of `xs`. */
  function FirstArgMax(xs: seq<int>): (k: nat)
    requires |xs| > 0
    ensures k < |xs|
    ensures forall j :: 0 <= j < |xs| ==> xs[j] <= xs[k]
    ensures forall j :: 0 <= j < k ==> xs[j] < xs[k]
  {
    if |xs| == 1 then 0
    else
      var m := FirstArgMax(xs[..|xs| - 1]);
      if xs[|xs| - 1] > xs[m] then |xs| - 1 else m
  }

  /** The position where the chosen window ends. */
  function ChosenEnd(idx: seq<int>, threshold: int): nat
    requires |idx| > 0
  {
    FirstArgMax(Spans(idx, threshold))
  }

  /**
   * The window the locator is meant to find: empty for no input; otherwise
   * the widest run, the earliest one on ties.
   */
  function LargestWindow(idx: seq<int>, threshold: int): (w: Window)
    ensures idx == [] ==> w == Window(0, -1)
    ensures idx != [] ==> w.length >= 1
  {
    if idx == [] then Window(0, -1)
    else
      var k := ChosenEnd(idx, threshold);
      assert Span(idx, threshold, 0) == 1;
      Window(Span(idx, threshold, k), idx[RunFirst(idx, threshold, k)])
  }

  /** Where the run through position `i` starts: at `i` after a large gap, else where the run through `i - 1` starts. */
  lemma RunStartStep(idx: seq<int>, threshold: int, i: nat)
    requires 0 < i < |idx|
    ensures idx[RunFirst(idx, threshold, i)] == if idx[i] - idx[i - 1] > threshold then idx[i] else idx[RunFirst(idx, threshold, i - 1)]
    ensures Span(idx, threshold, i) == idx[i] - idx[RunFirst(idx, threshold, i)] + 1
  {
  }

  /** The position a left-to-right scan of the first `i` spans keeps: it moves only to a strictly wider run. */
  function ScanBest(idx: seq<int>, threshold: int, i: nat): (m: nat)
    requires 0 < i <= |idx|
    ensures m < i
  {
    if i == 1 then 0
    else
      var m := ScanBest(idx, threshold, i - 1);
      if Span(idx, threshold, i - 1) > Span(idx, threshold, m) then i - 1 else m
  }

  /** The scan keeps the first position of the widest run. */
  lemma {:induction false} ScanBestIsFirstArgMax(idx: seq<int>, threshold: int, i: nat)
    requires 0 < i <= |idx|
    ensures ScanBest(idx, threshold, i) == FirstArgMax(Spans(idx, threshold)[..i])
  {
    var spans := Spans(idx, threshold);
    if i > 1 {
      ScanBestIsFirstArgMax(idx, threshold, i - 1);
      assert spans[..i][..i - 1] == spans[..i - 1];
    }
  }

  /** `findLargestWindowFromIndexed`: one scan, extending or restarting the current run. */
  method FindLargestWindowFromIndexed(indexedItems: seq<(int, string)>, threshold: int) returns (w: Window)
    ensures w == LargestWindow(Indices(indexedItems), threshold)
  {
    if |indexedItems| == 0 {
      return Window(0, -1);
    }
    ghost var idx := Indices(indexedItems);
    var maxStart := indexedItems[0].0;
    var maxLength := 1;
    var currentStart := indexedItems[0].0;
    ghost var m := 0;
    for i := 1 to |indexedItems|
      invariant m == ScanBest(idx, threshold, i)
      invariant currentStart == idx[RunFirst(idx, threshold, i - 1)]
      invariant maxLength == Span(idx, threshold, m) && maxStart == idx[RunFirst(idx, threshold, m)]
    {
      var prevIndex := indexedItems[i - 1].0;
      var currentIndex := indexedItems[i].0;
      assert prevIndex == idx[i - 1] && currentIndex == idx[i];
      RunStartStep(idx, threshold, i);
      if currentIndex - prevIndex > threshold {
        currentStart := currentIndex;
      }
      var currentLength := currentIndex - currentStart + 1;
      assert ScanBest(idx, threshold, i + 1) == if currentLength > maxLength then i else m;
      if currentLength > maxLength {
        maxLength := currentLength;
        maxStart := currentStart;
        m := i;
      }
    }
    ScanBestIsFirstArgMax(idx, threshold, |idx|);
    assert Spans(idx, threshold)[..|idx|] == Spans(idx, threshold);
    w := Window(maxLength, maxStart);
  }

  /**
   * For ascending positions the window is a maximal run: it starts and ends
   * at input positions, every gap inside it is within the threshold, and a
   * larger gap (or the end of the input) lies on each side of it.
   */
  lemma {:induction false} WindowIsMaximalRun(idx: seq<int>, threshold: int)
    requires idx != [] && StrictlyAscending(idx)
    ensures var w, k := LargestWindow(idx, threshold), ChosenEnd(idx, threshold);
      var f := RunFirst(idx, threshold, k);
      && w.startIndex == idx[f] && w.startIndex + w.length - 1 == idx[k]
      && (forall p :: f < p <= k ==> Gap(idx, p) <= threshold)
      && (f == 0 || Gap(idx, f) > threshold)
      && (k == |idx| - 1 || Gap(idx, k + 1) > threshold)
  {
    var k := ChosenEnd(idx, threshold);
    RunFirstIsRunStart(idx, threshold, k);
    if k < |idx| - 1 {
      SpanGrowsWithinRun(idx, threshold, k);
    }
  }

  /** Extending a run by one ascending position makes it strictly wider. */
  lemma SpanGrowsWithinRun(idx: seq<int>, threshold: int, k: nat)
    requires StrictlyAscending(idx) && k + 1 < |idx|
    ensures Gap(idx, k + 1) <= threshold ==> Span(idx, threshold, k + 1) > Span(idx, threshold, k)
  {
  }

  /**
   * No stretch of ascending positions whose gaps are all within the
   * threshold is wider than the window, and every run ending before the
   * window's end is strictly narrower (ties keep the earliest window).
   */
  lemma WindowIsWidest(idx: seq<int>, threshold: int, a: nat, b: nat)
    requires StrictlyAscending(idx) && a <= b < |idx|
    requires forall p :: a < p <= b ==> Gap(idx, p) <= threshold
    ensures idx[b] - idx[a] + 1 <= LargestWindow(idx, threshold).length
    ensures b < ChosenEnd(idx, threshold) ==> idx[b] - idx[a] + 1 < LargestWindow(idx, threshold).length
  {
    var f := RunFirst(idx, threshold, b);
    RunFirstIsRunStart(idx, threshold, b);
    assert f <= a;
    if f < a {
      assert idx[f] < idx[a];
    }
    var k := ChosenEnd(idx, threshold);
    var spans := Spans(idx, threshold);
    assert spans[b] == Span(idx, threshold, b) && spans[k] == Span(idx, threshold, k);
    assert LargestWindow(idx, threshold).length == spans[k];
  }

  /**
   * `textRenderer` tests `startIndex <= i <= startIndex + length`, one slot
   * past the window.  For ascending positions and a threshold of at least 1
   * that slot never holds an input position, so the test selects exactly the
   * positions of the chosen run.
   */
  lemma {:induction false} InclusiveBoundSelectsRun(idx: seq<int>, threshold: int, p: nat)
    requires idx != [] && StrictlyAscending(idx) && threshold >= 1 && p < |idx|
    ensures var w, k := LargestWindow(idx, threshold), ChosenEnd(idx, threshold);
      (w.startIndex <= idx[p] <= w.startIndex + w.length) <==> RunFirst(idx, threshold, k) <= p <= k
  {
    WindowIsMaximalRun(idx, threshold);
    var w, k := LargestWindow(idx, threshold), ChosenEnd(idx, threshold);
    var f := RunFirst(idx, threshold, k);
    assert f <= k;
    BoundsSelectRun(idx, threshold, f, k, w, p);
  }

  /** The tested bounds around a run `f..k` whose next gap exceeds a threshold of at least 1. */
  lemma BoundsSelectRun(idx: seq<int>, threshold: int, f: nat, k: nat, w: Window, p: nat)
    requires StrictlyAscending(idx) && threshold >= 1 && f <= k < |idx| && p < |idx|
    requires w.startIndex == idx[f] && w.startIndex + w.length - 1 == idx[k]
    requires k == |idx| - 1 || idx[k + 1] - idx[k] > threshold
    ensures (w.startIndex <= idx[p] <= w.startIndex + w.length) <==> f <= p <= k
  {
    if p > k + 1 {
      assert idx[k + 1] < idx[p];
    }
    if p < f {
      assert idx[p] < idx[f];
    }
    if f < p <= k {
      assert idx[f] < idx[p];
    }
    if f <= p < k {
      assert idx[p] < idx[k];
    }
  }

  /** Matches at 0, 1 and 2 form a run of width 3 that wins over a lone match at 40. */
  lemma RunBeatsIsolatedMatch()
    ensures LargestWindow([0, 1, 2, 40], HighlightGapThreshold) == Window(3, 0)
  {
    var idx := [0, 1, 2, 40];
    assert RunFirst(idx, HighlightGapThreshold, 2) == 0;
    assert RunFirst(idx, HighlightGapThreshold, 3) == 3;
    assert Spans(idx, HighlightGapThreshold) == [1, 2, 3, 1];
  }

  /** With a threshold of 0 the extra slot is reached: position 1 is selected outside the chosen run. */
  lemma InclusiveBoundOverreachesAtZero()
    ensures var idx := [0, 1]; var w := LargestWindow(idx, 0);
      ChosenEnd(idx, 0) == 0 && w.startIndex <= idx[1] <= w.startIndex + w.length
  {
    var idx := [0, 1];
    assert RunFirst(idx, 0, 1) == 1;
    assert Spans(idx, 0) == [1, 1];
  }

  /** A page fragment qualifies: non-empty, not a single space, and part of the highlighted text. */
  predicate Qualifies(subtext: string, highlighted: string) {
    subtext != "" && subtext != " " && Text.Contains(highlighted, subtext)
  }

  /** The qualifying fragments of a page, paired with their positions on it. */
  function Matches(items: seq<string>, highlighted: string): (r: seq<(int, string)>)
    ensures |r| <= |items|
    ensures forall q :: 0 <= q < |r| ==> 0 <= r[q].0 < |items| && r[q].1 == items[r[q].0] && Qualifies(r[q].1, highlighted)
  {
    if items == [] then []
    else
      var n := |items| - 1;
      var prefix := Matches(items[..n], highlighted);
      assert forall q :: 0 <= q < |prefix| ==> items[..n][prefix[q].0] == items[prefix[q].0];
      prefix + (if Qualifies(items[n], highlighted) then [(n, items[n])] else [])
  }

  /** Matches grow by at most the last fragment, at position `n`. */
  lemma MatchesSnoc(items: seq<string>, highlighted: string)
    requires items != []
    ensures var n := |items| - 1;
      Matches(items, highlighted)
        == Matches(items[..n], highlighted) + (if Qualifies(items[n], highlighted) then [(n, items[n])] else [])
  {
  }

  /** Match positions ascend strictly. */
  lemma {:induction false} MatchesAscending(items: seq<string>, highlighted: string)
    ensures StrictlyAscending(Indices(Matches(items, highlighted)))
  {
    if items != [] {
      var n := |items| - 1;
      MatchesAscending(items[..n], highlighted);
      MatchesSnoc(items, highlighted);
      var prefix := Matches(items[..n], highlighted);
      assert Indices(Matches(items, highlighted)) == Indices(prefix) + (if Qualifies(items[n], highlighted) then [n] else []);
    }
  }

  /** A fragment has a match exactly when it qualifies. */
  lemma {:induction false} MatchesQualifying(items: seq<string>, highlighted: string)
    ensures var r := Matches(items, highlighted);
      forall p :: 0 <= p < |items| ==> ((p, items[p]) in r <==> Qualifies(items[p], highlighted))
  {
    if items != [] {
      var n := |items| - 1;
      var pre := items[..n];
      MatchesQualifying(pre, highlighted);
      MatchesSnoc(items, highlighted);
      var prefix := Matches(pre, highlighted);
      var r := Matches(items, highlighted);
      assert (n, items[n]) !in prefix by {
        forall q | 0 <= q < |prefix|
          ensures prefix[q] != (n, items[n])
        {
          assert prefix[q].0 < n;
        }
      }
      forall p | 0 <= p < n
        ensures (p, items[p]) in r <==> Qualifies(items[p], highlighted)
      {
        assert pre[p] == items[p];
      }
    }
  }

  /**
   * The matches are exactly the qualifying fragments, each with its own
   * position and text, in ascending position order.
   */
  lemma MatchesFacts(items: seq<string>, highlighted: string)
    ensures var r := Matches(items, highlighted);
      forall q :: 0 <= q < |r| ==> 0 <= r[q].0 < |items| && r[q].1 == items[r[q].0]
    ensures var r := Matches(items, highlighted);
      forall p :: 0 <= p < |items| ==> ((p, items[p]) in r <==> Qualifies(items[p], highlighted))
    ensures StrictlyAscending(Indices(Matches(items, highlighted)))
  {
    MatchesQualifying(items, highlighted);
    MatchesAscending(items, highlighted);
  }

  /** An empty highlight matches no fragment. */
  lemma {:induction false} EmptyHighlightMatchesNothing(items: seq<string>)
    ensures Matches(items, "") == []
  {
    if items != [] {
      var n := |items| - 1;
      EmptyHighlightMatchesNothing(items[..n]);
      if items[n] != "" {
        Text.NothingInEmpty(items[n]);
      }
    }
  }

  /** The highlight marker around a matched text. */
  function Mark(s: string): string {
    "<mark>" + s + "</mark>"
  }

  /** The fragment at `itemIndex` qualifies and falls inside the tested bounds of the window. */
  predicate ShouldMark(items: seq<string>, highlighted: string, itemIndex: int): (r: bool)
    ensures r ==> 0 <= itemIndex < |items| && (itemIndex, items[itemIndex]) in Matches(items, highlighted)
  {
    MatchesQualifying(items, highlighted);
    var w := LargestWindow(Indices(Matches(items, highlighted)), HighlightGapThreshold);
    0 <= itemIndex < |items| && Qualifies(items[itemIndex], highlighted)
      && w.startIndex <= itemIndex <= w.startIndex + w.length
  }

  /**
   * `textRenderer` for the fragment at `itemIndex` whose text is `text`:
   * wraps the first occurrence of that fragment's string in a marker when
   * it belongs to the window, and leaves the text alone otherwise.
   */
  method RenderText(items: seq<string>, highlighted: string, text: string, itemIndex: int) returns (newText: string)
    ensures newText == if ShouldMark(items, highlighted, itemIndex)
                       then Text.ReplaceFirst(text, items[itemIndex], Mark(items[itemIndex]))
                       else text
  {
    var matches := Matches(items, highlighted);
    var w := FindLargestWindowFromIndexed(matches, HighlightGapThreshold);
    ghost var inWindow := w.startIndex <= itemIndex <= w.startIndex + w.length;
    ghost var marked := if 0 <= itemIndex < |items|
                        then Text.ReplaceFirst(text, items[itemIndex], Mark(items[itemIndex]))
                        else text;
    newText := text;
    for j := 0 to |matches|
      invariant newText == if inWindow && Seen(matches, j, itemIndex) then marked else text
    {
      var (matchIdx, matchStr) := matches[j];
      SeenStep(matches, j, itemIndex);
      if w.startIndex <= matchIdx && matchIdx <= w.startIndex + w.length && matchIdx == itemIndex {
        MatchAt(items, highlighted, j);
        assert !Seen(matches, j, itemIndex) && matchStr == items[itemIndex];
        newText := Text.ReplaceFirst(newText, matchStr, Mark(matchStr));
      }
    }
    ShouldMarkIffSeen(items, highlighted, itemIndex);
  }

  /** Some match among the first `j` is for the fragment at `itemIndex`. */
  ghost predicate Seen(matches: seq<(int, string)>, j: int, itemIndex: int)
    requires 0 <= j <= |matches|
  {
    exists q :: 0 <= q < j && matches[q].0 == itemIndex
  }

  lemma SeenStep(matches: seq<(int, string)>, j: nat, itemIndex: int)
    requires j < |matches|
    ensures Seen(matches, j + 1, itemIndex) <==> Seen(matches, j, itemIndex) || matches[j].0 == itemIndex
  {
  }

  lemma ShouldMarkIffSeen(items: seq<string>, highlighted: string, itemIndex: int)
    ensures var matches := Matches(items, highlighted);
      var w := LargestWindow(Indices(matches), HighlightGapThreshold);
      ShouldMark(items, highlighted, itemIndex) <==>
        (w.startIndex <= itemIndex <= w.startIndex + w.length && Seen(matches, |matches|, itemIndex))
  {
    var matches := Matches(items, highlighted);
    if ShouldMark(items, highlighted, itemIndex) {
      var q :| 0 <= q < |matches| && matches[q] == (itemIndex, items[itemIndex]);
      assert matches[q].0 == itemIndex;
    }
    if Seen(matches, |matches|, itemIndex) {
      var q :| 0 <= q < |matches| && matches[q].0 == itemIndex;
      assert 0 <= itemIndex < |items| && Qualifies(items[itemIndex], highlighted);
    }
  }

  /** The match at position `j` is the only one for its fragment, and carries that fragment's text. */
  lemma MatchAt(items: seq<string>, highlighted: string, j: nat)
    requires j < |Matches(items, highlighted)|
    ensures var r := Matches(items, highlighted);
      0 <= r[j].0 < |items| && r[j].1 == items[r[j].0] && !Seen(r, j, r[j].0)
  {
    var r := Matches(items, highlighted);
    MatchesFacts(items, highlighted);
    forall q | 0 <= q < j
      ensures r[q].0 != r[j].0
    {
      assert Indices(r)[q] < Indices(r)[j];
    }
  }

  /**
   * A fragment is marked exactly when it qualifies and its position lies
   * in the chosen run of qualifying positions.
   */
  lemma MarkedIffInChosenRun(items: seq<string>, highlighted: string, q: nat)
    requires q < |Matches(items, highlighted)|
    ensures var idx := Indices(Matches(items, highlighted));
      var k := ChosenEnd(idx, HighlightGapThreshold);
      ShouldMark(items, highlighted, idx[q]) <==> RunFirst(idx, HighlightGapThreshold, k) <= q <= k
  {
    var r := Matches(items, highlighted);
    var idx := Indices(r);
    MatchesFacts(items, highlighted);
    InclusiveBoundSelectsRun(idx, HighlightGapThreshold, q);
  }

  /** Nothing is marked while the highlight is empty. */
  lemma EmptyHighlightMarksNothing(items: seq<string>, itemIndex: int)
    ensures !ShouldMark(items, "", itemIndex)
  {
    EmptyHighlightMatchesNothing(items);
  }

  function Max(a: int, b: int): int { if a >= b then a else b }
  function Min(a: int, b: int): int { if a <= b then a else b }

  /** `(prev + 90) % 360`; the operand is never negative, so JavaScript's `%` agrees with Dafny's. */
  function NextRotation(r: int): int
    requires r >= 0
  {
    (r + 90) % 360
  }

  predicate RotationValid(r: int) {
    r == 0 || r == 90 || r == 180 || r == 270
  }

  /** Rotation stays among the four right angles and four steps come back to the start. */
  lemma RotationCycles(r: int)
    requires RotationValid(r)
    ensures RotationValid(NextRotation(r))
    ensures NextRotation(NextRotation(NextRotation(NextRotation(r)))) == r
  {
  }

  /** The page and rotation state of the viewer component. */
  class ViewerState {
    var numPages: int
    var pageNumber: int
    var rotation: int

    predicate PageInRange()
      reads this
    {
      1 <= pageNumber <= numPages
    }

    /** The previous-page button is enabled. */
    predicate CanGoPrev()
      reads this
    {
      !(pageNumber <= 1)
    }

    /** The next-page button is enabled. */
    predicate CanGoNext()
      reads this
    {
      !(pageNumber >= numPages)
    }

    constructor ()
      ensures numPages == 0 && pageNumber == 1 && rotation == 0
    {
      numPages, pageNumber, rotation := 0, 1, 0;
    }

    /** `onDocumentLoadSuccess`: records the page count; the page shown is kept. */
    method DocumentLoaded(n: int)
      modifies this
      ensures numPages == n && pageNumber == old(pageNumber) && rotation == old(rotation)
    {
      numPages := n;
    }

    method GoToPrevPage()
      modifies this
      ensures pageNumber == Max(old(pageNumber) - 1, 1)
      ensures numPages == old(numPages) && rotation == old(rotation)
      ensures pageNumber >= 1
      ensures old(PageInRange()) ==> PageInRange()
      ensures old(CanGoPrev()) ==> pageNumber == old(pageNumber) - 1
    {
      pageNumber := Max(pageNumber - 1, 1);
    }

    method GoToNextPage()
      modifies this
      ensures pageNumber == Min(old(pageNumber) + 1, numPages)
      ensures numPages == old(numPages) && rotation == old(rotation)
      ensures pageNumber <= numPages
      ensures old(PageInRange()) ==> PageInRange()
      ensures old(CanGoNext()) ==> pageNumber == old(pageNumber) + 1
    {
      pageNumber := Min(pageNumber + 1, numPages);
    }

    method Rotate()
      requires RotationValid(rotation)
      modifies this
      ensures rotation == NextRotation(old(rotation)) && RotationValid(rotation)
      ensures numPages == old(numPages) && pageNumber == old(pageNumber)
    {
      rotation := (rotation + 90) % 360;
    }
  }
}
