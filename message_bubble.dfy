/**
 * The layout arithmetic of a chat bubble: paragraph normalisation, the
 * short-message test, paragraph counting, the line breaker (a binary search
 * for the longest prefix that fits, then a punctuation adjustment) and the
 * bubble's size.
 *
 * `FontMetrics.stringWidth` is modelled as the sum of per-character advance
 * widths `cw`, which makes the width of a prefix grow with its length.
 */
module Bubble {
  import opened JavaText

  const MaxBubbleWidth := 400
  const MinBubbleHeight := 35
  const PaddingVertical := 16
  const PaddingHorizontal := 24
  const ParagraphSpacing := 8

  // ---------------------------------------------------------------------------
  // Paragraphs

  /** The length of the run of `'\n'` that `s` starts with. */
  function NewlineRun(s: string): (n: nat)
    ensures n <= |s|
    ensures forall k :: 0 <= k < n ==> s[k] == '\n'
    ensures n == |s| || s[n] != '\n'
  {
    if s == [] || s[0] != '\n' then 0 else 1 + NewlineRun(s[1..])
  }

  /** No three `'\n'` in a row. */
  predicate NoTripleNewline(s: string) {
    forall i :: 0 <= i < |s| - 2 ==> !(s[i] == '\n' && s[i + 1] == '\n' && s[i + 2] == '\n')
  }

  /**
   * `replaceAll("\\n{2,}", "\n\n")`: scanning left to right, each maximal run
   * of two or more newlines becomes exactly two.
   */
  function ProcessParagraphs(s: string): (r: string)
    ensures |s| > 0 ==> |r| > 0 && (r[0] == '\n' <==> s[0] == '\n')
    ensures NoTripleNewline(r)
    decreases |s|
  {
    if s == [] then []
    else if s[0] != '\n' then
      var rest := ProcessParagraphs(s[1..]);
      assert forall i :: 1 <= i < |[s[0]] + rest| ==> ([s[0]] + rest)[i] == rest[i - 1];
      [s[0]] + rest
    else
      var n := NewlineRun(s);
      if n >= 2 then
        var rest := ProcessParagraphs(s[n..]);
        assert forall i :: 2 <= i < |"\n\n" + rest| ==> ("\n\n" + rest)[i] == rest[i - 2];
        "\n\n" + rest
      else
        var rest := ProcessParagraphs(s[1..]);
        assert forall i :: 1 <= i < |"\n" + rest| ==> ("\n" + rest)[i] == rest[i - 1];
        "\n" + rest
  }

  /** Text whose newline runs are at most two long is left as it is. */
  lemma {:induction false} ProcessParagraphsKeeps(s: string)
    requires NoTripleNewline(s)
    ensures ProcessParagraphs(s) == s
    decreases |s|
  {
    if s != [] {
      if s[0] != '\n' {
        ProcessParagraphsKeeps(s[1..]);
        assert s == [s[0]] + s[1..];
      } else {
        var n := NewlineRun(s);
        if |s| > 2 {
          assert !(s[0] == '\n' && s[1] == '\n' && s[2] == '\n');
        }
        if n == 2 {
          ProcessParagraphsKeeps(s[2..]);
          assert s == "\n\n" + s[2..];
        } else {
          ProcessParagraphsKeeps(s[1..]);
          assert s == "\n" + s[1..];
        }
      }
    }
  }

  /** Normalising twice is normalising once. */
  lemma ProcessParagraphsIdempotent(s: string)
    ensures ProcessParagraphs(ProcessParagraphs(s)) == ProcessParagraphs(s)
  {
    ProcessParagraphsKeeps(ProcessParagraphs(s));
  }

  /** The characters of `s` other than `'\n'`, in order. */
  function WithoutNewlines(s: string): string {
    if s == [] then [] else (if s[0] == '\n' then [] else [s[0]]) + WithoutNewlines(s[1..])
  }

  lemma {:induction false} WithoutNewlinesAppend(a: string, b: string)
    ensures WithoutNewlines(a + b) == WithoutNewlines(a) + WithoutNewlines(b)
    decreases |a|
  {
    if a == [] {
      assert a + b == b;
    } else {
      assert (a + b)[1..] == a[1..] + b;
      WithoutNewlinesAppend(a[1..], b);
    }
  }

  lemma {:induction false} WithoutNewlinesOfRun(s: string, n: nat)
    requires n <= |s| && forall k :: 0 <= k < n ==> s[k] == '\n'
    ensures WithoutNewlines(s) == WithoutNewlines(s[n..])
    decreases n
  {
    if n > 0 {
      WithoutNewlinesOfRun(s[1..], n - 1);
      assert s[1..][n - 1..] == s[n..];
    }
  }

  /** Normalising changes only newlines: every other character stays, in order. */
  lemma {:induction false} ProcessParagraphsKeepsText(s: string)
    ensures WithoutNewlines(ProcessParagraphs(s)) == WithoutNewlines(s)
    decreases |s|
  {
    if s != [] {
      if s[0] != '\n' {
        ProcessParagraphsKeepsText(s[1..]);
        WithoutNewlinesAppend([s[0]], ProcessParagraphs(s[1..]));
        assert WithoutNewlines([s[0]]) == [s[0]];
      } else {
        var n := NewlineRun(s);
        WithoutNewlinesOfRun(s, n);
        if n >= 2 {
          ProcessParagraphsKeepsText(s[n..]);
          WithoutNewlinesAppend("\n\n", ProcessParagraphs(s[n..]));
          assert WithoutNewlines("\n\n") == [];
        } else {
          ProcessParagraphsKeepsText(s[1..]);
          WithoutNewlinesAppend("\n", ProcessParagraphs(s[1..]));
          assert WithoutNewlines("\n") == [];
          WithoutNewlinesOfRun(s, 1);
        }
      }
    }
  }

  /** A message at most 30 characters long with no line break is shown on one unwrapped line. */
  predicate IsShort(content: string) {
    |content| <= 30 && '\n' !in content
  }

  /** `countParagraphs`: 1 for null or empty text, else the pieces of `split("\\n")`. */
  function CountParagraphs(text: Option<string>): (n: nat)
    ensures text.None? || text.value == "" ==> n == 1
    ensures text.Some? && '\n' !in text.value ==> n == 1
    ensures text.Some? && text.value != "" ==> n == |JavaSplit(text.value, '\n')|
  {
    if text.None? || text.value == "" then 1 else |JavaSplit(text.value, '\n')|
  }

  /** Paragraphs joined by single newlines are counted one by one. */
  lemma CountParagraphsOfJoin(paragraphs: seq<string>)
    requires |paragraphs| >= 1 && paragraphs[|paragraphs| - 1] != ""
    requires forall k :: 0 <= k < |paragraphs| ==> '\n' !in paragraphs[k]
    ensures CountParagraphs(Some(Join(paragraphs, '\n'))) == |paragraphs|
  {
    JavaSplitOfJoin(paragraphs, '\n');
    if Join(paragraphs, '\n') == "" {
      assert JavaSplit("", '\n') == [""];
    }
  }

  /** A text of newlines only has no pieces at all, so it counts no paragraph. */
  lemma CountParagraphsOfNewlines(n: nat)
    requires n > 0
    ensures CountParagraphs(Some(seq(n, _ => '\n'))) == 0
  {
    var s := seq(n, _ => '\n');
    assert s[0] == '\n';
    AllPiecesEmpty(s);
    var ps := Pieces(s, '\n');
    assert DropTrailingEmpty(ps) == [];
  }

  lemma {:induction false} AllPiecesEmpty(s: string)
    requires forall k :: 0 <= k < |s| ==> s[k] == '\n'
    ensures forall k :: 0 <= k < |Pieces(s, '\n')| ==> Pieces(s, '\n')[k] == ""
    decreases |s|
  {
    if s != [] {
      assert s[0] == '\n';
      AllPiecesEmpty(s[1..]);
    }
  }

  // ---------------------------------------------------------------------------
  // Widths

  /** `stringWidth`: the sum of the characters' advance widths. */
  function StringWidth(s: string, cw: char -> nat): nat {
    if s == [] then 0 else StringWidth(s[..|s| - 1], cw) + cw(s[|s| - 1])
  }

  /** The width of `text[start..e]`. */
  function SliceWidth(text: string, start: nat, e: nat, cw: char -> nat): nat
    requires start <= e <= |text|
  {
    StringWidth(text[start..e], cw)
  }

  lemma SliceWidthNext(text: string, start: nat, e: nat, cw: char -> nat)
    requires start <= e < |text|
    ensures SliceWidth(text, start, e + 1, cw) == SliceWidth(text, start, e, cw) + cw(text[e])
  {
    assert text[start..e + 1][..e - start] == text[start..e];
  }

  /** A longer slice from the same start is never narrower. */
  lemma {:induction false} SliceWidthMonotone(text: string, start: nat, i: nat, j: nat, cw: char -> nat)
    requires start <= i <= j <= |text|
    ensures SliceWidth(text, start, i, cw) <= SliceWidth(text, start, j, cw)
    decreases j - i
  {
    if i < j {
      SliceWidthMonotone(text, start, i, j - 1, cw);
      SliceWidthNext(text, start, j - 1, cw);
    }
  }

  // ---------------------------------------------------------------------------
  // Line breaking

  /** The largest end in `(start, e]` whose slice fits in `avail`, or `start` if none does. */
  function LargestFit(text: string, start: nat, cw: char -> nat, avail: int, e: nat): (r: nat)
    requires start <= e <= |text|
    ensures start <= r <= e
    ensures r > start ==> SliceWidth(text, start, r, cw) <= avail
    ensures forall k :: r < k <= e ==> SliceWidth(text, start, k, cw) > avail
    decreases e - start
  {
    if e == start then start
    else if SliceWidth(text, start, e, cw) <= avail then e
    else LargestFit(text, start, cw, avail, e - 1)
  }

  /** Any end that fits, above which nothing fits, is the largest fit. */
  lemma {:induction false} LargestFitIs(text: string, start: nat, cw: char -> nat, avail: int, e: nat, r: nat)
    requires start <= r <= e <= |text|
    requires r > start ==> SliceWidth(text, start, r, cw) <= avail
    requires forall k :: r < k <= e ==> SliceWidth(text, start, k, cw) > avail
    ensures LargestFit(text, start, cw, avail, e) == r
    decreases e - start
  {
    if e > r {
      LargestFitIs(text, start, cw, avail, e - 1, r);
    }
  }

  const Punctuation: string := "，。！？；：、（）【】《》" + ",.!?;:\"'()[]{}<>/\\"

  /**
   * The punctuation adjustment: a break right after a punctuation mark stays;
   * a break right before one, not at the last character, moves past it;
   * the break is always at least one character on.
   */
  function Adjusted(text: string, start: nat, best: nat): (r: nat)
    requires start <= best <= |text|
    ensures r > start && (r == best || r == best + 1 || (best == start && r == start + 1))
  {
    if best > start + 1 && best < |text| then
      if text[best - 1] in Punctuation then best
      else if text[best] in Punctuation && best < |text| - 1 then best + 1
      else best
    else if best > start + 1 then best else start + 1
  }

  /** `findBreakPoint`: where the line starting at `start` ends; it always advances. */
  function BreakPoint(text: string, start: nat, cw: char -> nat, avail: int): (r: nat)
    ensures start >= |text| ==> r == |text|
    ensures start < |text| ==> start < r <= |text|
  {
    if start >= |text| then |text|
    else if SliceWidth(text, start, |text|, cw) <= avail then |text|
    else Adjusted(text, start, LargestFit(text, start, cw, avail, |text|))
  }

  /**
   * The line a break ends: the rest of the text when it fits; otherwise at
   * most one character beyond what fits (a punctuation mark, or a single
   * character wider than the line), and one more character would not have
   * fitted.
   */
  lemma BreakPointLine(text: string, start: nat, cw: char -> nat, avail: int)
    requires start < |text|
    ensures var r := BreakPoint(text, start, cw, avail);
            && (SliceWidth(text, start, |text|, cw) <= avail ==> r == |text|)
            && (r < |text| ==> r == start + 1 || SliceWidth(text, start, r - 1, cw) <= avail)
            && (r < |text| ==> SliceWidth(text, start, r + 1, cw) > avail)
  {
    if SliceWidth(text, start, |text|, cw) > avail {
      var best := LargestFit(text, start, cw, avail, |text|);
      AdjustedLine(text, start, cw, avail, best, Adjusted(text, start, best));
    }
  }

  /** The adjusted break keeps the line within one character of the largest fit, and maximal. */
  lemma AdjustedLine(text: string, start: nat, cw: char -> nat, avail: int, best: nat, r: nat)
    requires start < |text| && SliceWidth(text, start, |text|, cw) > avail
    requires best == LargestFit(text, start, cw, avail, |text|) && r == Adjusted(text, start, best)
    ensures r < |text| ==> r == start + 1 || SliceWidth(text, start, r - 1, cw) <= avail
    ensures start < r < |text| ==> SliceWidth(text, start, r + 1, cw) > avail
  {
    assert best < |text|;
    AdjustedWithinOne(text, start, cw, avail, best, r);
    if r < |text| {
      assert best + 1 <= r + 1 <= |text|;
      SliceWidthMonotone(text, start, best + 1, r + 1, cw);
    }
  }

  lemma AdjustedWithinOne(text: string, start: nat, cw: char -> nat, avail: int, best: nat, r: nat)
    requires start <= best < |text|
    requires best > start ==> SliceWidth(text, start, best, cw) <= avail
    requires r > start && (r == best || r == best + 1 || (best == start && r == start + 1))
    ensures r == start + 1 || SliceWidth(text, start, r - 1, cw) <= avail
  {
    if r == best + 1 {
      if best > start {
        assert SliceWidth(text, start, r - 1, cw) <= avail;
      }
    } else if r == best && best > start {
      SliceWidthMonotone(text, start, best - 1, best, cw);
    }
  }

  /** The binary search of `findBreakPoint`, then the adjustment. */
  method FindBreakPoint(text: string, startIndex: nat, cw: char -> nat, availableWidth: int) returns (r: nat)
    ensures r == BreakPoint(text, startIndex, cw, availableWidth)
  {
    var textLength := |text|;
    if startIndex >= textLength {
      return textLength;
    }
    if StringWidth(text[startIndex..], cw) <= availableWidth {
      assert text[startIndex..] == text[startIndex..textLength];
      return textLength;
    }
    assert text[startIndex..] == text[startIndex..textLength];
    var low: int := startIndex;
    var high: int := textLength - 1;
    var best: nat := startIndex;
    while low <= high
      invariant startIndex <= low <= high + 1 <= textLength
      invariant best == low
      invariant low > startIndex ==> SliceWidth(text, startIndex, low, cw) <= availableWidth
      invariant forall k :: high + 1 < k <= textLength ==> SliceWidth(text, startIndex, k, cw) > availableWidth
      decreases high - low
    {
      var mid := (low + high) / 2;
      if StringWidth(text[startIndex..mid + 1], cw) <= availableWidth {
        best := mid + 1;
        low := mid + 1;
      } else {
        forall k | mid + 1 <= k <= textLength
          ensures SliceWidth(text, startIndex, k, cw) > availableWidth
        {
          SliceWidthMonotone(text, startIndex, mid + 1, k, cw);
        }
        high := mid - 1;
      }
    }
    LargestFitIs(text, startIndex, cw, availableWidth, textLength, best);
    r := Adjusted(text, startIndex, best);
  }

  /** The number of lines from `start` to the end. */
  function LinesFrom(text: string, start: nat, cw: char -> nat, maxWidth: int): (n: nat)
    ensures start >= |text| ==> n == 0
    ensures start < |text| ==> 1 <= n <= |text| - start
    decreases |text| - start
  {
    if start >= |text| then 0
    else 1 + LinesFrom(text, BreakPoint(text, start, cw, maxWidth), cw, maxWidth)
  }

  /** `calculateLineCount`: one line for empty text, else one per break. */
  function LineCount(text: string, cw: char -> nat, maxWidth: int): (n: nat)
    ensures n >= 1
    ensures text != "" ==> n <= |text|
  {
    if text == "" then 1 else LinesFrom(text, 0, cw, maxWidth)
  }

  method CalculateLineCount(text: string, cw: char -> nat, maxWidth: int) returns (lineCount: nat)
    ensures lineCount == LineCount(text, cw, maxWidth)
  {
    if text == "" {
      return 1;
    }
    lineCount := 0;
    var startIndex: nat := 0;
    while startIndex < |text|
      invariant lineCount + LinesFrom(text, startIndex, cw, maxWidth) == LinesFrom(text, 0, cw, maxWidth)
      decreases |text| - startIndex
    {
      var breakPoint := FindBreakPoint(text, startIndex, cw, maxWidth);
      lineCount := lineCount + 1;
      startIndex := breakPoint;
    }
  }

  /** Text that fits on one line takes one line. */
  lemma LineCountWhenAllFits(text: string, cw: char -> nat, maxWidth: int)
    requires SliceWidth(text, 0, |text|, cw) <= maxWidth
    ensures LineCount(text, cw, maxWidth) == 1
  {
    if text != "" {
      BreakPointLine(text, 0, cw, maxWidth);
    }
  }

  /** When no single character fits, every character takes a line of its own. */
  lemma {:induction false} LinesWhenNothingFits(text: string, start: nat, cw: char -> nat, maxWidth: int)
    requires start <= |text|
    requires forall k :: 0 <= k < |text| ==> cw(text[k]) > maxWidth
    ensures LinesFrom(text, start, cw, maxWidth) == |text| - start
    decreases |text| - start
  {
    if start < |text| {
      SliceWidthNext(text, start, start, cw);
      assert text[start..start] == [];
      assert SliceWidth(text, start, start + 1, cw) > maxWidth;
      BreakPointLine(text, start, cw, maxWidth);
      LinesWhenNothingFits(text, start + 1, cw, maxWidth);
    }
  }

  // ---------------------------------------------------------------------------
  // Size

  function Max(a: int, b: int): int { if a >= b then a else b }

  /** Lines of text, the gaps between paragraphs, and the padding. */
  function WrappedHeight(lineHeight: int, lines: nat, paragraphs: nat): int {
    lineHeight * lines + (if paragraphs > 1 then (paragraphs - 1) * ParagraphSpacing else 0) + PaddingVertical
  }

  lemma MulAtLeast(a: int, b: int)
    requires a >= 0 && b >= 1
    ensures a * b >= a
  {
    assert a * b == a + a * (b - 1);
  }

  /**
   * The size `initUI` gives a bubble for `content`, with line height
   * `lineHeight`: a short message is as wide as its text; a long one is
   * 400 wide and as tall as its wrapped lines plus paragraph spacing; never
   * lower than 35.
   */
  method BubbleSize(content: string, cw: char -> nat, lineHeight: int) returns (width: int, height: int)
    ensures height >= MinBubbleHeight
    ensures IsShort(content) ==>
              width == StringWidth(content, cw) + PaddingHorizontal && height == Max(lineHeight + PaddingVertical, MinBubbleHeight)
    ensures !IsShort(content) ==> width == MaxBubbleWidth
    ensures !IsShort(content) ==>
              height == Max(WrappedHeight(lineHeight, LineCount(ProcessParagraphs(content), cw, MaxBubbleWidth - PaddingHorizontal),
                                          CountParagraphs(Some(content))), MinBubbleHeight)
    ensures !IsShort(content) && lineHeight >= 0 ==> height >= lineHeight + PaddingVertical
  {
    var processedContent := ProcessParagraphs(content);
    var isShortMessage := |content| <= 30 && '\n' !in content;
    if isShortMessage {
      width := StringWidth(content, cw) + PaddingHorizontal;
      height := lineHeight + PaddingVertical;
    } else {
      width := MaxBubbleWidth;
      var effectiveWidth := MaxBubbleWidth - PaddingHorizontal;
      var lineCount := CalculateLineCount(processedContent, cw, effectiveWidth);
      var paragraphCount := CountParagraphs(Some(content));
      height := WrappedHeight(lineHeight, lineCount, paragraphCount);
      if lineHeight >= 0 {
        MulAtLeast(lineHeight, lineCount);
      }
    }
    height := Max(height, MinBubbleHeight);
  }
}
