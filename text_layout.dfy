/** The text layout shared by guinea/text.py, pygame_widgets/text.py and
    src/pygame_widgets/text.py: splitting text into lines, the size the lines
    need under a font's metrics, and where each line goes. */
module TextLayout {
  import opened Wrappers
  import opened Geometry
  import opened Enums
  import opened Overflow

  /** `font.size(line)`: the width and height of a rendered line. */
  type Metrics = string -> Size

  /** `' ' * n`, empty for a non-positive count. */
  function Spaces(n: int): (r: string)
    ensures forall i :: 0 <= i < |r| ==> r[i] == ' '
    decreases n
  {
    if n <= 0 then "" else [' '] + Spaces(n - 1)
  }

  /** `text.replace('\t', ' ' * tab_size)`: no tab is left, and no newline
      appears that was not there; text without tabs is unchanged. */
  function ExpandTabs(s: string, tabSize: int): (r: string)
    ensures forall i :: 0 <= i < |r| ==> r[i] != '\t'
    ensures '\n' !in s ==> '\n' !in r
    ensures '\t' !in s ==> r == s
  {
    if s == [] then []
    else (if s[0] == '\t' then Spaces(tabSize) else [s[0]]) + ExpandTabs(s[1..], tabSize)
  }

  /** The text with its newlines taken out. */
  function RemoveNewlines(s: string): string {
    if s == [] then [] else (if s[0] == '\n' then [] else [s[0]]) + RemoveNewlines(s[1..])
  }

  /** `str.split('\n')`: the pieces between newlines, always at least one. */
  function SplitLines(s: string): (r: seq<string>)
    ensures |r| >= 1
    ensures forall i :: 0 <= i < |r| ==> '\n' !in r[i]
  {
    if s == [] then [""]
    else
      var rest := SplitLines(s[1..]);
      if s[0] == '\n' then [""] + rest else [[s[0]] + rest[0]] + rest[1..]
  }

  /** `'\n'.join(lines)`. */
  function JoinLines(lines: seq<string>): string
    requires |lines| >= 1
  {
    if |lines| == 1 then lines[0] else lines[0] + "\n" + JoinLines(lines[1..])
  }

  /** Splitting and joining on newlines undo each other: joining the pieces
      gives the text back, and splitting a join of newline-free lines gives the
      lines back. */
  lemma {:induction false} SplitJoinRoundTrip(s: string)
    ensures JoinLines(SplitLines(s)) == s
  {
    if s != [] {
      SplitJoinRoundTrip(s[1..]);
      var rest := SplitLines(s[1..]);
      if s[0] == '\n' {
        assert s == [s[0]] + s[1..];
      } else {
        if |rest| == 1 {
          assert s == [s[0]] + s[1..];
        } else {
          var r := SplitLines(s);
          assert r[1..] == rest[1..];
          assert JoinLines(r) == ([s[0]] + rest[0]) + "\n" + JoinLines(rest[1..]);
          assert s == [s[0]] + s[1..];
        }
      }
    }
  }

  lemma {:induction false} JoinSplitRoundTrip(lines: seq<string>)
    requires |lines| >= 1 && forall i :: 0 <= i < |lines| ==> '\n' !in lines[i]
    ensures SplitLines(JoinLines(lines)) == lines
    decreases |lines|, |lines[0]|
  {
    if |lines| == 1 {
      NewlineFreeIsOneLine(lines[0]);
    } else {
      var head := lines[0];
      if head == [] {
        assert JoinLines(lines) == "\n" + JoinLines(lines[1..]);
        assert JoinLines(lines)[1..] == JoinLines(lines[1..]);
        JoinSplitRoundTrip(lines[1..]);
      } else {
        var shorter := [head[1..]] + lines[1..];
        assert shorter[1..] == lines[1..];
        assert '\n' !in head[1..] by {
          forall i | 0 <= i < |head[1..]| ensures head[1..][i] != '\n' {
            assert head[1..][i] == head[i + 1];
          }
        }
        JoinSplitRoundTrip(shorter);
        assert JoinLines(lines) == [head[0]] + JoinLines(shorter);
        assert JoinLines(lines)[1..] == JoinLines(shorter);
        assert head == [head[0]] + head[1..];
      }
    }
  }

  lemma {:induction false} NewlineFreeIsOneLine(s: string)
    requires '\n' !in s
    ensures SplitLines(s) == [s]
  {
    if s != [] {
      assert '\n' !in s[1..] by {
        forall i | 0 <= i < |s[1..]| ensures s[1..][i] != '\n' {
          assert s[1..][i] == s[i + 1];
        }
      }
      NewlineFreeIsOneLine(s[1..]);
      assert s == [s[0]] + s[1..];
    }
  }

  /** The pieces that are not empty, in order. */
  function DropEmpty(lines: seq<string>): (r: seq<string>)
    ensures forall i :: 0 <= i < |r| ==> r[i] != "" && r[i] in lines
  {
    if lines == [] then []
    else (if lines[0] == "" then [] else [lines[0]]) + DropEmpty(lines[1..])
  }

  /** All the lines' characters, one line after the other. */
  function Concat(lines: seq<string>): string {
    if lines == [] then "" else lines[0] + Concat(lines[1..])
  }

  /** `_split_text_lines` of guinea/text.py and the comprehension of
      pygame_widgets/text.py: tabs expanded, split on newlines, empty lines
      dropped. */
  function SplitTextLines(text: string, tabSize: int): (lines: seq<string>)
    ensures forall i :: 0 <= i < |lines| ==> lines[i] != ""
  {
    DropEmpty(SplitLines(ExpandTabs(text, tabSize)))
  }

  /** No line holds a tab or a newline or is empty, and reading the lines one
      after the other gives the tab-expanded text without its newlines, so no
      character is lost or reordered. */
  lemma SplitTextLinesKeepsText(text: string, tabSize: int)
    ensures var lines := SplitTextLines(text, tabSize);
      && (forall i :: 0 <= i < |lines| ==> lines[i] != "" && '\n' !in lines[i] && '\t' !in lines[i])
      && Concat(lines) == RemoveNewlines(ExpandTabs(text, tabSize))
  {
    var expanded := ExpandTabs(text, tabSize);
    var pieces := SplitLines(expanded);
    forall i | 0 <= i < |SplitTextLines(text, tabSize)|
      ensures '\t' !in SplitTextLines(text, tabSize)[i]
    {
      var line := SplitTextLines(text, tabSize)[i];
      var j :| 0 <= j < |pieces| && pieces[j] == line;
      PiecesAreInfixes(expanded, j);
    }
    DropEmptyKeepsConcat(pieces);
    ConcatOfSplit(expanded);
  }

  /** Every piece's characters occur in the text. */
  lemma {:induction false} PiecesAreInfixes(s: string, j: nat)
    requires j < |SplitLines(s)|
    ensures forall c :: c in SplitLines(s)[j] ==> c in s
  {
    if s != [] {
      var rest := SplitLines(s[1..]);
      if s[0] == '\n' {
        if j > 0 {
          PiecesAreInfixes(s[1..], j - 1);
        }
      } else if j == 0 {
        PiecesAreInfixes(s[1..], 0);
      } else {
        PiecesAreInfixes(s[1..], j);
      }
    }
  }

  lemma {:induction false} DropEmptyKeepsConcat(lines: seq<string>)
    ensures Concat(DropEmpty(lines)) == Concat(lines)
  {
    if lines != [] {
      DropEmptyKeepsConcat(lines[1..]);
      if lines[0] != "" {
        var d := [lines[0]] + DropEmpty(lines[1..]);
        assert DropEmpty(lines) == d;
        assert d[0] == lines[0] && d[1..] == DropEmpty(lines[1..]);
        assert Concat(d) == lines[0] + Concat(DropEmpty(lines[1..]));
      } else {
        assert DropEmpty(lines) == DropEmpty(lines[1..]);
      }
    }
  }

  lemma {:induction false} ConcatOfSplit(s: string)
    ensures Concat(SplitLines(s)) == RemoveNewlines(s)
  {
    if s != [] {
      ConcatOfSplit(s[1..]);
      var rest := SplitLines(s[1..]);
      if s[0] == '\n' {
        assert ([""] + rest)[1..] == rest;
      } else {
        var r := SplitLines(s);
        assert r[1..] == rest[1..];
        assert Concat(rest) == rest[0] + Concat(rest[1..]);
      }
    }
  }

  /** The widest line's width, 0 for no lines (the loops start from 0). */
  function MaxLineWidth(lines: seq<string>, m: Metrics): int {
    if lines == [] then 0 else Max(MaxLineWidth(lines[..|lines| - 1], m), m(lines[|lines| - 1]).w)
  }

  /** The sum of every line's height plus the spacing after it. */
  function TotalHeight(lines: seq<string>, m: Metrics, spacing: int): int {
    if lines == [] then 0 else TotalHeight(lines[..|lines| - 1], m, spacing) + m(lines[|lines| - 1]).h + spacing
  }

  /** The required width is at least every line's width and is one of them, or
      0 when no line is wider than nothing. */
  lemma {:induction false} MaxLineWidthIsWidest(lines: seq<string>, m: Metrics)
    ensures MaxLineWidth(lines, m) >= 0
    ensures forall i :: 0 <= i < |lines| ==> m(lines[i]).w <= MaxLineWidth(lines, m)
    ensures MaxLineWidth(lines, m) == 0 || exists i :: 0 <= i < |lines| && m(lines[i]).w == MaxLineWidth(lines, m)
  {
    if lines != [] {
      var init := lines[..|lines| - 1];
      MaxLineWidthIsWidest(init, m);
      forall i | 0 <= i < |init| ensures init[i] == lines[i] { }
    }
  }

  /** Line `k` starts below the lines before it: its offset is the offset of
      line `k - 1` plus that line's height and the spacing, and after the last
      line the offset is the whole height. */
  lemma OffsetsStack(lines: seq<string>, m: Metrics, spacing: int, k: nat)
    requires k < |lines|
    ensures TotalHeight(lines[..k + 1], m, spacing) == TotalHeight(lines[..k], m, spacing) + m(lines[k]).h + spacing
    ensures TotalHeight(lines[..|lines|], m, spacing) == TotalHeight(lines, m, spacing)
  {
    assert lines[..k + 1][..k] == lines[..k];
    assert lines[..|lines|] == lines;
  }

  /** `_get_x_alignment`: LEFT at 0, RIGHT against the far edge, CENTER half
      the slack under the rounding switch. */
  function XAlignment(align: TextAlign, avail: int, width: int, behavior: OverflowBehavior): (x: int)
    ensures 0 <= width <= avail ==> 0 <= x && x + width <= avail
  {
    match align
    case Left => 0
    case Right => avail - width
    case Center => Half(behavior, avail - width)
  }

  /** A line aligned LEFT touches the left edge, RIGHT the right edge, and a
      centred line leaves gaps on its two sides that differ by at most one
      pixel, the extra pixel on the right under floor and on the left under
      ceil. */
  lemma XAlignmentPlacesLine(avail: int, width: int, behavior: OverflowBehavior)
    ensures XAlignment(TextAlign.Left, avail, width, behavior) == 0
    ensures XAlignment(TextAlign.Right, avail, width, behavior) + width == avail
    ensures var x := XAlignment(TextAlign.Center, avail, width, behavior);
      var left, right := x, avail - (x + width);
      && (behavior == Underflow ==> 0 <= right - left <= 1)
      && (behavior == Overflow ==> 0 <= left - right <= 1)
  {
  }

  /** The size a text widget needs for its lines: the calculate_size loop. */
  method RequiredSize(lines: seq<string>, m: Metrics, spacing: int) returns (width: int, height: int)
    ensures width == MaxLineWidth(lines, m) && height == TotalHeight(lines, m, spacing)
  {
    width, height := 0, 0;
    for i := 0 to |lines|
      invariant width == MaxLineWidth(lines[..i], m) && height == TotalHeight(lines[..i], m, spacing)
    {
      assert lines[..i + 1][..i] == lines[..i];
      var size := m(lines[i]);
      width := Max(width, size.w);
      height := height + size.h + spacing;
    }
    assert lines[..|lines|] == lines;
  }

  /** Where each line is blitted: x aligned against the required width, y
      advancing by each line's height plus the spacing. */
  method BlitTargets(lines: seq<string>, m: Metrics, spacing: int, align: TextAlign, requiredWidth: int,
                     behavior: OverflowBehavior) returns (targets: seq<Point>)
    ensures |targets| == |lines|
    ensures forall k :: 0 <= k < |lines| ==>
      targets[k] == Point(XAlignment(align, requiredWidth, m(lines[k]).w, behavior), TotalHeight(lines[..k], m, spacing))
  {
    var currentY := 0;
    targets := [];
    for i := 0 to |lines|
      invariant |targets| == i && currentY == TotalHeight(lines[..i], m, spacing)
      invariant forall k :: 0 <= k < i ==>
        targets[k] == Point(XAlignment(align, requiredWidth, m(lines[k]).w, behavior), TotalHeight(lines[..k], m, spacing))
    {
      assert lines[..i + 1][..i] == lines[..i];
      var size := m(lines[i]);
      targets := targets + [Point(XAlignment(align, requiredWidth, size.w, behavior), currentY)];
      currentY := currentY + size.h + spacing;
    }
  }

  /** A rendered surface: its size and the redraw that produced its pixels
      (0 for the empty surface a text widget starts with). */
  datatype Picture = Picture(size: Size, frame: nat)

  /** `Surface.subsurface((0, 0), target)`: raises `ValueError` unless the
      target lies inside the surface; shares the surface's pixels. */
  function Subsurface(img: Picture, target: Size): (r: Result<Picture>)
    ensures r.Success? <==> 0 <= target.w <= img.size.w && 0 <= target.h <= img.size.h
    ensures r.Failure? ==> r.error == ValueError
    ensures r.Success? ==> r.value == Picture(target, img.frame)
  {
    if 0 <= target.w <= img.size.w && 0 <= target.h <= img.size.h then Success(Picture(target, img.frame))
    else Failure(ValueError)
  }

  /** `pygame.transform.smoothscale(img, target)`: raises `ValueError` for a
      negative size; otherwise the same pixels at the target size. */
  function Smoothscale(img: Picture, target: Size): (r: Result<Picture>)
    ensures r.Success? <==> target.w >= 0 && target.h >= 0
    ensures r.Failure? ==> r.error == ValueError
    ensures r.Success? ==> r.value == Picture(target, img.frame)
  {
    if target.w < 0 || target.h < 0 then Failure(ValueError) else Success(Picture(target, img.frame))
  }

  /** The rendered text does not fit the widget's rect. */
  predicate NeedsFit(required: Size, rect: Size) {
    required.w > rect.w || required.h > rect.h
  }
}
