/** src/pygame_widgets/text.py: a label rendered once, at construction, into
    an image sized to its lines plus a margin. */
module LegacyText {
  import opened Geometry
  import opened Enums
  import opened Overflow
  import opened TextLayout

  /** The lines of the older label: tabs expanded and split on newlines, with
      empty lines kept, so there is always at least one. */
  function Lines(text: string, tabSize: int): (lines: seq<string>)
    ensures |lines| >= 1
    ensures JoinLines(lines) == ExpandTabs(text, tabSize)
  {
    SplitJoinRoundTrip(ExpandTabs(text, tabSize));
    SplitLines(ExpandTabs(text, tabSize))
  }

  /** `max(...)` over the line widths: there is always a line. */
  function Widest(lines: seq<string>, m: Metrics): int
    requires |lines| >= 1
  {
    if |lines| == 1 then m(lines[0]).w else Max(Widest(lines[..|lines| - 1], m), m(lines[|lines| - 1]).w)
  }

  /** The sum of the line heights. */
  function SumHeights(lines: seq<string>, m: Metrics): int {
    if lines == [] then 0 else SumHeights(lines[..|lines| - 1], m) + m(lines[|lines| - 1]).h
  }

  /** The image size: the widest line plus the left margin and the margin's
      width; the heights plus one spacing between neighbouring lines plus the
      top margin and the margin's height. */
  function ImageSize(lines: seq<string>, m: Metrics, spacing: int, margin: Rect): (r: Size)
    requires |lines| >= 1
    ensures forall k :: 0 <= k < |lines| ==> margin.x + m(lines[k]).w + margin.width <= r.w
  {
    WidestBoundsEvery(lines, m);
    Size(Widest(lines, m) + margin.x + margin.width,
         SumHeights(lines, m) + (|lines| - 1) * spacing + margin.y + margin.height)
  }

  /** Line `k`'s top: the top margin, the heights of the lines above and one
      spacing per line above. */
  function YOffset(lines: seq<string>, m: Metrics, spacing: int, margin: Rect, k: nat): (y: int)
    requires k <= |lines|
    ensures k == 0 ==> y == margin.y
    ensures k > 0 ==> y == YOffset(lines, m, spacing, margin, k - 1) + m(lines[k - 1]).h + spacing
    decreases k
  {
    if k > 0 then
      SumHeightsStep(lines, m, k);
      margin.y + SumHeights(lines[..k], m) + spacing * k
    else
      assert lines[..0] == [];
      margin.y + SumHeights(lines[..k], m) + spacing * k
  }

  /** `_create_blit_target_left/right/center`: a line's left edge in an image
      of width `imageWidth`. */
  function XOffset(align: TextAlign, imageWidth: int, lineWidth: int, margin: Rect): (x: int)
    ensures align == TextAlign.Left ==> x == margin.x
    ensures align == TextAlign.Right ==> x + lineWidth == imageWidth - margin.width
    ensures align == TextAlign.Center ==> 0 <= (imageWidth - margin.width - (x + lineWidth)) - (x - margin.x) <= 1
  {
    match align
    case Left => margin.x
    case Right => imageWidth - lineWidth - margin.width
    case Center => FloorDiv((imageWidth - margin.x - margin.width) - lineWidth, 2) + margin.x
  }

  /** Every line's blit position, as the comprehension pairs them. */
  function Targets(lines: seq<string>, m: Metrics, spacing: int, margin: Rect, align: TextAlign): (t: seq<Point>)
    requires |lines| >= 1
    ensures |t| == |lines|
  {
    var width := ImageSize(lines, m, spacing, margin).w;
    seq(|lines|, k requires 0 <= k < |lines| =>
      Point(XOffset(align, width, m(lines[k]).w, margin), YOffset(lines, m, spacing, margin, k)))
  }

  /** The lines fill the image between the margins: the first starts at the
      top margin, each next one one spacing below the previous one's bottom,
      and the last ends at the bottom margin; horizontally a LEFT line starts at
      the left margin, a RIGHT line ends at the right margin, a centred line
      has gaps to the margins that differ by at most one pixel, and the
      widest line fits between the margins exactly. */
  lemma {:induction false} LinesFillImage(lines: seq<string>, m: Metrics, spacing: int, margin: Rect, k: nat)
    requires |lines| >= 1 && k < |lines|
    ensures YOffset(lines, m, spacing, margin, 0) == margin.y
    ensures k + 1 < |lines| ==>
      YOffset(lines, m, spacing, margin, k + 1) == YOffset(lines, m, spacing, margin, k) + m(lines[k]).h + spacing
    ensures var size := ImageSize(lines, m, spacing, margin);
      YOffset(lines, m, spacing, margin, |lines| - 1) + m(lines[|lines| - 1]).h == size.h - margin.height
    ensures var w := ImageSize(lines, m, spacing, margin).w;
      var lw := m(lines[k]).w;
      && XOffset(TextAlign.Left, w, lw, margin) == margin.x
      && XOffset(TextAlign.Right, w, lw, margin) + lw == w - margin.width
      && var x := XOffset(TextAlign.Center, w, lw, margin);
         0 <= (w - margin.width - (x + lw)) - (x - margin.x) <= 1
    ensures m(lines[k]).w <= Widest(lines, m)
  {
    assert lines[..0] == [];
    var n := |lines|;
    assert lines[..k + 1][..k] == lines[..k];
    assert lines[..n - 1 + 1] == lines;
    assert lines[..n][..n - 1] == lines[..n - 1];
    WidestIsMax(lines, m, k);
  }

  lemma {:induction false} WidestIsMax(lines: seq<string>, m: Metrics, k: nat)
    requires |lines| >= 1 && k < |lines|
    ensures m(lines[k]).w <= Widest(lines, m)
    decreases |lines|
  {
    if |lines| > 1 && k < |lines| - 1 {
      var init := lines[..|lines| - 1];
      assert init[k] == lines[k];
      WidestIsMax(init, m, k);
    }
  }

  /** The heights of the first `k` lines are those of the first `k - 1` and
      line `k - 1`'s. */
  lemma SumHeightsStep(lines: seq<string>, m: Metrics, k: nat)
    requires 0 < k <= |lines|
    ensures SumHeights(lines[..k], m) == SumHeights(lines[..k - 1], m) + m(lines[k - 1]).h
  {
    assert lines[..k][..k - 1] == lines[..k - 1];
  }

  /** Every line is at most as wide as the widest. */
  lemma WidestBoundsEvery(lines: seq<string>, m: Metrics)
    requires |lines| >= 1
    ensures forall k :: 0 <= k < |lines| ==> m(lines[k]).w <= Widest(lines, m)
  {
    forall k | 0 <= k < |lines| ensures m(lines[k]).w <= Widest(lines, m) {
      WidestIsMax(lines, m, k);
    }
  }

  class Text {
    const rect: Rect
    const image: Size
    const targets: seq<Point>
    var dirty: int

    /** `Text.__init__`: the image is rendered from the lines, the rect sits at
        `pos` with the image's size, and the sprite is dirty. */
    constructor (pos: Point, text: string, tabSize: int, m: Metrics, spacing: int, margin: Rect, align: TextAlign)
      ensures var lines := Lines(text, tabSize);
        && image == ImageSize(lines, m, spacing, margin)
        && rect == Rect(pos.x, pos.y, image.w, image.h)
        && targets == Targets(lines, m, spacing, margin, align)
      ensures dirty == 1
    {
      var lines := Lines(text, tabSize);
      var size := ImageSize(lines, m, spacing, margin);
      image := size;
      targets := Targets(lines, m, spacing, margin, align);
      rect := Rect(pos.x, pos.y, size.w, size.h);
      dirty := 1;
    }
  }
}
