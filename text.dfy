/** pygame_widgets/text.py: a multi-line label with a colour foreground and
    background; a single line is rendered on its own. */
module Text {
  import opened Wrappers
  import opened Geometry
  import opened Enums
  import opened Overflow
  import opened Widget
  import opened TextLayout

  class Text {
    const node: Widget
    const lines: seq<string>
    const metrics: Metrics
    const spacing: int
    const align: TextAlign
    const fit: TextFit
    const fillEmptyBg: bool
    var fg: Color
    var bg: Color
    var requiredWidth: int
    var requiredHeight: int
    var image: Picture
    /** the number of redraws so far; each renders a new frame */
    var frames: nat

    /** `Text.__init__`: the lines are split once (tabs expanded, empty lines
        dropped), nothing is required yet and the image is an empty surface. */
    constructor (id: WidgetId, text: string, tabSize: int, metrics: Metrics, spacing: int, fit: TextFit,
                 align: TextAlign, fg: Color, bg: Color, fillEmptyBg: bool, rect: Option<Rect>)
      ensures lines == SplitTextLines(text, tabSize) && this.metrics == metrics && this.spacing == spacing
      ensures this.fit == fit && this.align == align && this.fg == fg && this.bg == bg
      ensures this.fillEmptyBg == fillEmptyBg
      ensures fresh(node) && node.GetFlags() == Flags(true, true, true)
      ensures forall s :: node.sizing(s) == MinSize(s, Size(MaxLineWidth(lines, metrics), TotalHeight(lines, metrics, spacing)))
      ensures node.clearsRecalculate && !node.clearsRedraw
      ensures rect.Some? ==> node.GetRect() == rect.value
      ensures requiredWidth == 0 && requiredHeight == 0 && image == Picture(Size(0, 0), 0) && frames == 0
    {
      var ls := SplitTextLines(text, tabSize);
      var required := Size(MaxLineWidth(ls, metrics), TotalHeight(ls, metrics, spacing));
      node := new Widget(id, rect, s => MinSize(s, required), true, false);
      lines := ls;
      this.metrics, this.spacing, this.fit, this.align := metrics, spacing, fit, align;
      this.fg, this.bg, this.fillEmptyBg := fg, bg, fillEmptyBg;
      requiredWidth, requiredHeight := 0, 0;
      image := Picture(Size(0, 0), 0);
      frames := 0;
    }

    function Required(): Size
      reads this
    {
      Size(requiredWidth, requiredHeight)
    }

    /** `Text.calculate_size`: the same rule as the guinea label. */
    method CalculateSize(maxWidth: int, maxHeight: int) returns (s: Size)
      modifies node`needsRecalculate, node`width, node`height, this`requiredWidth, this`requiredHeight
      ensures requiredWidth == MaxLineWidth(lines, metrics) && requiredHeight == TotalHeight(lines, metrics, spacing)
      ensures s == Size(Min(maxWidth, requiredWidth), Min(maxHeight, requiredHeight))
      ensures node.GetRect().GetSize() == s && !node.needsRecalculate
    {
      node.CalculateSize(maxWidth, maxHeight);
      var w, h := RequiredSize(lines, metrics, spacing);
      node.width := Min(maxWidth, w);
      node.height := Min(maxHeight, h);
      requiredWidth, requiredHeight := w, h;
      s := Size(node.width, node.height);
    }

    /** `Text.redraw`: exactly one line is rendered on its own, at its own
        size, with no layout and no fitting; otherwise the lines are laid out
        one below the other in an image of the required size, which is scaled
        or cropped to the rect when it does not fit. */
    method Redraw(behavior: OverflowBehavior) returns (r: Result<()>, targets: seq<Point>)
      modifies this`image, this`frames
      ensures frames == old(frames) + 1
      ensures |lines| == 1 ==> r == Success(()) && targets == [] && image == Picture(metrics(lines[0]), frames)
      ensures |lines| != 1 ==>
        && |targets| == |lines|
        && (forall k :: 0 <= k < |lines| ==>
              targets[k] == Point(XAlignment(align, requiredWidth, metrics(lines[k]).w, behavior),
                                  TotalHeight(lines[..k], metrics, spacing)))
        && var rendered := Picture(Required(), frames);
           var rect := node.GetRect().GetSize();
           && (!NeedsFit(Required(), rect) ==> r == Success(()) && image == rendered)
           && (NeedsFit(Required(), rect) ==>
                 var fitted := if fit == TextFit.Fit then Smoothscale(rendered, MinSize(Required(), rect))
                               else Subsurface(rendered, MinSize(Required(), rect));
                 && (fitted.Failure? ==> r == Failure(fitted.error) && image == rendered)
                 && (fitted.Success? ==> r == Success(()) && image == fitted.value))
    {
      frames := frames + 1;
      if |lines| == 1 {
        image := Picture(metrics(lines[0]), frames);
        return Success(()), [];
      }
      targets := BlitTargets(lines, metrics, spacing, align, requiredWidth, behavior);
      image := Picture(Size(requiredWidth, requiredHeight), frames);
      r := Success(());
      if NeedsFit(Size(requiredWidth, requiredHeight), node.GetRect().GetSize()) {
        var target := MinSize(Size(requiredWidth, requiredHeight), node.GetRect().GetSize());
        var fitted := if fit == TextFit.Fit then Smoothscale(image, target) else Subsurface(image, target);
        if fitted.Failure? {
          return Failure(fitted.error), targets;
        }
        image := fitted.value;
      }
    }

    /** The `fg` setter. */
    method SetFg(value: Color)
      modifies this`fg, node`needsRedraw
      ensures fg == value && node.needsRedraw
    {
      fg := value;
      node.needsRedraw := true;
    }

    /** The `bg` setter. */
    method SetBg(value: Color)
      modifies this`bg, node`needsRedraw
      ensures bg == value && node.needsRedraw
    {
      bg := value;
      node.needsRedraw := true;
    }
  }

  /** In the multi-line layout each line starts where the one above it ends,
      plus the spacing, and a text that does not fit a rect of non-negative
      size ends up at the size `MinSize` gives, with the new rendering's
      pixels. */
  lemma MultiLineLayout(lines: seq<string>, m: Metrics, spacing: int, k: nat, fit: TextFit, required: Size,
                        rect: Size, frame: nat)
    requires k + 1 < |lines|
    requires required.w >= 0 && required.h >= 0 && rect.w >= 0 && rect.h >= 0
    ensures TotalHeight(lines[..k + 1], m, spacing) == TotalHeight(lines[..k], m, spacing) + m(lines[k]).h + spacing
    ensures var fitted := if fit == TextFit.Fit then Smoothscale(Picture(required, frame), MinSize(required, rect))
                          else Subsurface(Picture(required, frame), MinSize(required, rect));
      fitted == Success(Picture(MinSize(required, rect), frame))
  {
    OffsetsStack(lines, m, spacing, k);
  }

  /** The size a parent or `update` obtains by measuring a label's node is the
      size the label's own `calculate_size` reports for the same offer. */
  method MeasuredAsCalculated(text: string, metrics: Metrics, spacing: int, offer: Size)
    returns (own: Size, measured: Size)
    ensures own == measured
  {
    var t := new Text(0, text, 4, metrics, spacing, TextFit.Fit, TextAlign.Left,
                      Color(0, 0, 0, 255), Color(255, 255, 255, 255), false, None);
    own := t.CalculateSize(offer.w, offer.h);
    measured := t.node.sizing(offer);
  }
}
