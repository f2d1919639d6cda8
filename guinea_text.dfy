/** guinea/text.py: a multi-line label whose rect is the space its lines need,
    cut down to the offer. */
module GuineaText {
  import opened Wrappers
  import opened Geometry
  import opened Enums
  import opened Overflow
  import opened Widget
  import opened TextLayout

  /** `_fit_image` as written: FIT scales the freshly rendered image, but CROP
      cuts the target out of `current`, the image of the previous redraw (the
      empty surface on the first one). */
  function FitImageAsWritten(fit: TextFit, current: Picture, img: Picture, target: Size): (r: Result<Picture>)
    ensures r.Failure? ==> r.error == ValueError
    ensures r.Success? ==> r.value.size == target
    ensures r.Success? && fit == TextFit.Crop ==> r.value.frame == current.frame
  {
    if fit == TextFit.Fit then Smoothscale(img, target) else Subsurface(current, target)
  }

  /** `_fit_image` as evidently intended: both modes work on the freshly
      rendered image. */
  function FitImage(fit: TextFit, img: Picture, target: Size): (r: Result<Picture>)
    ensures r.Failure? ==> r.error == ValueError
    ensures r.Success? ==> r.value == Picture(target, img.frame)
  {
    if fit == TextFit.Fit then Smoothscale(img, target) else Subsurface(img, target)
  }

  /** Fitting a freshly rendered image of the required size to a rect of
      non-negative size never raises, in either mode, and yields that image's
      pixels at the size `MinSize` gives. */
  lemma FitImageKeepsNewPixels(fit: TextFit, required: Size, rect: Size, frame: nat)
    requires required.w >= 0 && required.h >= 0 && rect.w >= 0 && rect.h >= 0
    ensures FitImage(fit, Picture(required, frame), MinSize(required, rect))
      == Success(Picture(MinSize(required, rect), frame))
  {
  }

  /** As written, cropping on the first redraw (the current image is the
      empty surface) raises for any text that needs cropping to a non-empty
      size; and on later redraws it yields the previous redraw's pixels. */
  lemma CropUsesStaleImage(required: Size, rect: Size, img: Picture, current: Picture)
    requires NeedsFit(required, rect) && img.size == required
    ensures var target := MinSize(required, rect);
      && (current.size == Size(0, 0) && (target.w > 0 || target.h > 0) ==>
            FitImageAsWritten(TextFit.Crop, current, img, target) == Failure(ValueError))
      && (FitImageAsWritten(TextFit.Crop, current, img, target).Success? ==>
            FitImageAsWritten(TextFit.Crop, current, img, target).value.frame == current.frame)
  {
  }

  class Text {
    const node: Widget
    const lines: seq<string>
    const metrics: Metrics
    const spacing: int
    const align: TextAlign
    const fit: TextFit
    var requiredWidth: int
    var requiredHeight: int
    var image: Picture
    /** the number of redraws so far; each renders a new frame */
    var frames: nat

    /** `Text.__init__`: the lines are split once, nothing is required yet and
        the image is an empty surface. */
    constructor (id: WidgetId, text: string, tabSize: int, metrics: Metrics, spacing: int, fit: TextFit,
                 align: TextAlign, rect: Option<Rect>)
      ensures lines == SplitTextLines(text, tabSize) && this.metrics == metrics && this.spacing == spacing
      ensures this.fit == fit && this.align == align
      ensures fresh(node) && node.GetFlags() == Flags(true, true, true)
      ensures forall s :: node.sizing(s) == MinSize(s, Size(MaxLineWidth(lines, metrics), TotalHeight(lines, metrics, spacing)))
      ensures node.clearsRecalculate && !node.clearsRedraw
      ensures rect.Some? ==> node.GetRect() == rect.value
      ensures requiredWidth == 0 && requiredHeight == 0 && image == Picture(Size(0, 0), 0) && frames == 0
    {
      var ls := SplitTextLines(text, tabSize);
      var required := Size(MaxLineWidth(ls, metrics), TotalHeight(ls, metrics, spacing));
      node := new Widget(id, rect, s => MinSize(s, required), true, false);
      lines := ls;
      this.metrics, this.spacing, this.fit, this.align := metrics, spacing, fit, align;
      requiredWidth, requiredHeight := 0, 0;
      image := Picture(Size(0, 0), 0);
      frames := 0;
    }

    function Required(): Size
      reads this
    {
      Size(requiredWidth, requiredHeight)
    }

    /** `Text.calculate_size`: the lines need the widest line's width and the
        sum of line heights and spacings; the rect takes that, cut down to the
        offer on each axis. */
    method CalculateSize(maxWidth: int, maxHeight: int) returns (s: Size)
      modifies node`needsRecalculate, node`width, node`height, this`requiredWidth, this`requiredHeight
      ensures requiredWidth == MaxLineWidth(lines, metrics) && requiredHeight == TotalHeight(lines, metrics, spacing)
      ensures s == Size(Min(maxWidth, requiredWidth), Min(maxHeight, requiredHeight))
      ensures node.GetRect().GetSize() == s && !node.needsRecalculate
    {
      node.CalculateSize(maxWidth, maxHeight);
      var w, h := RequiredSize(lines, metrics, spacing);
      node.width := Min(maxWidth, w);
      node.height := Min(maxHeight, h);
      requiredWidth, requiredHeight := w, h;
      s := Size(node.width, node.height);
    }

    /** `_generate_blit_targets`: each line's position in the rendered image. */
    method GenerateBlitTargets(behavior: OverflowBehavior) returns (targets: seq<Point>)
      ensures |targets| == |lines|
      ensures forall k :: 0 <= k < |lines| ==>
        targets[k] == Point(XAlignment(align, requiredWidth, metrics(lines[k]).w, behavior),
                            TotalHeight(lines[..k], metrics, spacing))
    {
      targets := BlitTargets(lines, metrics, spacing, align, requiredWidth, behavior);
    }

    /** `Text.redraw` as written: the lines are rendered into a new image of
        the required size, which is fitted to the rect when it does not fit;
        in CROP mode the fitting cuts from the previous image. */
    method RedrawAsWritten() returns (r: Result<()>)
      modifies this`image, this`frames
      ensures frames == old(frames) + 1
      ensures var rendered := Picture(Required(), frames);
        var target := MinSize(Required(), node.GetRect().GetSize());
        && (!NeedsFit(Required(), node.GetRect().GetSize()) ==> r == Success(()) && image == rendered)
        && (NeedsFit(Required(), node.GetRect().GetSize()) ==>
              var fitted := FitImageAsWritten(fit, old(image), rendered, target);
              && (fitted.Failure? ==> r == Failure(fitted.error) && image == old(image))
              && (fitted.Success? ==> r == Success(()) && image == fitted.value))
    {
      frames := frames + 1;
      var src := Picture(Size(requiredWidth, requiredHeight), frames);
      if NeedsFit(Size(requiredWidth, requiredHeight), node.GetRect().GetSize()) {
        var fitted := FitImageAsWritten(fit, image, src, MinSize(Size(requiredWidth, requiredHeight), node.GetRect().GetSize()));
        if fitted.Failure? {
          return Failure(fitted.error);
        }
        src := fitted.value;
      }
      image := src;
      r := Success(());
    }

    /** `Text.redraw` with the corrected fitting: a text that does not fit ends
        up as the new rendering at the target size, in either mode, whenever
        the rect's size is not negative. */
    method Redraw() returns (r: Result<()>)
      modifies this`image, this`frames
      ensures frames == old(frames) + 1
      ensures var rendered := Picture(Required(), frames);
        var target := MinSize(Required(), node.GetRect().GetSize());
        && (!NeedsFit(Required(), node.GetRect().GetSize()) ==> r == Success(()) && image == rendered)
        && (NeedsFit(Required(), node.GetRect().GetSize()) ==>
              var fitted := FitImage(fit, rendered, target);
              && (fitted.Failure? ==> r == Failure(fitted.error) && image == old(image))
              && (fitted.Success? ==> r == Success(()) && image == fitted.value))
    {
      frames := frames + 1;
      var src := Picture(Size(requiredWidth, requiredHeight), frames);
      if NeedsFit(Size(requiredWidth, requiredHeight), node.GetRect().GetSize()) {
        var fitted := FitImage(fit, src, MinSize(Size(requiredWidth, requiredHeight), node.GetRect().GetSize()));
        if fitted.Failure? {
          return Failure(fitted.error);
        }
        src := fitted.value;
      }
      image := src;
      r := Success(());
    }
  }

  /** "hello" is one line, as wide and as high as the font measures it. */
  lemma OneLine(m: Metrics)
    ensures SplitTextLines("hello", 4) == ["hello"]
    ensures MaxLineWidth(["hello"], m) == Max(0, m("hello").w) && TotalHeight(["hello"], m, 0) == m("hello").h
  {
    NewlineFreeIsOneLine("hello");
    assert DropEmpty(["hello"]) == ["hello"];
    assert ["hello"][..0] == [];
  }

  /** The fit of a 50 x 20 rendering into a 30 x 20 rect, with and without the
      stale source image. */
  lemma CropFigures()
    ensures NeedsFit(Size(50, 20), Size(30, 20)) && MinSize(Size(50, 20), Size(30, 20)) == Size(30, 20)
    ensures FitImageAsWritten(TextFit.Crop, Picture(Size(0, 0), 0), Picture(Size(50, 20), 1), Size(30, 20))
      == Failure(ValueError)
    ensures FitImage(TextFit.Crop, Picture(Size(50, 20), 1), Size(30, 20)) == Success(Picture(Size(30, 20), 1))
  {
  }

  /** A one-line CROP label whose line measures 50 x 20, laid out in 30 x 20. */
  method CroppedLabel(id: WidgetId) returns (t: Text)
    ensures fresh(t) && fresh(t.node) && t.fit == TextFit.Crop
    ensures t.Required() == Size(50, 20) && t.node.GetRect().GetSize() == Size(30, 20)
    ensures t.image == Picture(Size(0, 0), 0) && t.frames == 0
  {
    var m: Metrics := line => Size(50, 20);
    OneLine(m);
    t := new Text(id, "hello", 4, m, 0, TextFit.Crop, TextAlign.Left, None);
    var _ := t.CalculateSize(30, 20);
  }

  /** For that label, the first redraw raises as written, and the corrected
      redraw shows the new rendering cut to 30 x 20. */
  method FirstCropRedraw() returns (asWritten: Result<()>, intended: Result<()>, shown: Picture)
    ensures asWritten == Failure(ValueError)
    ensures intended == Success(()) && shown == Picture(Size(30, 20), 1)
  {
    CropFigures();
    var a := CroppedLabel(0);
    asWritten := a.RedrawAsWritten();
    var b := CroppedLabel(1);
    intended := b.Redraw();
    shown := b.image;
  }

  /** The size a parent or `update` obtains by measuring a label's node is the
      size the label's own `calculate_size` reports for the same offer. */
  method MeasuredAsCalculated(text: string, metrics: Metrics, spacing: int, offer: Size)
    returns (own: Size, measured: Size)
    ensures own == measured
  {
    var t := new Text(0, text, 4, metrics, spacing, TextFit.Crop, TextAlign.Left, None);
    own := t.CalculateSize(offer.w, offer.h);
    measured := t.node.sizing(offer);
  }
}
