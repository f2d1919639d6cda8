/** src/pygame_widgets/progress_bar.py and src/pygame_widgets/loading_bar.py:
    two saturating progress counters that paint a bar proportional to the
    progress. */
module LegacyProgress {
  import opened Wrappers
  import opened Geometry
  import opened Overflow
  import opened LegacyWidget

  /** `min(math.ceil(width / max_progress * progress), width)`, with the
      quotient taken exactly; a zero maximum raises `ZeroDivisionError`. */
  function BarWidth(width: int, maxProgress: int, progress: int): (r: Result<int>)
    ensures r.Failure? <==> maxProgress == 0
    ensures r.Failure? ==> r.error == ZeroDivisionError
    ensures r.Success? ==> r.value <= width
  {
    if maxProgress == 0 then Failure(ZeroDivisionError)
    else Success(Min(CeilDiv(width * progress, maxProgress), width))
  }

  /** For a progress between 0 and a positive maximum, the bar is the rounded
      up share `progress / maxProgress` of the width: empty at 0, full at the
      maximum, never wider than the width, and below the width it is the least
      whole number of pixels covering the share. */
  lemma {:induction false} BarWidthIsShare(width: int, maxProgress: int, progress: int)
    requires width >= 0 && 0 < maxProgress && 0 <= progress <= maxProgress
    ensures BarWidth(width, maxProgress, progress).Success?
    ensures var b := BarWidth(width, maxProgress, progress).value;
      && 0 <= b <= width
      && (progress == 0 ==> b == 0)
      && (progress == maxProgress ==> b == width)
      && (b < width ==> (b - 1) * maxProgress < width * progress <= b * maxProgress)
  {
    var c := CeilDiv(width * progress, maxProgress);
    if width > 0 {
      ScaleMonotone(0, progress, width);
    }
    assert c * maxProgress >= width * progress >= 0;
    if c < 0 {
      ScaleMonotone(c, -1, maxProgress);
    }
    if progress == maxProgress {
      assert width * progress == width * maxProgress;
      if c < width {
        ScaleMonotone(c, width - 1, maxProgress);
      }
    }
    if progress == 0 {
      assert width * progress == 0;
      if c > 0 {
        ScaleMonotone(1, c, maxProgress);
      }
    }
  }

  /** More progress never paints a narrower bar. */
  lemma {:induction false} BarWidthMonotone(width: int, maxProgress: int, p: int, q: int)
    requires width >= 0 && 0 < maxProgress && p <= q
    ensures BarWidth(width, maxProgress, p).value <= BarWidth(width, maxProgress, q).value
  {
    var cp, cq := CeilDiv(width * p, maxProgress), CeilDiv(width * q, maxProgress);
    if width > 0 {
      ScaleMonotone(p, q, width);
    }
    if cq < cp {
      ScaleMonotone(cq, cp - 1, maxProgress);
    }
  }

  /** The counter stays between 0 and the maximum; a non-positive maximum
      keeps it at 0, since no increment is ever allowed. */
  predicate ProgressInRange(progress: int, maxProgress: int) {
    progress == 0 || 0 < progress <= maxProgress
  }

  /** `increment_progress`: one more, unless the maximum is reached. */
  function Incremented(progress: int, maxProgress: int): (p: int)
    ensures ProgressInRange(progress, maxProgress) ==> ProgressInRange(p, maxProgress)
    ensures progress < maxProgress ==> p == progress + 1
    ensures progress >= maxProgress ==> p == progress
  {
    if progress >= maxProgress then progress else progress + 1
  }

  /** `maxProgress` increments from 0 fill the counter, and any further
      increment leaves it full. */
  lemma {:induction false} IncrementsSaturate(maxProgress: nat, k: nat)
    ensures Repeat(0, maxProgress, k) == Min(k, maxProgress)
  {
    if k > 0 {
      IncrementsSaturate(maxProgress, k - 1);
    }
  }

  /** `k` successive increments from `progress`. */
  function Repeat(progress: int, maxProgress: int, k: nat): (p: int)
    ensures progress <= p
  {
    if k == 0 then progress else Incremented(Repeat(progress, maxProgress, k - 1), maxProgress)
  }

  /** `ProgressBar` of progress_bar.py, a `WidgetBase`: it only requests a
      redraw, and the bar is painted on the next `update`. */
  class ProgressBar {
    const base: WidgetBase
    const rect: Rect
    const maxProgress: int
    const useProgressAsMask: bool
    var progress: int
    /** the width of the bar painted by the last redraw; the background image
        alone until then */
    var paintedWidth: int

    ghost predicate Valid()
      reads this
    {
      ProgressInRange(progress, maxProgress)
    }

    constructor (rect: Rect, maxProgress: int, useProgressAsMask: bool)
      ensures Valid() && progress == 0 && paintedWidth == 0
      ensures this.rect == rect && this.maxProgress == maxProgress && this.useProgressAsMask == useProgressAsMask
      ensures fresh(base) && !base.needsRedraw && base.children == []
    {
      base := new WidgetBase();
      this.rect := rect;
      this.maxProgress := maxProgress;
      this.useProgressAsMask := useProgressAsMask;
      progress := 0;
      paintedWidth := 0;
    }

    /** `increment_progress`: one step towards the maximum, and a redraw is
        requested only when the counter actually moved. */
    method IncrementProgress()
      requires Valid()
      modifies this`progress, base`needsRedraw
      ensures Valid() && progress == Incremented(old(progress), maxProgress)
      ensures old(progress) < maxProgress ==> base.needsRedraw
      ensures old(progress) >= maxProgress ==> progress == old(progress) && base.needsRedraw == old(base.needsRedraw)
    {
      if progress >= maxProgress {
        return;
      }
      progress := progress + 1;
      base.needsRedraw := true;
    }

    /** `reset_progress`: back to 0, and a redraw is requested. */
    method ResetProgress()
      modifies this`progress, base`needsRedraw
      ensures Valid() && progress == 0 && base.needsRedraw
    {
      progress := 0;
      base.needsRedraw := true;
    }

    /** `WidgetBase.update` with this `redraw`: the bar is repainted at its
        current width; a zero maximum raises inside `redraw`, before the sprite
        is marked dirty and the request is cleared. */
    method Update() returns (r: Result<()>)
      modifies base`needsRedraw, base`dirty, base`redraws, this`paintedWidth
      ensures !old(base.needsRedraw) ==> r.Success? && unchanged(base) && paintedWidth == old(paintedWidth)
      ensures old(base.needsRedraw) && maxProgress == 0 ==>
        r == Failure(ZeroDivisionError) && base.needsRedraw && paintedWidth == old(paintedWidth)
      ensures old(base.needsRedraw) && maxProgress != 0 ==>
        && r.Success? && !base.needsRedraw && base.dirty == 1 && base.redraws == old(base.redraws) + 1
        && paintedWidth == BarWidth(rect.width, maxProgress, progress).value
    {
      if !base.needsRedraw {
        return Success(());
      }
      var w := BarWidth(rect.width, maxProgress, progress);
      if w.Failure? {
        return Failure(w.error);
      }
      paintedWidth := w.value;
      base.redraws := base.redraws + 1;
      base.dirty := 1;
      base.needsRedraw := false;
      r := Success(());
    }
  }

  /** `ProgressBar` of loading_bar.py, a plain dirty sprite: every effective
      change repaints at once. It renders in its constructor, so a zero
      maximum never produces a bar (see `NewLoadingBar`). */
  class LoadingBar {
    const rect: Rect
    const maxProgress: int
    var progress: int
    /** the width of the bar in the current image */
    var paintedWidth: int
    var dirty: int
    /** how many times the image has been rendered */
    var renders: nat

    ghost predicate Valid()
      reads this
    {
      && maxProgress != 0 && ProgressInRange(progress, maxProgress)
      && paintedWidth == BarWidth(rect.width, maxProgress, progress).value
    }

    /** The body of `__init__` once `_render_image` has computed the first
        bar width. */
    constructor (rect: Rect, maxProgress: int, firstWidth: int)
      requires maxProgress != 0 && firstWidth == BarWidth(rect.width, maxProgress, 0).value
      ensures Valid() && progress == 0 && dirty == 1 && renders == 1
      ensures this.rect == rect && this.maxProgress == maxProgress
    {
      this.rect := rect;
      this.maxProgress := maxProgress;
      progress := 0;
      paintedWidth := firstWidth;
      dirty := 1;
      renders := 1;
    }

    /** `_render_image`: paints the bar for the current progress and marks
        the sprite dirty. */
    method RenderImage()
      requires maxProgress != 0 && ProgressInRange(progress, maxProgress)
      modifies this`paintedWidth, this`dirty, this`renders
      ensures Valid() && dirty == 1 && renders == old(renders) + 1
    {
      paintedWidth := BarWidth(rect.width, maxProgress, progress).value;
      dirty := 1;
      renders := renders + 1;
    }

    /** `increment_progress`: one step and a repaint, or nothing at all once
        the maximum is reached. */
    method IncrementProgress()
      requires Valid()
      modifies this`progress, this`paintedWidth, this`dirty, this`renders
      ensures Valid() && progress == Incremented(old(progress), maxProgress)
      ensures old(progress) < maxProgress ==> dirty == 1 && renders == old(renders) + 1
      ensures old(progress) >= maxProgress ==>
        progress == old(progress) && dirty == old(dirty) && renders == old(renders)
    {
      if progress >= maxProgress {
        return;
      }
      progress := progress + 1;
      RenderImage();
    }

    /** `reset_progress`: back to 0 with a repaint. */
    method ResetProgress()
      requires Valid()
      modifies this`progress, this`paintedWidth, this`dirty, this`renders
      ensures Valid() && progress == 0 && paintedWidth == BarWidth(rect.width, maxProgress, 0).value
      ensures dirty == 1 && renders == old(renders) + 1
    {
      progress := 0;
      RenderImage();
    }
  }

  /** `ProgressBar(rect, max_progress, config)` of loading_bar.py: the first
      render divides by the maximum, so a zero maximum raises instead of
      producing a bar. */
  method NewLoadingBar(rect: Rect, maxProgress: int) returns (r: Result<LoadingBar>)
    ensures r.Failure? <==> maxProgress == 0
    ensures r.Failure? ==> r.error == ZeroDivisionError
    ensures r.Success? ==> fresh(r.value) && r.value.Valid() && r.value.progress == 0 && r.value.dirty == 1 && r.value.renders == 1
    ensures r.Success? ==> r.value.rect == rect && r.value.maxProgress == maxProgress
  {
    var first := BarWidth(rect.width, maxProgress, 0);
    if first.Failure? {
      return Failure(first.error);
    }
    var bar := new LoadingBar(rect, maxProgress, first.value);
    r := Success(bar);
  }

  /** A bar of width 100 with three steps: one increment paints 34 pixels,
      three paint the full width, and a fourth changes nothing. */
  method ThreeStepLoadingBar() returns (first: int, full: int, rendersWhenFull: nat, rendersAfterExtra: nat)
    ensures first == 34 && full == 100 && rendersAfterExtra == rendersWhenFull == 4
  {
    var r := NewLoadingBar(Rect(0, 0, 100, 10), 3);
    var bar := r.value;
    bar.IncrementProgress();
    first := bar.paintedWidth;
    bar.IncrementProgress();
    bar.IncrementProgress();
    full := bar.paintedWidth;
    rendersWhenFull := bar.renders;
    bar.IncrementProgress();
    rendersAfterExtra := bar.renders;
  }
}
