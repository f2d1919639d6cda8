/** src/pygame_widgets/widget.py: the base of the older widget set, a dirty
    sprite that redraws on `update` when asked to. */
module LegacyWidget {

  class WidgetBase {
    var needsRedraw: bool
    /** `DirtySprite.dirty`: 1 means repaint on the next frame */
    var dirty: int
    var children: seq<WidgetBase>
    /** how many times `redraw` has run */
    var redraws: nat

    /** A new widget has nothing to redraw and no children; the sprite starts
        dirty. */
    constructor ()
      ensures !needsRedraw && children == [] && dirty == 1 && redraws == 0
    {
      needsRedraw := false;
      children := [];
      dirty := 1;
      redraws := 0;
    }

    /** `WidgetBase.update`: redraws once, marks the sprite dirty and clears
        the request, or does nothing when no redraw was requested. */
    method Update()
      modifies this`needsRedraw, this`dirty, this`redraws
      ensures !needsRedraw
      ensures old(needsRedraw) ==> redraws == old(redraws) + 1 && dirty == 1
      ensures !old(needsRedraw) ==> redraws == old(redraws) && dirty == old(dirty)
    {
      if !needsRedraw {
        return;
      }
      redraws := redraws + 1;
      dirty := 1;
      needsRedraw := false;
    }
  }

  /** A redraw request is served by one `update` and not by the next one. */
  method SecondUpdateDoesNotRedraw() returns (afterFirst: nat, afterSecond: nat)
    ensures afterFirst == 1 && afterSecond == 1
  {
    var w := new WidgetBase();
    w.needsRedraw := true;
    w.Update();
    afterFirst := w.redraws;
    w.Update();
    afterSecond := w.redraws;
  }
}
