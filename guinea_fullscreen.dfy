/** guinea/fullscreen.py: a top-level widget that follows the window's size
    through a VIDEORESIZE handler. The display size is a parameter. */
module GuineaFullscreen {
  import opened Wrappers
  import opened Geometry
  import opened Widget
  import opened GuineaEvents

  class Fullscreen {
    const node: Widget
    const child: Widget
    const resizeHandler: Handler

    /** The fullscreen starts at the origin with the display's size and registers
        its resize handler. Measured as a node, it reports the whole offer, as
        its own `calculate_size` does. */
    constructor (id: WidgetId, child: Widget, display: Size, registry: EventRegistry, resizeHandler: Handler)
      requires registry.Valid()
      modifies child`parent, registry
      ensures this.child == child && fresh(node) && node != child && this.resizeHandler == resizeHandler
      ensures node.isContainer && node.children == [child] && child.parent == node
      ensures node.GetRect() == Rect(0, 0, display.w, display.h)
      ensures registry.Valid() && registry.State() == Register(old(registry.State()), VIDEORESIZE, resizeHandler)
      ensures forall s :: node.sizing(s) == s
    {
      node := new Widget.Container(id, [child], Some(Rect(0, 0, display.w, display.h)), s => s);
      this.child := child;
      this.resizeHandler := resizeHandler;
      new;
      registry.RegisterHandler(VIDEORESIZE, resizeHandler);
    }

    /** `_handle_video_resize`: the new size is taken and both layout phases are
        requested; the position stays. */
    method HandleVideoResize(w: int, h: int)
      modifies node`width, node`height, node`needsRecalculate, node`needsReposition
      ensures node.GetRect() == Rect(old(node.x), old(node.y), w, h)
      ensures node.needsRecalculate && node.needsReposition
    {
      node.width, node.height := w, h;
      node.needsRecalculate := true;
      node.needsReposition := true;
    }

    /** `set_parent` always raises: the fullscreen cannot be anyone's child. */
    method SetParent(parent: Widget?) returns (r: Result<()>)
      ensures r == Failure(RuntimeError)
    {
      r := Failure(RuntimeError);
    }

    /** `Fullscreen.calculate_size`: the fullscreen takes the whole offer and
        offers the same to its child, whatever the child reports. */
    method CalculateSize(maxWidth: int, maxHeight: int) returns (s: Size)
      requires node != child
      modifies node`needsRecalculate, node`width, node`height
      modifies child`needsRecalculate, child`width, child`height, child`offers
      ensures s == Size(maxWidth, maxHeight) && node.GetRect().GetSize() == s
      ensures child.offers == old(child.offers) + [s] && child.GetRect().GetSize() == child.sizing(s)
      ensures !node.needsRecalculate && child.needsRecalculate == (!child.clearsRecalculate && old(child.needsRecalculate))
    {
      node.CalculateSize(maxWidth, maxHeight);
      node.width, node.height := maxWidth, maxHeight;
      var _ := child.Measure(maxWidth, maxHeight);
      s := Size(node.width, node.height);
    }

    /** `Fullscreen.set_placement`: the child is always at the origin. */
    method SetPlacement(x: int, y: int)
      requires node != child
      modifies node`needsReposition, node`x, node`y
      modifies child`needsReposition, child`x, child`y
      ensures node.x == x && node.y == y && child.x == 0 && child.y == 0
      ensures !node.needsReposition && !child.needsReposition
    {
      node.SetPlacement(x, y);
      child.SetPlacement(0, 0);
    }
  }

  /** A resize followed by a size pass at the new size leaves the fullscreen
      with that size and the child offered it. */
  method ResizeThenLayout(f: Fullscreen, w: int, h: int) returns (s: Size)
    requires f.node != f.child
    modifies f.node, f.child
    ensures s == Size(w, h) && f.node.GetRect().GetSize() == s
    ensures f.child.offers == old(f.child.offers) + [s]
  {
    f.HandleVideoResize(w, h);
    s := f.CalculateSize(f.node.width, f.node.height);
  }

  /** The size a parent or `update` obtains by measuring a fullscreen's node is
      the size the fullscreen's own `calculate_size` reports for the same offer. */
  method MeasuredAsCalculated(child: Widget, display: Size, registry: EventRegistry, onResize: Handler, offer: Size)
    returns (own: Size, measured: Size)
    requires registry.Valid()
    modifies child, registry
    ensures own == measured
  {
    var f := new Fullscreen(0, child, display, registry, onResize);
    own := f.CalculateSize(offer.w, offer.h);
    measured := f.node.sizing(offer);
  }
}
