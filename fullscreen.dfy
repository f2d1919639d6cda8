/** pygame_widgets/fullscreen.py: a root that sizes its single child to the
    display. The display size is a parameter. */
module Fullscreen {
  import opened Wrappers
  import opened Geometry
  import opened Widget

  class Fullscreen {
    const node: Widget
    const child: Widget

    /** The fullscreen starts at the origin with the display's size. Measured
        as a node, it reports its child's report for the offer, which is what
        its own `calculate_size` reports when the offer is its current size. */
    constructor (id: WidgetId, child: Widget, display: Size)
      modifies child`parent
      ensures this.child == child && fresh(node) && node != child
      ensures node.isContainer && node.children == [child] && child.parent == node
      ensures node.GetRect() == Rect(0, 0, display.w, display.h) && node.constraints == display
      ensures forall s :: node.sizing(s) == child.sizing(s)
    {
      node := new Widget.Container(id, [child], Some(Rect(0, 0, display.w, display.h)), s => child.sizing(s));
      this.child := child;
    }

    /** `Fullscreen.calculate_size`: the offer is ignored; the child is offered the
        fullscreen's current size, and the fullscreen then takes the child's report. */
    method CalculateSize(maxWidth: int, maxHeight: int) returns (s: Size)
      requires node != child
      modifies node`needsRecalculate, node`width, node`height
      modifies child`needsRecalculate, child`width, child`height, child`offers
      ensures var offer := old(node.GetRect().GetSize());
        && child.offers == old(child.offers) + [offer]
        && s == child.sizing(offer)
      ensures child.GetRect().GetSize() == s && node.GetRect().GetSize() == s
      ensures !node.needsRecalculate && child.needsRecalculate == (!child.clearsRecalculate && old(child.needsRecalculate))
    {
      node.CalculateSize(maxWidth, maxHeight);
      s := child.Measure(node.width, node.height);
      node.width, node.height := s.w, s.h;
    }

    /** `Fullscreen.set_placement`: the fullscreen sits at (x, y) but its child is
        always put at the origin. */
    method SetPlacement(x: int, y: int)
      requires node != child
      modifies node`needsReposition, node`x, node`y
      modifies child`needsReposition, child`x, child`y
      ensures node.x == x && node.y == y && child.x == 0 && child.y == 0
      ensures !node.needsReposition && !child.needsReposition
    {
      node.SetPlacement(x, y);
      child.SetPlacement(0, 0);
    }
  }

  /** The offer a fullscreen gets plays no part: two fullscreens on the same
      display, offered different sizes, give their children the same offer and
      take the same size. */
  method OfferIsIgnored(sizing: Size -> Size) returns (first: Size, second: Size)
    ensures first == second == sizing(Size(640, 480))
  {
    var c1 := new Widget(1, None, sizing, true, true);
    var f1 := new Fullscreen(0, c1, Size(640, 480));
    first := f1.CalculateSize(10, 10);
    var c2 := new Widget(3, None, sizing, true, true);
    var f2 := new Fullscreen(2, c2, Size(640, 480));
    second := f2.CalculateSize(2000, 3000);
  }

  /** A fullscreen without a parent is offered its own size by `update`; for
      that offer the size obtained by measuring its node is the size its own
      `calculate_size` reports. */
  method MeasuredAsCalculated(child: Widget, display: Size) returns (own: Size, measured: Size)
    modifies child
    ensures own == measured
  {
    var f := new Fullscreen(0, child, display);
    var offer := f.node.GetRect().GetSize();
    own := f.CalculateSize(offer.w, offer.h);
    measured := f.node.sizing(offer);
  }
}
