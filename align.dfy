/** pygame_widgets/align.py: a single child aligned inside the space it was offered. */
module Align {
  import opened Wrappers
  import opened Geometry
  import opened Enums
  import opened Overflow
  import opened Widget

  /** The shift on one axis for a child of extent `size` in `available`: half the
      gap, taken as an absolute value, when centred; the whole (signed) gap at the
      far end; nothing at the near end. */
  function AlignShift(toCenter: bool, toEnd: bool, available: int, size: int, behavior: OverflowBehavior): int
  {
    if toCenter then Half(behavior, if available >= size then available - size else size - available)
    else if toEnd then available - size
    else 0
  }

  /** A centred child is never shifted backwards, even when it is larger than
      the space it was offered. */
  lemma CenterShiftNonNegative(available: int, size: int, behavior: OverflowBehavior)
    ensures AlignShift(true, false, available, size, behavior) >= 0
  {
  }

  /** A centred child that fits leaves gaps before and after it that differ by
      at most one; one pushed to the end touches the far edge of the space. */
  lemma {:induction false} ShiftPlacesChildInside(available: int, size: int, behavior: OverflowBehavior)
    requires size <= available
    ensures var c := AlignShift(true, false, available, size, behavior);
      0 <= c && c + size <= available && -1 <= c - (available - size - c) <= 1
    ensures AlignShift(false, true, available, size, behavior) + size == available
  {
    var gap := available - size;
    var c := Half(behavior, gap);
    assert 2 * c - 1 <= gap <= 2 * c + 1;
  }

  class Align {
    const node: Widget
    const child: Widget
    const vertical: VAlignment
    const horizontal: HAlignment
    var availableWidth: int
    var availableHeight: int

    /** `Align.__init__`; nothing is available until the first size pass.
        Measured as a node, the align reports its child's size under the whole
        offer, as its own `calculate_size` does. */
    constructor (id: WidgetId, child: Widget, vertical: VAlignment, horizontal: HAlignment,
                 rect: Option<Rect>)
      modifies child`parent
      ensures this.child == child && node != child && fresh(node)
      ensures node.isContainer && node.children == [child] && child.parent == node
      ensures this.vertical == vertical && this.horizontal == horizontal
      ensures availableWidth == 0 && availableHeight == 0
      ensures forall s :: node.sizing(s) == child.sizing(s)
    {
      node := new Widget.Container(id, [child], rect, s => child.sizing(s));
      this.child := child;
      this.vertical, this.horizontal := vertical, horizontal;
      availableWidth, availableHeight := 0, 0;
    }

    /** `Center`: both policies centred. */
    constructor Center(id: WidgetId, child: Widget, rect: Option<Rect>)
      modifies child`parent
      ensures this.child == child && node != child && fresh(node)
      ensures node.isContainer && node.children == [child] && child.parent == node
      ensures vertical == VAlignment.Center && horizontal == HAlignment.Center
      ensures availableWidth == 0 && availableHeight == 0
      ensures forall s :: node.sizing(s) == child.sizing(s)
    {
      node := new Widget.Container(id, [child], rect, s => child.sizing(s));
      this.child := child;
      vertical, horizontal := VAlignment.Center, HAlignment.Center;
      availableWidth, availableHeight := 0, 0;
    }

    /** `Align.calculate_size`: the child gets the whole offer, the align takes
        the child's size and remembers the offer as the space available. */
    method CalculateSize(maxWidth: int, maxHeight: int) returns (s: Size)
      requires node != child
      modifies this`availableWidth, this`availableHeight
      modifies node`needsRecalculate, node`width, node`height
      modifies child`needsRecalculate, child`width, child`height, child`offers
      ensures child.offers == old(child.offers) + [Size(maxWidth, maxHeight)]
      ensures s == child.sizing(Size(maxWidth, maxHeight)) && child.GetRect().GetSize() == s
      ensures node.GetRect().GetSize() == s && !node.needsRecalculate
      ensures availableWidth == maxWidth && availableHeight == maxHeight
    {
      node.CalculateSize(maxWidth, maxHeight);
      var report := child.Measure(maxWidth, maxHeight);
      node.width, node.height := report.w, report.h;
      availableWidth, availableHeight := maxWidth, maxHeight;
      s := Size(node.width, node.height);
    }

    /** `Align.set_placement`: the child and the align both move to the origin
        shifted by `AlignShift` on each axis. */
    method SetPlacement(x: int, y: int, overflow: OverflowSetting)
      requires node != child
      modifies node`needsReposition, node`x, node`y
      modifies child`needsReposition, child`x, child`y
      ensures child.x == x + AlignShift(horizontal == HAlignment.Center, horizontal == HAlignment.Right,
                                        availableWidth, node.width, overflow.behavior)
      ensures child.y == y + AlignShift(vertical == VAlignment.Center, vertical == VAlignment.Bottom,
                                        availableHeight, node.height, overflow.behavior)
      ensures node.x == child.x && node.y == child.y
      ensures !node.needsReposition && !child.needsReposition
    {
      var newX := x;
      if horizontal == HAlignment.Center {
        var gap := if availableWidth >= node.width then availableWidth - node.width else node.width - availableWidth;
        newX := newX + Half(overflow.behavior, gap);
      } else if horizontal == HAlignment.Right {
        newX := newX + availableWidth - node.width;
      }
      var newY := y;
      if vertical == VAlignment.Center {
        var gap := if availableHeight >= node.height then availableHeight - node.height else node.height - availableHeight;
        newY := newY + Half(overflow.behavior, gap);
      } else if vertical == VAlignment.Bottom {
        newY := newY + availableHeight - node.height;
      }
      child.SetPlacement(newX, newY);
      node.SetPlacement(newX, newY);
    }
  }

  /** A (40, 20) child centred in (100, 50) under floor rounding lands 30 to the
      right and 15 below the origin it was given. */
  method CenteredExample() returns (dx: int, dy: int)
    ensures dx == 30 && dy == 15
  {
    var child := new Widget(1, None, _ => Size(40, 20), true, true);
    var a := new Align.Center(0, child, None);
    var overflow := new OverflowSetting();
    var _ := a.CalculateSize(100, 50);
    a.SetPlacement(0, 0, overflow);
    dx, dy := child.x, child.y;
  }

  /** The size a parent or `update` obtains by measuring an align's node is the
      size the align's own `calculate_size` reports for the same offer. */
  method MeasuredAsCalculated(child: Widget, vertical: VAlignment, horizontal: HAlignment, offer: Size)
    returns (own: Size, measured: Size)
    modifies child
    ensures own == measured
  {
    var a := new Align(0, child, vertical, horizontal, None);
    own := a.CalculateSize(offer.w, offer.h);
    measured := a.node.sizing(offer);
  }
}
