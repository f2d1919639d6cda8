/** guinea/container.py: an optional single child with padding, per-axis
    expansion and alignment. */
module GuineaContainer {
  import opened Wrappers
  import opened Geometry
  import opened Enums
  import opened Overflow
  import opened Widget
  import opened Padding

  /** The extent a container takes on one axis: the whole offer when it expands
      on that axis, otherwise the child's report, or 0 without a child. The
      padding is not added back. */
  function OwnExtent(expand: bool, offer: int, childReport: Option<int>): (r: int)
    ensures expand ==> r == offer
    ensures !expand && childReport.None? ==> r == 0
    ensures !expand && childReport.Some? ==> r == childReport.value
  {
    if expand then offer else if childReport.None? then 0 else childReport.value
  }

  /** How far beyond its leading inset the child is moved on one axis, for a
      container of extent `own`, insets `lead` and `trail`, and a child of
      extent `extent`. Only an expanded axis is aligned. */
  function AxisShift(expand: bool, toEnd: bool, toCenter: bool, own: int, lead: int, trail: int,
                     extent: int, behavior: OverflowBehavior): int
  {
    if !expand then 0
    else if toCenter then Half(behavior, own - (lead + trail)) - Half(behavior, extent)
    else if toEnd then own - trail - extent - lead
    else 0
  }

  /** Pushed to the end, the child's far edge lands on the container's far edge
      minus the trailing inset. */
  lemma EndAlignedTouchesFarInset(own: int, lead: int, trail: int, extent: int, origin: int, behavior: OverflowBehavior)
    ensures origin + lead + AxisShift(true, true, false, own, lead, trail, extent, behavior) + extent == origin + own - trail
  {
  }

  /** Centred, the free space before the child and the free space after it
      (inside the insets) differ by at most one, whichever rounding is selected. */
  lemma {:induction false} CenteredWithinOne(own: int, lead: int, trail: int, extent: int, behavior: OverflowBehavior)
    ensures var inner := own - (lead + trail);
      var before := AxisShift(true, false, true, own, lead, trail, extent, behavior);
      var after := inner - extent - before;
      -1 <= before - after <= 1
  {
    var inner := own - (lead + trail);
    var hi, he := Half(behavior, inner), Half(behavior, extent);
    assert 2 * hi - 2 <= inner <= 2 * hi + 1;
    assert 2 * he - 2 <= extent <= 2 * he + 1;
  }

  /** The child, when there is one. */
  function Present(child: Widget?): set<Widget>
  {
    if child == null then {} else {child}
  }

  /** What a container reports for `offer`: on each axis the extent `OwnExtent`
      gives, from what the child, if any, reports for the space inside the
      padding. */
  function ContainerReport(child: Widget?, padding: PaddingValue, hExpand: bool, vExpand: bool, offer: Size): (r: Size)
    ensures child == null ==> r == Size(OwnExtent(hExpand, offer.w, None), OwnExtent(vExpand, offer.h, None))
    ensures child != null ==>
      var report := child.sizing(Size(offer.w - padding.AxisX(), offer.h - padding.AxisY()));
      r == Size(OwnExtent(hExpand, offer.w, Some(report.w)), OwnExtent(vExpand, offer.h, Some(report.h)))
  {
    var report := if child == null then None else Some(child.sizing(Size(offer.w - padding.AxisX(), offer.h - padding.AxisY())));
    Size(OwnExtent(hExpand, offer.w, if report.None? then None else Some(report.value.w)),
         OwnExtent(vExpand, offer.h, if report.None? then None else Some(report.value.h)))
  }

  class Container {
    const node: Widget
    const child: Widget?
    var bg: Option<Fill>
    var fg: Option<Fill>
    const rounding: int
    const vExpand: bool
    const hExpand: bool
    const vAlignment: VAlignment
    const hAlignment: HAlignment
    const padding: PaddingValue

    /** `Container.__init__`: no padding means `PaddingValue(0)`; the container
        is visible exactly when it has a background. Measured as a node, it
        reports what its own `calculate_size` reports. */
    constructor (id: WidgetId, child: Widget?, bg: Option<Fill>, rounding: int, vExpand: bool, hExpand: bool,
                 vAlignment: VAlignment, hAlignment: HAlignment, padding: Option<PaddingValue>,
                 rect: Option<Rect>)
      modifies Present(child)`parent
      ensures this.child == child && fresh(node) && node.isContainer
      ensures node.children == (if child == null then [] else [child])
      ensures child != null ==> child.parent == node
      ensures this.bg == bg && fg.None? && this.rounding == rounding
      ensures this.vExpand == vExpand && this.hExpand == hExpand
      ensures this.vAlignment == vAlignment && this.hAlignment == hAlignment
      ensures this.padding == if padding.None? then PaddingValue(0, 0, 0, 0) else padding.value
      ensures node.visible == bg.Some?
      ensures forall s :: node.sizing(s) == ContainerReport(child, this.padding, hExpand, vExpand, s)
    {
      var p := if padding.None? then MakePaddingValue([0]).value else padding.value;
      node := new Widget.Container(id, if child == null then [] else [child], rect,
        s => ContainerReport(child, p, hExpand, vExpand, s));
      this.child := child;
      this.bg := bg;
      fg := None;
      this.rounding := rounding;
      this.vExpand, this.hExpand := vExpand, hExpand;
      this.vAlignment, this.hAlignment := vAlignment, hAlignment;
      this.padding := p;
      new;
      node.visible := bg.Some?;
    }

    /** `set_bg`: stores the fill and asks for a redraw; visibility is not revisited. */
    method SetBg(value: Fill)
      modifies this`bg, node`needsRedraw
      ensures bg == Some(value) && node.needsRedraw
    {
      bg := Some(value);
      node.needsRedraw := true;
    }

    method SetFg(value: Fill)
      modifies this`fg, node`needsRedraw
      ensures fg == Some(value) && node.needsRedraw
    {
      fg := Some(value);
      node.needsRedraw := true;
    }

    /** `Container.calculate_size`: the child, if any, is offered the space inside
        the padding; each axis then takes the extent `OwnExtent` gives. */
    method CalculateSize(maxWidth: int, maxHeight: int) returns (s: Size)
      requires node != child
      modifies node`needsRecalculate, node`width, node`height
      modifies Present(child)`needsRecalculate, Present(child)`width, Present(child)`height, Present(child)`offers
      ensures child == null ==> s == Size(OwnExtent(hExpand, maxWidth, None), OwnExtent(vExpand, maxHeight, None))
      ensures child != null ==>
        var offer := Size(maxWidth - padding.AxisX(), maxHeight - padding.AxisY());
        var report := child.sizing(offer);
        && child.offers == old(child.offers) + [offer]
        && child.GetRect() == Rect(old(child.x), old(child.y), report.w, report.h)
        && child.needsRecalculate == (!child.clearsRecalculate && old(child.needsRecalculate))
        && child.needsReposition == old(child.needsReposition)
        && s == Size(OwnExtent(hExpand, maxWidth, Some(report.w)), OwnExtent(vExpand, maxHeight, Some(report.h)))
      ensures s == ContainerReport(child, padding, hExpand, vExpand, Size(maxWidth, maxHeight))
      ensures node.width == s.w && node.height == s.h && !node.needsRecalculate
    {
      node.CalculateSize(maxWidth, maxHeight);
      var ownWidth, ownHeight := maxWidth, maxHeight;
      if child == null {
        if !vExpand {
          ownHeight := 0;
        }
        if !hExpand {
          ownWidth := 0;
        }
      } else {
        var report := child.Measure(maxWidth - padding.AxisX(), maxHeight - padding.AxisY());
        if !vExpand {
          ownHeight := report.h;
        }
        if !hExpand {
          ownWidth := report.w;
        }
      }
      node.width, node.height := ownWidth, ownHeight;
      s := Size(ownWidth, ownHeight);
    }

    /** `Container.set_placement`: the container sits at (x, y); the child sits
        at the inset corner, shifted on each expanded axis by its alignment. */
    method SetPlacement(x: int, y: int, overflow: OverflowSetting)
      requires node != child
      modifies node`needsReposition, node`x, node`y
      modifies Present(child)`needsReposition, Present(child)`x, Present(child)`y
      ensures node.x == x && node.y == y && !node.needsReposition
      ensures child != null ==> child.GetRect().GetSize() == old(child.GetRect().GetSize())
      ensures child != null ==>
        && child.x == x + padding.left + AxisShift(hExpand, hAlignment == HAlignment.Right,
             hAlignment == HAlignment.Center, node.width, padding.left, padding.right, child.width, overflow.behavior)
        && child.y == y + padding.top + AxisShift(vExpand, vAlignment == VAlignment.Bottom,
             vAlignment == VAlignment.Center, node.height, padding.top, padding.bottom, child.height, overflow.behavior)
        && !child.needsReposition
    {
      node.SetPlacement(x, y);
      if child == null {
        return;
      }
      var newX, newY := x, y;
      if vExpand {
        if vAlignment == VAlignment.Center {
          newY := newY + Half(overflow.behavior, node.height - padding.AxisY()) - Half(overflow.behavior, child.height);
        } else if vAlignment == VAlignment.Bottom {
          newY := newY + node.height - padding.bottom - child.height - padding.top;
        }
      }
      if hExpand {
        if hAlignment == HAlignment.Center {
          newX := newX + Half(overflow.behavior, node.width - padding.AxisX()) - Half(overflow.behavior, child.width);
        } else if hAlignment == HAlignment.Right {
          newX := newX + node.width - padding.right - child.width - padding.left;
        }
      }
      child.SetPlacement(newX + padding.left, newY + padding.top);
    }
  }

  /** The size a parent or `update` obtains by measuring a container's node is
      the size the container's own `calculate_size` reports for the same offer. */
  method MeasuredAsCalculated(child: Widget?, vExpand: bool, hExpand: bool, padding: PaddingValue, offer: Size)
    returns (own: Size, measured: Size)
    modifies Present(child)
    ensures own == measured
  {
    var k := new Container(0, child, None, 0, vExpand, hExpand, VAlignment.Center, HAlignment.Center, Some(padding), None);
    own := k.CalculateSize(offer.w, offer.h);
    measured := k.node.sizing(offer);
  }
}
