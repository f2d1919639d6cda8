/** pygame_widgets/row.py: children side by side, each given the same width. */
module Row {
  import opened Wrappers
  import opened Geometry
  import opened Widget
  import opened Linear

  /** What a row reports for `offer`: one slot and one spacing per child across,
      and as high as the highest child offered a slot and the full height. With
      no children the share divides by zero. */
  function RowReport(children: seq<Widget>, spacing: int, offer: Size): (r: Result<Size>)
    ensures r.Failure? <==> |children| == 0
  {
    var split := SlotExtent(offer.w, spacing, |children|);
    if split.Failure? then Failure(split.error)
    else Success(Size(|children| * (split.value + spacing), MaxHeight(Reports(children, Size(split.value, offer.h)))))
  }

  class Row {
    const node: Widget
    const children: seq<Widget>
    const spacing: int
    var maxChildWidth: int

    /** Measured as a node, the row reports what its own `calculate_size`
        reports. */
    constructor (id: WidgetId, children: seq<Widget>, spacing: int, rect: Option<Rect>)
      requires Distinct(children)
      modifies children`parent
      ensures this.children == children && this.spacing == spacing && maxChildWidth == 0
      ensures fresh(node) && node.isContainer && node.children == children && node !in children
      ensures forall c :: c in children ==> c.parent == node
      ensures forall s :: |children| > 0 ==> node.sizing(s) == RowReport(children, spacing, s).value
    {
      node := new Widget.Container(id, children, rect,
        s => if |children| == 0 then Size(0, 0) else RowReport(children, spacing, s).value);
      this.children := children;
      this.spacing := spacing;
      maxChildWidth := 0;
    }

    /** `Row.calculate_size`: every child is offered the floor share of the width
        and the full height; the row is as wide as the slots plus one spacing per
        child (the last one included) and as high as its highest child. With no
        children the share divides by zero. */
    method CalculateSize(maxWidth: int, maxHeight: int) returns (r: Result<Size>)
      requires Distinct(children) && node !in children
      modifies this`maxChildWidth, node`needsRecalculate, node`width, node`height
      modifies children`needsRecalculate, children`width, children`height, children`offers
      ensures !node.needsRecalculate
      ensures r == RowReport(children, spacing, Size(maxWidth, maxHeight))
      ensures |children| == 0 ==> r == Failure(ZeroDivisionError)
      ensures |children| > 0 ==>
        var slot := SlotExtent(maxWidth, spacing, |children|).value;
        var offer := Size(slot, maxHeight);
        && maxChildWidth == slot
        && (forall i :: 0 <= i < |children| ==>
              MeasuredOnce(children[i], offer, old(Snap(children[i])), children[i].sizing(offer)))
        && r == Success(Size(|children| * (slot + spacing), MaxHeight(Reports(children, offer))))
        && node.GetRect().GetSize() == r.value
    {
      node.CalculateSize(maxWidth, maxHeight);
      var split := SlotExtent(maxWidth, spacing, |children|);
      if split.Failure? {
        return Failure(split.error);
      }
      maxChildWidth := split.value;
      var reports := MeasureAll(children, Size(maxChildWidth, maxHeight));
      var _, height, xOffset := Accumulate(reports, maxChildWidth + spacing);
      node.width, node.height := xOffset, height;
      r := Success(Size(xOffset, height));
    }

    /** `Row.set_placement`: child `i` sits `i` slots plus spacings right of the
        row's origin, on the same top edge. */
    method SetPlacement(x: int, y: int)
      requires Distinct(children) && node !in children
      modifies node`needsReposition, node`x, node`y
      modifies children`needsReposition, children`x, children`y
      ensures node.x == x && node.y == y && !node.needsReposition
      ensures forall i :: 0 <= i < |children| ==>
        && children[i].x == x + i * (maxChildWidth + spacing) && children[i].y == y
        && children[i].GetRect().GetSize() == old(children[i].GetRect().GetSize())
        && !children[i].needsReposition
    {
      node.SetPlacement(x, y);
      PlaceAll(children, x, y, maxChildWidth + spacing, 0);
    }
  }

  /** The size a parent or `update` obtains by measuring a row's node is the
      size the row's own `calculate_size` reports for the same offer. */
  method MeasuredAsCalculated(children: seq<Widget>, spacing: int, offer: Size)
    returns (own: Result<Size>, measured: Size)
    requires Distinct(children)
    modifies children
    ensures own.Failure? <==> |children| == 0
    ensures own.Success? ==> own.value == measured
  {
    var r := new Row(0, children, spacing, None);
    own := r.CalculateSize(offer.w, offer.h);
    measured := r.node.sizing(offer);
  }
}
