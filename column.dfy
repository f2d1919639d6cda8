/** pygame_widgets/column.py: children stacked top to bottom, each given the same height. */
module Column {
  import opened Wrappers
  import opened Geometry
  import opened Widget
  import opened Linear

  /** What a column reports for `offer`: as wide as the widest child offered
      the full width and a slot, and one slot and one spacing per child down.
      With no children the share divides by zero. */
  function ColumnReport(children: seq<Widget>, spacing: int, offer: Size): (r: Result<Size>)
    ensures r.Failure? <==> |children| == 0
  {
    var split := SlotExtent(offer.h, spacing, |children|);
    if split.Failure? then Failure(split.error)
    else Success(Size(MaxWidth(Reports(children, Size(offer.w, split.value))), |children| * (split.value + spacing)))
  }

  class Column {
    const node: Widget
    const children: seq<Widget>
    const spacing: int
    var maxChildHeight: int

    /** Measured as a node, the column reports what its own `calculate_size`
        reports. */
    constructor (id: WidgetId, children: seq<Widget>, spacing: int, rect: Option<Rect>)
      requires Distinct(children)
      modifies children`parent
      ensures this.children == children && this.spacing == spacing && maxChildHeight == 0
      ensures fresh(node) && node.isContainer && node.children == children && node !in children
      ensures forall c :: c in children ==> c.parent == node
      ensures forall s :: |children| > 0 ==> node.sizing(s) == ColumnReport(children, spacing, s).value
    {
      node := new Widget.Container(id, children, rect,
        s => if |children| == 0 then Size(0, 0) else ColumnReport(children, spacing, s).value);
      this.children := children;
      this.spacing := spacing;
      maxChildHeight := 0;
    }

    /** `Column.calculate_size`: every child is offered the full width and the
        floor share of the height; the column is as high as the slots plus one
        spacing per child (the last one included) and as wide as its widest child.
        With no children the share divides by zero. */
    method CalculateSize(maxWidth: int, maxHeight: int) returns (r: Result<Size>)
      requires Distinct(children) && node !in children
      modifies this`maxChildHeight, node`needsRecalculate, node`width, node`height
      modifies children`needsRecalculate, children`width, children`height, children`offers
      ensures !node.needsRecalculate
      ensures r == ColumnReport(children, spacing, Size(maxWidth, maxHeight))
      ensures |children| == 0 ==> r == Failure(ZeroDivisionError)
      ensures |children| > 0 ==>
        var slot := SlotExtent(maxHeight, spacing, |children|).value;
        var offer := Size(maxWidth, slot);
        && maxChildHeight == slot
        && (forall i :: 0 <= i < |children| ==>
              MeasuredOnce(children[i], offer, old(Snap(children[i])), children[i].sizing(offer)))
        && r == Success(Size(MaxWidth(Reports(children, offer)), |children| * (slot + spacing)))
        && node.GetRect().GetSize() == r.value
    {
      node.CalculateSize(maxWidth, maxHeight);
      var split := SlotExtent(maxHeight, spacing, |children|);
      if split.Failure? {
        return Failure(split.error);
      }
      maxChildHeight := split.value;
      var reports := MeasureAll(children, Size(maxWidth, maxChildHeight));
      var width, _, yOffset := Accumulate(reports, maxChildHeight + spacing);
      node.width, node.height := width, yOffset;
      r := Success(Size(width, yOffset));
    }

    /** `Column.set_placement`: child `i` sits `i` slots plus spacings below the
        column's origin, on the same left edge. */
    method SetPlacement(x: int, y: int)
      requires Distinct(children) && node !in children
      modifies node`needsReposition, node`x, node`y
      modifies children`needsReposition, children`x, children`y
      ensures node.x == x && node.y == y && !node.needsReposition
      ensures forall i :: 0 <= i < |children| ==>
        && children[i].x == x && children[i].y == y + i * (maxChildHeight + spacing)
        && children[i].GetRect().GetSize() == old(children[i].GetRect().GetSize())
        && !children[i].needsReposition
    {
      node.SetPlacement(x, y);
      PlaceAll(children, x, y, 0, maxChildHeight + spacing);
    }
  }

  /** The size a parent or `update` obtains by measuring a column's node is the
      size the column's own `calculate_size` reports for the same offer. */
  method MeasuredAsCalculated(children: seq<Widget>, spacing: int, offer: Size)
    returns (own: Result<Size>, measured: Size)
    requires Distinct(children)
    modifies children
    ensures own.Failure? <==> |children| == 0
    ensures own.Success? ==> own.value == measured
  {
    var r := new Column(0, children, spacing, None);
    own := r.CalculateSize(offer.w, offer.h);
    measured := r.node.sizing(offer);
  }
}
