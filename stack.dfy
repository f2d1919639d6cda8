/** pygame_widgets/stack.py: children drawn on top of one another, all sized to
    the union of what they asked for. */
module Stack {
  import opened Wrappers
  import opened Geometry
  import opened Widget
  import opened Linear

  /** What a stack reports for `offer`: the componentwise maximum of what its
      children report for the whole offer, 0 without children. */
  function StackReport(children: seq<Widget>, offer: Size): (r: Size)
    ensures forall i :: 0 <= i < |children| ==>
      children[i].sizing(offer).w <= r.w && children[i].sizing(offer).h <= r.h
    ensures r.w >= 0 && r.h >= 0
  {
    var first := Reports(children, offer);
    MaxWidthIsMaximum(first);
    MaxHeightIsMaximum(first);
    Size(MaxWidth(first), MaxHeight(first))
  }

  class Stack {
    const node: Widget
    const children: seq<Widget>

    /** Measured as a node, the stack reports what its own `calculate_size`
        reports. */
    constructor (id: WidgetId, children: seq<Widget>, rect: Option<Rect>)
      requires Distinct(children)
      modifies children`parent
      ensures this.children == children
      ensures fresh(node) && node.isContainer && node.children == children && node !in children
      ensures forall c :: c in children ==> c.parent == node
      ensures forall s :: node.sizing(s) == StackReport(children, s)
    {
      node := new Widget.Container(id, children, rect, s => StackReport(children, s));
      this.children := children;
    }

    /** `Stack.calculate_size`: a first pass offers every child the whole space;
        the componentwise maximum of the reports (0 with no children) becomes the
        stack's size, and a second pass offers every child exactly that. */
    method CalculateSize(maxWidth: int, maxHeight: int) returns (s: Size)
      requires Distinct(children) && node !in children
      modifies node`needsRecalculate, node`width, node`height
      modifies children`needsRecalculate, children`width, children`height, children`offers
      ensures s == StackReport(children, Size(maxWidth, maxHeight))
      ensures forall i :: 0 <= i < |children| ==>
        MeasuredOnce(children[i], s, AfterMeasure(old(Snap(children[i])), Size(maxWidth, maxHeight), children[i].clearsRecalculate),
                     children[i].sizing(s))
      ensures node.GetRect().GetSize() == s && !node.needsRecalculate
    {
      node.CalculateSize(maxWidth, maxHeight);
      var first := MeasureAll(children, Size(maxWidth, maxHeight));
      var widest, highest, _ := Accumulate(first, 0);
      var _ := MeasureAll(children, Size(widest, highest));
      node.width, node.height := widest, highest;
      s := Size(widest, highest);
    }

    /** `Stack.set_placement`: every child shares the stack's origin. */
    method SetPlacement(x: int, y: int)
      requires Distinct(children) && node !in children
      modifies node`needsReposition, node`x, node`y
      modifies children`needsReposition, children`x, children`y
      ensures node.x == x && node.y == y && !node.needsReposition
      ensures forall i :: 0 <= i < |children| ==>
        && children[i].GetRect() == Rect(x, y, old(children[i].width), old(children[i].height))
        && !children[i].needsReposition
    {
      node.SetPlacement(x, y);
      PlaceAll(children, x, y, 0, 0);
    }
  }

  /** The size a parent or `update` obtains by measuring a stack's node is the
      size the stack's own `calculate_size` reports for the same offer. */
  method MeasuredAsCalculated(children: seq<Widget>, offer: Size) returns (own: Size, measured: Size)
    requires Distinct(children)
    modifies children
    ensures own == measured
  {
    var k := new Stack(0, children, None);
    own := k.CalculateSize(offer.w, offer.h);
    measured := k.node.sizing(offer);
  }
}
