/** pygame_widgets/padding.py: insets around a single child. */
module Padding {
  import opened Wrappers
  import opened Geometry
  import opened Widget

  /** Four insets; guinea/container.py declares the same class with the same
      constructor, and both are modelled by this one. */
  datatype PaddingValue = PaddingValue(left: int, right: int, top: int, bottom: int) {

    function AxisX(): int {
      left + right
    }

    function AxisY(): int {
      top + bottom
    }
  }

  /** `PaddingValue(*args)`: one value for all four sides, two for horizontal
      and vertical, four for left, right, top and bottom; any other count
      raises `ValueError`. */
  function MakePaddingValue(args: seq<int>): (r: Result<PaddingValue>)
    ensures r.Success? <==> |args| in {1, 2, 4}
    ensures r.Failure? ==> r.error == ValueError
    ensures |args| == 1 ==> r.value.left == r.value.right == r.value.top == r.value.bottom == args[0]
    ensures |args| == 2 ==> r.value.left == r.value.right == args[0] && r.value.top == r.value.bottom == args[1]
    ensures |args| == 4 ==> r.value == PaddingValue(args[0], args[1], args[2], args[3])
  {
    if |args| == 1 then Success(PaddingValue(args[0], args[0], args[0], args[0]))
    else if |args| == 2 then Success(PaddingValue(args[0], args[0], args[1], args[1]))
    else if |args| == 4 then Success(PaddingValue(args[0], args[1], args[2], args[3]))
    else Failure(ValueError)
  }

  /** The three argument forms agree: one value is the two-value form with it
      twice, the two-value form is the four-value form with each repeated, and
      every padding value is produced by its own four insets. */
  lemma ArgumentFormsAgree(a: int, h: int, v: int, p: PaddingValue)
    ensures MakePaddingValue([a]) == MakePaddingValue([a, a])
    ensures MakePaddingValue([h, v]) == MakePaddingValue([h, h, v, v])
    ensures MakePaddingValue([p.left, p.right, p.top, p.bottom]) == Success(p)
    ensures MakePaddingValue([a]).value.AxisX() == 2 * a
  {
  }

  /** The box a padding gives its child, for its own box at (x, y) of size
      (w, h): inset by `left` and `top`, and by `right` and `bottom` on the far
      sides, so the child's far edges are the padding's minus those insets. */
  function ChildBox(p: PaddingValue, x: int, y: int, w: int, h: int): (r: Rect)
    ensures r.x - x == p.left && r.y - y == p.top
    ensures (x + w) - r.Right() == p.right && (y + h) - r.Bottom() == p.bottom
  {
    Rect(x + p.left, y + p.top, w - p.AxisX(), h - p.AxisY())
  }

  class Padding {
    const node: Widget
    const child: Widget
    const padding: PaddingValue

    /** Measured as a node, the padding reports the whole offer, as its own
        `calculate_size` does. */
    constructor (id: WidgetId, child: Widget, padding: PaddingValue, rect: Option<Rect>)
      modifies child`parent
      ensures this.child == child && this.padding == padding && node != child
      ensures fresh(node) && node.isContainer && node.children == [child] && child.parent == node
      ensures node.GetFlags() == Flags(true, true, true)
      ensures forall s :: node.sizing(s) == s
    {
      node := new Widget.Container(id, [child], rect, s => s);
      this.child := child;
      this.padding := padding;
    }

    /** `Padding.calculate_size`: the child is offered the space left inside the
        insets, and the padding takes the whole offer whatever the child reports. */
    method CalculateSize(maxWidth: int, maxHeight: int) returns (s: Size)
      requires node != child
      modifies node`needsRecalculate, node`width, node`height
      modifies child`needsRecalculate, child`width, child`height, child`offers
      ensures var offer := Size(maxWidth - padding.AxisX(), maxHeight - padding.AxisY());
        child.offers == old(child.offers) + [offer] && child.GetRect().GetSize() == child.sizing(offer)
      ensures s == Size(maxWidth, maxHeight) && node.width == maxWidth && node.height == maxHeight
      ensures !node.needsRecalculate && child.needsRecalculate == (!child.clearsRecalculate && old(child.needsRecalculate))
    {
      node.CalculateSize(maxWidth, maxHeight);
      var childWidth := maxWidth - padding.AxisX();
      var childHeight := maxHeight - padding.AxisY();
      var _ := child.Measure(childWidth, childHeight);
      node.width, node.height := maxWidth, maxHeight;
      s := Size(maxWidth, maxHeight);
    }

    /** `Padding.set_placement`: the padding sits at (x, y) and its child at the
        inset corner. */
    method SetPlacement(x: int, y: int)
      requires node != child
      modifies node`needsReposition, node`x, node`y
      modifies child`needsReposition, child`x, child`y
      ensures node.x == x && node.y == y && !node.needsReposition
      ensures child.x == ChildBox(padding, x, y, node.width, node.height).x
      ensures child.y == ChildBox(padding, x, y, node.width, node.height).y
      ensures !child.needsReposition
    {
      node.SetPlacement(x, y);
      child.SetPlacement(x + padding.left, y + padding.top);
    }
  }

  /** Insets (4, 4, 2, 2) under an offer of (100, 100): the child is offered
      (92, 96) and the padding keeps (100, 100) whatever the child reports. */
  method PaddingConservation(child: Widget) returns (offered: Size, own: Size)
    modifies child
    ensures offered == Size(92, 96) && own == Size(100, 100)
  {
    var p := new Padding(0, child, PaddingValue(4, 4, 2, 2), None);
    own := p.CalculateSize(100, 100);
    offered := child.offers[|child.offers| - 1];
  }

  /** The size a parent or `update` obtains by measuring a padding's node is the
      size the padding's own `calculate_size` reports for the same offer. */
  method MeasuredAsCalculated(child: Widget, padding: PaddingValue, offer: Size) returns (own: Size, measured: Size)
    modifies child
    ensures own == measured
  {
    var p := new Padding(0, child, padding, None);
    own := p.CalculateSize(offer.w, offer.h);
    measured := p.node.sizing(offer);
  }
}
