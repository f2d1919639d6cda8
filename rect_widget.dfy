/** pygame_widgets/rect.py: a filled (or outlined) rectangle leaf. */
module RectWidget {
  import opened Wrappers
  import opened Geometry
  import opened Enums
  import opened Widget

  class RectWidget {
    const node: Widget
    var color: Color
    var rounding: int
    var lineWidth: int

    constructor (id: WidgetId, color: Color, rounding: int, lineWidth: int, rect: Option<Rect>)
      ensures fresh(node) && !node.isContainer && node.GetFlags() == Flags(true, true, true)
      ensures forall s :: node.sizing(s) == s
      ensures node.clearsRecalculate && !node.clearsRedraw
      ensures this.color == color && this.rounding == rounding && this.lineWidth == lineWidth
    {
      node := new Widget(id, rect, s => s, true, false);
      this.color, this.rounding, this.lineWidth := color, rounding, lineWidth;
    }

    /** `Rect.calculate_size`: the rectangle fills exactly what it is offered. */
    method CalculateSize(maxWidth: int, maxHeight: int) returns (s: Size)
      modifies node`needsRecalculate, node`width, node`height
      ensures s == Size(maxWidth, maxHeight) && node.GetRect() == Rect(old(node.x), old(node.y), maxWidth, maxHeight)
      ensures !node.needsRecalculate && node.needsReposition == old(node.needsReposition)
      ensures node.needsRedraw == old(node.needsRedraw)
    {
      node.CalculateSize(maxWidth, maxHeight);
      node.width, node.height := maxWidth, maxHeight;
      s := Size(maxWidth, maxHeight);
    }

    /** The `color` setter: stores the value and asks for a redraw only. */
    method SetColor(value: Color)
      modifies this`color, node`needsRedraw
      ensures color == value && node.needsRedraw
    {
      color := value;
      node.needsRedraw := true;
    }

    method SetRounding(value: int)
      modifies this`rounding, node`needsRedraw
      ensures rounding == value && node.needsRedraw
    {
      rounding := value;
      node.needsRedraw := true;
    }

    method SetLineWidth(value: int)
      modifies this`lineWidth, node`needsRedraw
      ensures lineWidth == value && node.needsRedraw
    {
      lineWidth := value;
      node.needsRedraw := true;
    }
  }

  /** A setter leaves the layout flags alone: after a size and placement pass,
      changing the colour asks for a redraw but for no new layout. */
  method SetterOnlyRedraws(r: RectWidget, c: Color)
    requires !r.node.needsRecalculate && !r.node.needsReposition
    modifies r, r.node
    ensures r.color == c && r.node.needsRedraw
    ensures !r.node.needsRecalculate && !r.node.needsReposition
  {
    r.SetColor(c);
  }
}
