/** guinea/button.py: a single-child container that reports mouse hover and
    clicks over its rect to optional callbacks. */
module GuineaButton {
  import opened Wrappers
  import opened Geometry
  import opened Widget
  import opened GuineaEvents

  /** The `on_hover` notification one motion event fires: `true` on entering
      the rect, `false` on leaving it, nothing when containment is unchanged
      or no callback is set. */
  function HoverNotice(hasOnHover: bool, lastHovered: bool, inside: bool): (n: seq<bool>)
    ensures |n| <= 1
    ensures |n| == 1 <==> hasOnHover && inside != lastHovered
    ensures |n| == 1 ==> n[0] == inside
  {
    if hasOnHover && inside && !lastHovered then [true]
    else if hasOnHover && !inside && lastHovered then [false]
    else []
  }

  /** The notifications a run of motion events fires, given containment of
      each position in turn, starting from `lastHovered`. */
  function HoverNotices(hasOnHover: bool, lastHovered: bool, insides: seq<bool>): seq<bool>
  {
    if |insides| == 0 then []
    else
      var prev := if |insides| == 1 then lastHovered else insides[|insides| - 2];
      HoverNotices(hasOnHover, lastHovered, insides[..|insides| - 1])
        + HoverNotice(hasOnHover, prev, insides[|insides| - 1])
  }

  /** Along any run of motion events, enter and leave notifications alternate,
      and the first one is the opposite of the starting state: the callback
      never hears "entered" twice without a "left" in between. */
  lemma {:induction false} HoverNoticesAlternate(lastHovered: bool, insides: seq<bool>)
    ensures var n := HoverNotices(true, lastHovered, insides);
      && (|n| > 0 ==> n[0] != lastHovered)
      && (forall i :: 0 <= i < |n| - 1 ==> n[i + 1] != n[i])
      && (|n| > 0 ==> n[|n| - 1] == insides[|insides| - 1])
      && (|n| == 0 ==> forall i :: 0 <= i < |insides| ==> insides[i] == lastHovered)
  {
    if |insides| > 0 {
      var init := insides[..|insides| - 1];
      HoverNoticesAlternate(lastHovered, init);
      var prev := if |insides| == 1 then lastHovered else insides[|insides| - 2];
      var n0 := HoverNotices(true, lastHovered, init);
      assert |n0| > 0 ==> n0[|n0| - 1] == prev by {
        if |n0| > 0 {
          assert init[|init| - 1] == insides[|insides| - 2];
        }
      }
      assert |n0| == 0 ==> prev == lastHovered by {
        if |n0| == 0 && |insides| > 1 {
          assert init[|init| - 1] == prev;
        }
      }
      forall i | 0 <= i < |insides| - 1
        ensures init[i] == insides[i]
      {
      }
    }
  }

  class Button {
    const node: Widget
    const child: Widget
    const hasOnHover: bool
    const hasOnClick: bool
    const useMask: bool
    var lastHovered: bool
    /** every `on_hover(self, entered)` call, in order */
    var hoverCalls: seq<bool>
    /** the position of every press passed to `on_click`, in order */
    var clickCalls: seq<Point>

    /** `Button.__init__`: adopts the child, starts unhovered and registers its
        press and motion handlers. Measured as a node, the button reports its
        child's size under the whole offer, as its own `calculate_size` does. */
    constructor (id: WidgetId, child: Widget, hasOnHover: bool, hasOnClick: bool, useMask: bool,
                 rect: Option<Rect>,
                 registry: EventRegistry, onDown: Handler, onMotion: Handler)
      requires registry.Valid()
      modifies child`parent, registry
      ensures this.child == child && node != child && fresh(node)
      ensures node.isContainer && node.children == [child] && child.parent == node
      ensures this.hasOnHover == hasOnHover && this.hasOnClick == hasOnClick && this.useMask == useMask
      ensures !lastHovered && hoverCalls == [] && clickCalls == []
      ensures registry.Valid()
      ensures registry.State() == Register(Register(old(registry.State()), MOUSEBUTTONDOWN, onDown), MOUSEMOTION, onMotion)
      ensures forall s :: node.sizing(s) == child.sizing(s)
    {
      node := new Widget.Container(id, [child], rect, s => child.sizing(s));
      this.child := child;
      this.hasOnHover, this.hasOnClick, this.useMask := hasOnHover, hasOnClick, useMask;
      lastHovered := false;
      hoverCalls, clickCalls := [], [];
      new;
      registry.RegisterHandler(MOUSEBUTTONDOWN, onDown);
      registry.RegisterHandler(MOUSEMOTION, onMotion);
    }

    /** `_mouse_motion_handler`: notifies a change of containment, and always
        remembers the current one, callback or not. */
    method MouseMotion(pos: Point)
      modifies this`lastHovered, this`hoverCalls
      ensures lastHovered == node.GetRect().CollidePoint(pos)
      ensures hoverCalls == old(hoverCalls) + HoverNotice(hasOnHover, old(lastHovered), lastHovered)
    {
      var inside := node.GetRect().CollidePoint(pos);
      if hasOnHover {
        if inside && !lastHovered {
          hoverCalls := hoverCalls + [true];
        } else if !inside && lastHovered {
          hoverCalls := hoverCalls + [false];
        }
      }
      lastHovered := inside;
    }

    /** `_click_handler`: `on_click` hears a press exactly when it lands in the
        rect and a callback is set. */
    method Click(pos: Point)
      modifies this`clickCalls
      ensures hasOnClick && node.GetRect().CollidePoint(pos) ==> clickCalls == old(clickCalls) + [pos]
      ensures !(hasOnClick && node.GetRect().CollidePoint(pos)) ==> clickCalls == old(clickCalls)
    {
      if node.GetRect().CollidePoint(pos) && hasOnClick {
        clickCalls := clickCalls + [pos];
      }
    }

    /** `Button.calculate_size`: the button is exactly as big as its child
        under the whole offer. */
    method CalculateSize(maxWidth: int, maxHeight: int) returns (s: Size)
      requires node != child
      modifies node`needsRecalculate, node`width, node`height
      modifies child`needsRecalculate, child`width, child`height, child`offers
      ensures child.offers == old(child.offers) + [Size(maxWidth, maxHeight)]
      ensures s == child.sizing(Size(maxWidth, maxHeight)) == child.GetRect().GetSize()
      ensures node.GetRect().GetSize() == s && node.x == old(node.x) && node.y == old(node.y)
      ensures !node.needsRecalculate && child.needsRecalculate == (!child.clearsRecalculate && old(child.needsRecalculate))
    {
      node.CalculateSize(maxWidth, maxHeight);
      s := child.Measure(maxWidth, maxHeight);
      node.width, node.height := s.w, s.h;
    }

    /** `Button.set_placement`: button and child share the same origin. */
    method SetPlacement(x: int, y: int)
      requires node != child
      modifies node`needsReposition, node`x, node`y
      modifies child`needsReposition, child`x, child`y
      ensures node.x == x && node.y == y && child.x == x && child.y == y
      ensures !node.needsReposition && !child.needsReposition
      ensures child.GetRect().GetSize() == old(child.GetRect().GetSize())
    {
      node.SetPlacement(x, y);
      child.SetPlacement(x, y);
    }
  }

  /** The size a parent or `update` obtains by measuring a button's node is the
      size the button's own `calculate_size` reports for the same offer. */
  method MeasuredAsCalculated(child: Widget, registry: EventRegistry, onDown: Handler, onMotion: Handler, offer: Size)
    returns (own: Size, measured: Size)
    requires registry.Valid()
    modifies child, registry
    ensures own == measured
  {
    var b := new Button(0, child, false, false, false, None, registry, onDown, onMotion);
    own := b.CalculateSize(offer.w, offer.h);
    measured := b.node.sizing(offer);
  }
}
