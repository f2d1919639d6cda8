/** pygame_widgets/window.py: a floating window with a title bar, minimize and
    close buttons, border hit-rects for resizing and one child. */
module Window {
  import opened Wrappers
  import opened Geometry
  import opened Widget
  import opened Enums
  import opened Overflow
  import opened GuineaEvents

  const RESIZE_RECT_TOLERANCE: int := 2
  const TITLE_OFFSET: int := 2
  const BORDER_THICKNESS: int := 1

  /** `_calculate_title_bar_rect`: the window's top strip, as high as the title
      font plus an offset above and below. */
  function TitleBarRect(base: Rect, fontHeight: nat): (r: Rect)
    ensures r.x == base.x && r.y == base.y && r.Right() == base.Right()
    ensures r.height == fontHeight + 2 * TITLE_OFFSET
  {
    Rect(base.x, base.y, base.width, fontHeight + TITLE_OFFSET * 2)
  }

  /** `_calculate_child_rect`: the area below the title bar inside the border,
      relative to the window's own origin. */
  function ChildRect(base: Rect, title: Rect): (r: Rect)
    ensures r.x == BORDER_THICKNESS && r.x + r.width == base.width - BORDER_THICKNESS
    ensures r.y == title.height + BORDER_THICKNESS && r.y + r.height == base.height - BORDER_THICKNESS
  {
    Rect(BORDER_THICKNESS, title.height + BORDER_THICKNESS,
         base.width - BORDER_THICKNESS * 2, base.height - title.height - BORDER_THICKNESS * 2)
  }

  /** The child's area moved to the window's position on screen. */
  function Absolute(r: Rect, origin: Rect): Rect {
    Rect(origin.x + r.x, origin.y + r.y, r.width, r.height)
  }

  /** The title bar, the child's area and the one-pixel border tile the window:
      the child's area starts one border below the title bar and ends one border
      inside each of the window's other edges. */
  lemma ChromeTilesWindow(base: Rect, fontHeight: nat)
    ensures var title := TitleBarRect(base, fontHeight);
      var inner := Absolute(ChildRect(base, title), base);
      && title.x == base.x && title.y == base.y && title.Right() == base.Right()
      && title.height == fontHeight + 4
      && inner.x == base.x + BORDER_THICKNESS && inner.Right() == base.Right() - BORDER_THICKNESS
      && inner.y == title.Bottom() + BORDER_THICKNESS && inner.Bottom() == base.Bottom() - BORDER_THICKNESS
  {
  }

  /** `_calculate_border_collide_rects`: strips of twice the tolerance centred
      on the left, right and bottom edges, in that order; there is no strip for
      the top edge. */
  function BorderCollideRects(base: Rect, tolerance: int): (rs: seq<(Rect, Side)>)
    ensures |rs| == 3 && rs[0].1 == Side.Left && rs[1].1 == Side.Right && rs[2].1 == Side.Bottom
    ensures rs[0].0.x + tolerance == base.x && rs[1].0.x + tolerance == base.Right()
    ensures rs[2].0.y + tolerance == base.Bottom()
  {
    var left := Rect(base.x - tolerance, base.y - tolerance, tolerance * 2, base.height + tolerance * 2);
    var right := Rect(base.Right() - tolerance, base.y - tolerance, tolerance * 2, base.height + tolerance * 2);
    var bottom := Rect(base.x - tolerance, base.Bottom() - tolerance, base.width + tolerance * 2, tolerance * 2);
    [(left, Side.Left), (right, Side.Right), (bottom, Side.Bottom)]
  }

  /** A point is on a border strip exactly when it lies within the tolerance of
      that edge (and of the edges' span); the sides are left, right and bottom,
      never top. */
  lemma BorderStripsStraddleEdges(base: Rect, tolerance: int, p: Point)
    ensures var rs := BorderCollideRects(base, tolerance);
      && |rs| == 3 && rs[0].1 == Side.Left && rs[1].1 == Side.Right && rs[2].1 == Side.Bottom
      && (forall i :: 0 <= i < |rs| ==> rs[i].1 != Side.Top)
      && (rs[0].0.CollidePoint(p) <==>
            base.x - tolerance <= p.x < base.x + tolerance && base.y - tolerance <= p.y < base.Bottom() + tolerance)
      && (rs[1].0.CollidePoint(p) <==>
            base.Right() - tolerance <= p.x < base.Right() + tolerance && base.y - tolerance <= p.y < base.Bottom() + tolerance)
      && (rs[2].0.CollidePoint(p) <==>
            base.x - tolerance <= p.x < base.Right() + tolerance && base.Bottom() - tolerance <= p.y < base.Bottom() + tolerance)
  {
  }

  /** The side of the first strip, in list order, that contains the point. */
  function FirstHit(rects: seq<(Rect, Side)>, p: Point): (r: Option<Side>)
    ensures r.Some? ==> exists i :: 0 <= i < |rects| && rects[i].0.CollidePoint(p) && rects[i].1 == r.value
  {
    if rects == [] then None
    else if rects[0].0.CollidePoint(p) then Some(rects[0].1)
    else FirstHit(rects[1..], p)
  }

  /** `FirstHit` finds a side exactly when some strip contains the point, and
      then it is the side of the earliest such strip. */
  lemma {:induction false} FirstHitIsEarliest(rects: seq<(Rect, Side)>, p: Point)
    ensures FirstHit(rects, p).None? <==> forall i :: 0 <= i < |rects| ==> !rects[i].0.CollidePoint(p)
    ensures FirstHit(rects, p).Some? ==>
      exists i :: 0 <= i < |rects| && rects[i].0.CollidePoint(p) && FirstHit(rects, p) == Some(rects[i].1)
        && forall j :: 0 <= j < i ==> !rects[j].0.CollidePoint(p)
  {
    if rects != [] && !rects[0].0.CollidePoint(p) {
      FirstHitIsEarliest(rects[1..], p);
      if FirstHit(rects, p).Some? {
        var i :| 0 <= i < |rects[1..]| && rects[1..][i].0.CollidePoint(p) && FirstHit(rects[1..], p) == Some(rects[1..][i].1)
          && forall j :: 0 <= j < i ==> !rects[1..][j].0.CollidePoint(p);
        assert rects[i + 1] == rects[1..][i];
        assert forall j :: 0 <= j < i + 1 ==> !rects[j].0.CollidePoint(p) by {
          forall j | 0 < j < i + 1 ensures !rects[j].0.CollidePoint(p) {
            assert rects[j] == rects[1..][j - 1];
          }
        }
      } else {
        forall i | 0 < i < |rects| ensures !rects[i].0.CollidePoint(p) {
          assert rects[i] == rects[1..][i - 1];
        }
      }
    }
  }

  /** The buttons' side: `int(0.4 * h)`. For a non-negative `h` the product
      in floating point is never below the exact value, so truncating it gives
      the floor of `2h / 5`. */
  function ButtonWidth(h: nat): (bw: nat)
    ensures 5 * bw <= 2 * h < 5 * bw + 5
  {
    (2 * h) / 5
  }

  /** The gap around a button inside the title bar, `(h - bw) // 2`. */
  function ButtonMargin(h: nat): (m: int)
    ensures 0 <= m && 2 * m + ButtonWidth(h) <= h < 2 * m + ButtonWidth(h) + 2
  {
    FloorDiv(h - ButtonWidth(h), 2)
  }

  /** The minimize button: a square one margin in from the window's top-left
      corner. */
  function MinimizeButtonRect(base: Rect, h: nat): (r: Rect)
    ensures r.width == r.height == ButtonWidth(h)
    ensures r.x - base.x == r.y - base.y == ButtonMargin(h)
  {
    Rect(base.x + ButtonMargin(h), base.y + ButtonMargin(h), ButtonWidth(h), ButtonWidth(h))
  }

  /** The close button: a square one margin in from the window's top-right
      corner. */
  function CloseButtonRect(base: Rect, h: nat): (r: Rect)
    ensures r.width == r.height == ButtonWidth(h)
    ensures base.Right() - r.Right() == r.y - base.y == ButtonMargin(h)
  {
    Rect(base.Right() - ButtonMargin(h) - ButtonWidth(h), base.y + ButtonMargin(h), ButtonWidth(h), ButtonWidth(h))
  }

  /** Both buttons are squares centred vertically in the title bar (to within
      one pixel), the minimize button one margin from the left edge and the close
      button one margin from the right edge. */
  lemma ButtonsInsideTitleBar(base: Rect, fontHeight: nat)
    ensures var title := TitleBarRect(base, fontHeight);
      var h := title.height;
      var mini, close := MinimizeButtonRect(base, h), CloseButtonRect(base, h);
      && 0 <= ButtonWidth(h) < h && ButtonMargin(h) > 0
      && mini.y == close.y && mini.width == mini.height == close.width == close.height
      && title.y < mini.y && mini.Bottom() < title.Bottom()
      && (mini.y - title.y) - (title.Bottom() - mini.Bottom()) in {-1, 0}
      && mini.x - title.x == ButtonMargin(h) && title.Right() - close.Right() == ButtonMargin(h)
  {
  }

  /** The rect after a resize drag by `rel` on `side`; no side, or the top
      side, leaves it as it is. */
  function Resized(r: Rect, side: Option<Side>, rel: Point): Rect {
    match side
    case Some(Left) => Rect(r.x + rel.x, r.y, r.width - rel.x, r.height)
    case Some(Right) => Rect(r.x, r.y, r.width + rel.x, r.height)
    case Some(Bottom) => Rect(r.x, r.y, r.width, r.height + rel.y)
    case _ => r
  }

  /** Dragging a border moves that edge only: a left drag keeps the right edge,
      a right drag keeps the left edge, a bottom drag keeps the top edge, and
      the dragged edge follows the mouse. */
  lemma ResizeMovesOneEdge(r: Rect, side: Side, rel: Point)
    requires side != Side.Top
    ensures var s := Resized(r, Some(side), rel);
      && s.y == r.y
      && (side == Side.Left ==> s.Right() == r.Right() && s.x == r.x + rel.x && s.height == r.height)
      && (side == Side.Right ==> s.x == r.x && s.Right() == r.Right() + rel.x && s.height == r.height)
      && (side == Side.Bottom ==> s.x == r.x && s.width == r.width && s.Bottom() == r.Bottom() + rel.y)
  {
  }

  function Translated(r: Rect, rel: Point): Rect {
    Rect(r.x + rel.x, r.y + rel.y, r.width, r.height)
  }

  /** The three `events.register_handler` calls of `Window.__init__`. */
  method RegisterCallbacks(registry: EventRegistry, onDown: Handler, onMotion: Handler, onUp: Handler)
    requires registry.Valid()
    modifies registry
    ensures registry.Valid()
    ensures registry.State() == Register(Register(Register(old(registry.State()),
      MOUSEBUTTONDOWN, onDown), MOUSEMOTION, onMotion), MOUSEBUTTONUP, onUp)
  {
    registry.RegisterHandler(MOUSEBUTTONDOWN, onDown);
    registry.RegisterHandler(MOUSEMOTION, onMotion);
    registry.RegisterHandler(MOUSEBUTTONUP, onUp);
  }

  /** The class attribute `Window._grab_lock`, shared by every window. */
  class GrabLock {
    var held: bool

    constructor ()
      ensures !held
    {
      held := false;
    }
  }

  class Window {
    const node: Widget
    const child: Widget
    /** the title font's height */
    const fontHeight: nat
    const lock: GrabLock
    var isMoving: bool
    var resizeSide: Option<Side>
    var isMinimized: bool
    var highlightMinimize: bool
    var highlightClose: bool
    var minimizeBtnRect: Rect
    var closeBtnRect: Rect
    var btnWidth: int
    var btnMargin: int
    var titleBarRect: Rect
    var childRect: Rect
    var borderRects: seq<(Rect, Side)>
    /** `kill()` was called */
    var killed: bool
    /** the window was moved to the top layer of its group */
    var raised: bool

    /** No border strip is for the top side, so no resize from the top starts. */
    predicate Valid()
      reads this
    {
      && resizeSide != Some(Side.Top)
      && forall i :: 0 <= i < |borderRects| ==> borderRects[i].1 != Side.Top
    }

    /** `Window.__init__`: the window adopts its child, starts idle, expanded and
        with empty hit-rects, and registers its three mouse callbacks. */
    constructor (id: WidgetId, child: Widget, rect: Rect, fontHeight: nat, lock: GrabLock,
                 registry: EventRegistry, onDown: Handler, onMotion: Handler, onUp: Handler)
      requires registry.Valid()
      modifies child`parent, registry
      ensures this.child == child && this.lock == lock && this.fontHeight == fontHeight
      ensures fresh(node) && node != child && !node.isContainer && child.parent == node
      ensures node.GetRect() == rect && node.GetFlags() == Flags(true, true, true) && node.visible
      ensures forall s :: node.sizing(s) == s
      ensures !node.clearsRecalculate && !node.clearsRedraw
      ensures !isMoving && resizeSide == None && !isMinimized && !highlightMinimize && !highlightClose
      ensures minimizeBtnRect == closeBtnRect == titleBarRect == childRect == Rect(0, 0, 0, 0)
      ensures btnWidth == 0 && btnMargin == 0 && borderRects == [] && !killed && !raised
      ensures Valid()
      ensures registry.Valid()
      ensures registry.State() == Register(Register(Register(old(registry.State()),
        MOUSEBUTTONDOWN, onDown), MOUSEMOTION, onMotion), MOUSEBUTTONUP, onUp)
    {
      node := new Widget(id, Some(rect), s => s, false, false);
      this.child := child;
      this.fontHeight := fontHeight;
      this.lock := lock;
      isMoving, resizeSide, isMinimized := false, None, false;
      highlightMinimize, highlightClose := false, false;
      minimizeBtnRect, closeBtnRect := Rect(0, 0, 0, 0), Rect(0, 0, 0, 0);
      titleBarRect, childRect := Rect(0, 0, 0, 0), Rect(0, 0, 0, 0);
      btnWidth, btnMargin := 0, 0;
      borderRects := [];
      killed, raised := false, false;
      new;
      child.SetParent(node);
      RegisterCallbacks(registry, onDown, onMotion, onUp);
    }

    /** `_mouse_button_up_callback`: any release frees the shared lock and ends
        moving and resizing. */
    method MouseButtonUp()
      modifies lock, this`isMoving, this`resizeSide
      ensures !lock.held && !isMoving && resizeSide == None
      ensures Valid() == old(forall i :: 0 <= i < |borderRects| ==> borderRects[i].1 != Side.Top)
    {
      lock.held := false;
      isMoving := false;
      resizeSide := None;
    }

    /** The hover part of `_mouse_move_callback`: each highlight flag becomes
        containment in its button, and the result says whether either flipped. */
    method UpdateHover(pos: Point) returns (flipped: bool)
      modifies this`highlightMinimize, this`highlightClose
      ensures highlightMinimize == minimizeBtnRect.CollidePoint(pos)
      ensures highlightClose == closeBtnRect.CollidePoint(pos)
      ensures flipped == (highlightMinimize != old(highlightMinimize) || highlightClose != old(highlightClose))
    {
      var overMinimize, overClose := minimizeBtnRect.CollidePoint(pos), closeBtnRect.CollidePoint(pos);
      flipped := overMinimize != highlightMinimize || overClose != highlightClose;
      highlightMinimize, highlightClose := overMinimize, overClose;
    }

    /** `_mouse_move_callback`: a moving window follows the mouse; the hover
        flags become hit-rect containment and request a redraw only when they
        flip; a resize drags the selected edge. Resizing from the top fails the
        assertion after the move and hover updates have been made. */
    method MouseMove(pos: Point, rel: Point) returns (r: Result<()>)
      modifies this`highlightMinimize, this`highlightClose
      modifies node`x, node`y, node`width, node`height, node`needsRedraw, node`needsReposition
      ensures highlightMinimize == minimizeBtnRect.CollidePoint(pos)
      ensures highlightClose == closeBtnRect.CollidePoint(pos)
      ensures var moved := if old(isMoving) then Translated(old(node.GetRect()), rel) else old(node.GetRect());
        && (resizeSide == Some(Side.Top) ==> r == Failure(AssertionError) && node.GetRect() == moved)
        && (resizeSide != Some(Side.Top) ==> r == Success(()) && node.GetRect() == Resized(moved, resizeSide, rel))
      ensures var resizing := resizeSide.Some? && r.Success?;
        && node.needsRedraw == (old(node.needsRedraw) || isMoving || resizing
             || highlightMinimize != old(highlightMinimize) || highlightClose != old(highlightClose))
        && node.needsReposition == (old(node.needsReposition) || isMoving || resizing)
      ensures old(Valid()) ==> r.Success?
    {
      var moved := node.GetRect();
      var redraw, reposition := node.needsRedraw, node.needsReposition;
      if isMoving {
        moved := Translated(moved, rel);
        redraw, reposition := true, true;
      }
      var flipped := UpdateHover(pos);
      redraw := redraw || flipped;
      r := Success(());
      if resizeSide.Some? {
        if resizeSide.value == Side.Top {
          r := Failure(AssertionError);
        } else {
          moved := Resized(moved, resizeSide, rel);
          redraw, reposition := true, true;
        }
      }
      node.SetRect(moved);
      node.needsRedraw, node.needsReposition := redraw, reposition;
    }

    /** `_mouse_button_down_callback`: a press on the close button kills the
        window and nothing else happens; otherwise a press on the minimize button
        toggles it and shows or hides the child, a press on the title bar while
        no window holds the lock takes it, starts moving and raises the window,
        and a press on a border strip of an expanded window selects the first
        matching side. */
    method MouseButtonDown(pos: Point)
      requires node != child
      modifies this`killed, this`isMinimized, this`isMoving, this`raised, this`resizeSide, lock
      modifies child`visible, node`needsRedraw, node`needsReposition
      ensures closeBtnRect.CollidePoint(pos) ==>
        && killed && isMinimized == old(isMinimized) && isMoving == old(isMoving) && raised == old(raised)
        && resizeSide == old(resizeSide) && lock.held == old(lock.held) && child.visible == old(child.visible)
        && node.GetFlags() == old(node.GetFlags())
      ensures !closeBtnRect.CollidePoint(pos) ==>
        var toggle := minimizeBtnRect.CollidePoint(pos);
        var grab := titleBarRect.CollidePoint(pos) && !old(lock.held);
        var hit := FirstHit(borderRects, pos);
        && killed == old(killed)
        && isMinimized == (old(isMinimized) != toggle)
        && (toggle ==> child.visible == !isMinimized && node.needsRedraw && node.needsReposition)
        && (!toggle ==> child.visible == old(child.visible) && node.GetFlags() == old(node.GetFlags()))
        && lock.held == (old(lock.held) || grab)
        && isMoving == (old(isMoving) || grab) && raised == (old(raised) || grab)
        && resizeSide == (if !isMinimized && hit.Some? then hit else old(resizeSide))
      ensures old(Valid()) ==> Valid()
    {
      if closeBtnRect.CollidePoint(pos) {
        killed := true;
        return;
      }
      if minimizeBtnRect.CollidePoint(pos) {
        isMinimized := !isMinimized;
        child.visible := !isMinimized;
        node.needsRedraw := true;
        node.needsReposition := true;
      }
      if titleBarRect.CollidePoint(pos) && !lock.held {
        lock.held := true;
        isMoving := true;
        raised := true;
      }
      if !isMinimized {
        var found: Option<Side> := None;
        var i := 0;
        while i < |borderRects|
          invariant 0 <= i <= |borderRects|
          invariant found.None? ==> FirstHit(borderRects[i..], pos) == FirstHit(borderRects, pos)
          invariant found.Some? ==> found == FirstHit(borderRects, pos)
          modifies {}
        {
          assert borderRects[i..][1..] == borderRects[i + 1..];
          if borderRects[i].0.CollidePoint(pos) {
            found := Some(borderRects[i].1);
            break;
          }
          i := i + 1;
        }
        if found.Some? {
          resizeSide := found;
        }
      }
    }

    /** `Window.calculate_size`: the window takes the whole offer, rebuilds its
        chrome from it, and, unless minimized, offers the child the area inside
        the chrome. The base method is never called, so the recalculate flag
        stays as it was. */
    method CalculateSize(maxWidth: int, maxHeight: int) returns (s: Size)
      requires node != child
      modifies this`titleBarRect, this`borderRects, this`btnWidth, this`btnMargin
      modifies this`minimizeBtnRect, this`closeBtnRect, this`childRect
      modifies node`width, node`height
      modifies child`needsRecalculate, child`width, child`height, child`offers
      ensures s == Size(maxWidth, maxHeight) && node.GetRect() == Rect(old(node.x), old(node.y), maxWidth, maxHeight)
      ensures node.needsRecalculate == old(node.needsRecalculate)
      ensures var h := titleBarRect.height;
        && titleBarRect == TitleBarRect(node.GetRect(), fontHeight)
        && borderRects == BorderCollideRects(if isMinimized then titleBarRect else node.GetRect(), RESIZE_RECT_TOLERANCE)
        && btnWidth == ButtonWidth(h) && btnMargin == ButtonMargin(h)
        && minimizeBtnRect == MinimizeButtonRect(node.GetRect(), h)
        && closeBtnRect == CloseButtonRect(node.GetRect(), h)
      ensures !isMinimized ==>
        && childRect == ChildRect(node.GetRect(), titleBarRect)
        && child.offers == old(child.offers) + [childRect.GetSize()]
        && child.GetRect().GetSize() == child.sizing(childRect.GetSize()) && child.needsRecalculate == (!child.clearsRecalculate && old(child.needsRecalculate))
      ensures isMinimized ==>
        && childRect == old(childRect) && child.offers == old(child.offers)
        && child.GetRect() == old(child.GetRect()) && child.needsRecalculate == old(child.needsRecalculate)
      ensures Valid() == (resizeSide != Some(Side.Top))
    {
      node.width, node.height := maxWidth, maxHeight;
      var base := node.GetRect();
      var title := TitleBarRect(base, fontHeight);
      var h := title.height;
      titleBarRect := title;
      borderRects := BorderCollideRects(if !isMinimized then base else title, RESIZE_RECT_TOLERANCE);
      btnWidth, btnMargin := ButtonWidth(h), ButtonMargin(h);
      minimizeBtnRect, closeBtnRect := MinimizeButtonRect(base, h), CloseButtonRect(base, h);
      if !isMinimized {
        childRect := ChildRect(base, title);
        var _ := child.Measure(childRect.width, childRect.height);
      }
      s := Size(maxWidth, maxHeight);
    }

    /** `Window.set_placement`: the window moves to (x, y) and the child is put
        at its area's origin relative to the window, not on screen. */
    method SetPlacement(x: int, y: int)
      requires node != child
      modifies node`needsReposition, node`x, node`y
      modifies child`needsReposition, child`x, child`y
      ensures node.x == x && node.y == y && !node.needsReposition
      ensures child.x == childRect.x && child.y == childRect.y && !child.needsReposition
    {
      node.SetPlacement(x, y);
      child.SetPlacement(childRect.x, childRect.y);
    }
  }

  /** Two windows share the lock: when a press lands on both title bars, the
      window that handles it first moves and the other one does not, until a
      release frees the lock. */
  method GrabLockIsExclusive(a: Window, b: Window, pos: Point) returns (aMoving: bool, bMoving: bool, bAfterRelease: bool)
    requires a != b && a.lock == b.lock && !a.lock.held && !a.isMoving && !b.isMoving
    requires a.node != a.child && b.node != b.child
    requires a.titleBarRect.CollidePoint(pos) && b.titleBarRect.CollidePoint(pos)
    requires !a.closeBtnRect.CollidePoint(pos) && !b.closeBtnRect.CollidePoint(pos)
    modifies a, b, a.lock, a.node, a.child, b.node, b.child
    ensures aMoving && !bMoving && bAfterRelease
  {
    a.MouseButtonDown(pos);
    b.MouseButtonDown(pos);
    aMoving, bMoving := a.isMoving, b.isMoving;
    a.MouseButtonUp();
    b.MouseButtonDown(pos);
    bAfterRelease := b.isMoving;
  }

  /** A window at (100, 100) with a 14-pixel title font: after a layout pass
      its child sits at (1, 19), relative to the window, wherever the window is. */
  method ChildPlacedRelative(child: Widget, lock: GrabLock, registry: EventRegistry) returns (at: Point)
    requires registry.Valid()
    modifies child, registry
    ensures at == Point(1, 19)
  {
    var w := new Window(0, child, Rect(100, 100, 200, 150), 14, lock, registry, 1, 2, 3);
    var _ := w.CalculateSize(200, 150);
    w.SetPlacement(100, 100);
    at := Point(child.x, child.y);
  }
}
