/** src/pygame_widgets/radio_button.py: an on/off button toggled by clicks,
    whose mask is the disc drawn in a square as large as the rect's shorter
    side. */
module LegacyRadio {
  import opened Wrappers
  import opened Geometry
  import opened LegacyInternal
  import opened LegacyUtils

  datatype RadioImage = InactiveImage | ActiveImage

  /** The side of the square the images and the mask are drawn in. */
  function Side(rect: Rect): int {
    Min(rect.width, rect.height)
  }

  /** The click test of the corrected handler: a point inside the rect hits
      when there is no mask, or when it falls on the mask square and its bit
      there is set; a point past the square, inside a non-square rect, misses
      instead of raising. */
  function RadioHit(p: Point, rect: Rect, mask: Option<Mask>): (hit: bool)
    ensures hit ==> rect.CollidePoint(p)
    ensures mask.Some? && hit ==> mask.value.Contains(p.x - rect.x, p.y - rect.y)
  {
    rect.CollidePoint(p)
    && (mask.None? || (mask.value.Contains(p.x - rect.x, p.y - rect.y) && mask.value.bits(p.x - rect.x, p.y - rect.y)))
  }

  /** The corrected test never raises and agrees with `collide_point` wherever
      that does not raise; `collide_point` raises exactly for the points of the
      rect outside the mask square. */
  lemma RadioHitAgrees(p: Point, rect: Rect, mask: Option<Mask>)
    ensures CollidePoint(p, rect, mask).Success? ==> RadioHit(p, rect, mask) == CollidePoint(p, rect, mask).value
    ensures CollidePoint(p, rect, mask).Failure? <==>
      mask.Some? && rect.CollidePoint(p) && !mask.value.Contains(p.x - rect.x, p.y - rect.y)
  {
  }

  /** For a square rect the mask square is the rect, so `collide_point` never
      raises; for a 100 x 50 rect, a click at (70, 10) is inside the rect but
      past the 50-pixel mask, and `collide_point` raises where the corrected
      test reports a miss. */
  lemma NonSquareRectRaises(bits: (int, int) -> bool, rect: Rect, p: Point)
    ensures rect.width == rect.height ==>
      CollidePoint(p, rect, Some(Mask(Side(rect), Side(rect), bits))).Success?
    ensures var r := Rect(0, 0, 100, 50);
      && CollidePoint(Point(70, 10), r, Some(Mask(Side(r), Side(r), bits))) == Failure(IndexError)
      && !RadioHit(Point(70, 10), r, Some(Mask(Side(r), Side(r), bits)))
  {
    CollidePointReadsInsideRect(p, rect, Some(Mask(Side(rect), Side(rect), bits)));
  }

  class RadioButton {
    const rect: Rect
    const mask: Option<Mask>
    const handle: StateHandle<bool>
    var image: RadioImage
    var dirty: int

    predicate Valid()
      reads this, handle
    {
      handle.state.Some?
    }

    function IsOn(): bool
      requires Valid()
      reads this, handle
    {
      handle.state.value
    }

    /** `RadioButton.__init__`: registers the click callback, builds the mask
        (by default) in the side x side square, shows the inactive image and
        starts off, which marks a change, the state having been unset. */
    constructor (rect: Rect, collideOnMask: bool, maskBits: (int, int) -> bool, runtime: Runtime, onPress: Handler)
      requires runtime.Valid()
      modifies runtime
      ensures Valid() && !IsOn() && handle.changed && fresh(handle)
      ensures this.rect == rect && image == InactiveImage && dirty == 1
      ensures collideOnMask ==> mask == Some(Mask(Side(rect), Side(rect), maskBits))
      ensures !collideOnMask ==> mask == None
      ensures runtime.Valid() && runtime.handlers == Added(old(runtime.handlers), MOUSEBUTTONDOWN, onPress)
    {
      this.rect := rect;
      mask := if collideOnMask then Some(Mask(Side(rect), Side(rect), maskBits)) else None;
      image := InactiveImage;
      dirty := 1;
      var h := new StateHandle<bool>();
      handle := h;
      new;
      runtime.AddEventHandler(MOUSEBUTTONDOWN, onPress);
      h.Set(false);
    }

    /** `redraw`: the active image exactly when on; the sprite is marked dirty. */
    method Redraw()
      requires Valid()
      modifies this`image, this`dirty
      ensures (image == ActiveImage <==> IsOn()) && dirty == 1
    {
      image := if handle.state.value then ActiveImage else InactiveImage;
      dirty := 1;
    }

    /** The `is_on` setter: redraws only when the change mark was set, which a
        value equal to the current one does not do by itself. */
    method SetIsOn(value: bool)
      requires Valid()
      modifies handle, this`image, this`dirty
      ensures Valid() && IsOn() == value && !handle.changed
      ensures old(handle.changed) || old(IsOn()) != value ==> (image == ActiveImage <==> value) && dirty == 1
      ensures !old(handle.changed) && old(IsOn()) == value ==> image == old(image) && dirty == old(dirty)
    {
      handle.Set(value);
      var c := handle.StateChanged();
      if c {
        Redraw();
      }
    }

    /** `_mouse_click_cb` as written: any button toggles, through
        `collide_point`, which raises for a point of a non-square rect beyond
        the mask square. The change mark is set and not read. */
    method MouseClickAsWritten(pos: Point) returns (r: Result<()>)
      requires Valid()
      modifies handle, this`image, this`dirty
      ensures Valid()
      ensures CollidePoint(pos, rect, mask).Failure? ==>
        r == Failure(IndexError) && IsOn() == old(IsOn()) && image == old(image) && dirty == old(dirty)
      ensures CollidePoint(pos, rect, mask) == Success(false) ==>
        r == Success(()) && IsOn() == old(IsOn()) && image == old(image) && dirty == old(dirty)
      ensures CollidePoint(pos, rect, mask) == Success(true) ==>
        r == Success(()) && IsOn() == !old(IsOn()) && handle.changed && (image == ActiveImage <==> IsOn()) && dirty == 1
    {
      var collision := CollidePoint(pos, rect, mask);
      if collision.Failure? {
        return Failure(collision.error);
      }
      r := Success(());
      if !collision.value {
        return;
      }
      handle.Set(!handle.state.value);
      Redraw();
    }

    /** The click handler with the corrected test: a click that hits toggles
        and redraws; any other click, including one past the mask square,
        changes nothing. */
    method MouseClick(pos: Point)
      requires Valid()
      modifies handle, this`image, this`dirty
      ensures Valid()
      ensures RadioHit(pos, rect, mask) ==>
        IsOn() == !old(IsOn()) && handle.changed && (image == ActiveImage <==> IsOn()) && dirty == 1
      ensures !RadioHit(pos, rect, mask) ==>
        IsOn() == old(IsOn()) && handle.changed == old(handle.changed) && image == old(image) && dirty == old(dirty)
    {
      if !RadioHit(pos, rect, mask) {
        return;
      }
      handle.Set(!handle.state.value);
      Redraw();
    }
  }

  /** A default radio button (mask collision on) of 100 x 50: clicking at
      (70, 10) raises as written, while the corrected handler leaves it off. */
  method NonSquareRadioClick(runtime: Runtime, bits: (int, int) -> bool) returns (asWritten: Result<()>, onAfterFix: bool)
    requires runtime.Valid()
    modifies runtime
    ensures asWritten == Failure(IndexError) && !onAfterFix
  {
    var a := new RadioButton(Rect(0, 0, 100, 50), true, bits, runtime, 1);
    asWritten := a.MouseClickAsWritten(Point(70, 10));
    var b := new RadioButton(Rect(0, 0, 100, 50), true, bits, runtime, 2);
    b.MouseClick(Point(70, 10));
    onAfterFix := b.IsOn();
  }
}
