/** src/pygame_widgets/button.py: a push button whose state moves between
    INACTIVE, HOVER and ACTIVE with the mouse. */
module LegacyButton {
  import opened Wrappers
  import opened Geometry
  import opened Overflow
  import opened LegacyInternal
  import opened LegacyUtils

  datatype ButtonState = Active | Inactive | Hover

  /** The two images rendered at construction. */
  datatype ButtonImage = InactiveImage | ActiveImage

  /** The user callbacks from the configuration. */
  datatype Callback = OnClick | OnHover | OnRelease

  /** The mouse events the button listens to; a release is not located. */
  datatype MouseEvent = Motion(pos: Point) | Press(pos: Point, button: int) | Release(button: int)

  /** The state after one mouse event, given whether the event's position
      hits the button: a disabled button never changes; motion is ignored while
      ACTIVE and otherwise hovers or leaves; a press with the activation button
      on the button activates it; a release with that button, anywhere,
      deactivates it. */
  function NextState(s: ButtonState, disabled: bool, e: MouseEvent, hit: bool, activate: int): (t: ButtonState)
    ensures disabled ==> t == s
    ensures t != s ==> (t == Active <==> e.Press?)
  {
    if disabled then s
    else match e
      case Motion(_) => if s == Active then s else if hit then Hover else Inactive
      case Press(_, b) => if hit && b == activate then Active else s
      case Release(b) => if b == activate then Inactive else s
  }

  /** The button becomes ACTIVE only through a press with the activation
      button that hits it, and stops being ACTIVE only through a release with
      that button; motion never touches an ACTIVE button. */
  lemma ActiveOnlyBetweenPressAndRelease(s: ButtonState, disabled: bool, e: MouseEvent, hit: bool, activate: int)
    ensures var t := NextState(s, disabled, e, hit, activate);
      && (t == Active && s != Active ==> !disabled && e.Press? && hit && e.button == activate)
      && (s == Active && t != Active ==> !disabled && e.Release? && e.button == activate && t == Inactive)
      && (e.Motion? ==> (t == Active <==> s == Active))
      && (disabled ==> t == s)
  {
  }

  /** `redraw` repaints for every state except a HOVER that does not show the
      active look. */
  predicate Repaints(s: ButtonState, activateOnHover: bool) {
    s != Hover || activateOnHover
  }

  /** The image `redraw` leaves: INACTIVE shows the inactive image, ACTIVE (and
      HOVER when hovering activates) the active one, and any other HOVER keeps
      whatever was shown. */
  function Shown(s: ButtonState, activateOnHover: bool, current: ButtonImage): (img: ButtonImage)
    ensures s == Inactive ==> img == InactiveImage
    ensures s == Active || (s == Hover && activateOnHover) ==> img == ActiveImage
    ensures !Repaints(s, activateOnHover) ==> img == current
  {
    if s == Inactive then InactiveImage
    else if s == Active || activateOnHover then ActiveImage
    else current
  }

  /** Where the label is blitted: the top-left corner, or, when centring, the
      position whose left and right gaps (and top and bottom gaps) differ by
      at most one pixel, the extra pixel going to the right or bottom. */
  function TextPosition(center: bool, image: Size, text: Size): (p: Point)
    ensures !center ==> p == Point(0, 0)
    ensures center ==> 0 <= (image.w - text.w) - 2 * p.x <= 1 && 0 <= (image.h - text.h) - 2 * p.y <= 1
  {
    if center then Point(FloorDiv(image.w - text.w, 2), FloorDiv(image.h - text.h, 2)) else Point(0, 0)
  }

  class Button {
    const rect: Rect
    const mask: Option<Mask>
    const activateButton: int
    const activateOnHover: bool
    const hasOnClick: bool
    const hasOnHover: bool
    const hasOnRelease: bool
    const handle: StateHandle<ButtonState>
    var disabled: bool
    var image: ButtonImage
    var dirty: int
    /** the user callbacks called so far, in order */
    var calls: seq<Callback>
    /** how many times `redraw` has run */
    var redraws: nat

    /** The state is always set, and a mask, taken from the button's own image,
        has the rect's size. */
    predicate Valid()
      reads this, handle
    {
      && handle.state.Some?
      && (mask.Some? ==> mask.value.width == rect.width && mask.value.height == rect.height)
    }

    function State(): ButtonState
      requires Valid()
      reads this, handle
    {
      handle.state.value
    }

    /** `Button.__init__`: registers the press, release and motion callbacks,
        shows the inactive image, builds the mask from it when asked to, and
        starts INACTIVE (which marks a change, the state having been unset). */
    constructor (rect: Rect, activateButton: int, activateOnHover: bool, isDisabled: bool,
                 hasOnClick: bool, hasOnHover: bool, hasOnRelease: bool, maskBits: Option<(int, int) -> bool>,
                 runtime: Runtime, onPress: Handler, onRelease: Handler, onMotion: Handler)
      requires runtime.Valid()
      modifies runtime
      ensures Valid() && State() == Inactive && handle.changed && fresh(handle)
      ensures this.rect == rect && this.activateButton == activateButton && this.activateOnHover == activateOnHover
      ensures this.hasOnClick == hasOnClick && this.hasOnHover == hasOnHover && this.hasOnRelease == hasOnRelease
      ensures disabled == isDisabled && image == InactiveImage && dirty == 1 && calls == [] && redraws == 0
      ensures maskBits.None? <==> mask.None?
      ensures runtime.Valid()
      ensures runtime.handlers ==
        Added(Added(Added(old(runtime.handlers), MOUSEBUTTONDOWN, onPress), MOUSEBUTTONUP, onRelease), MOUSEMOTION, onMotion)
    {
      this.rect := rect;
      this.activateButton, this.activateOnHover := activateButton, activateOnHover;
      this.hasOnClick, this.hasOnHover, this.hasOnRelease := hasOnClick, hasOnHover, hasOnRelease;
      disabled := isDisabled;
      image := InactiveImage;
      dirty := 1;
      calls, redraws := [], 0;
      mask := if maskBits.None? then None else Some(Mask(rect.width, rect.height, maskBits.value));
      var h := new StateHandle<ButtonState>();
      handle := h;
      new;
      runtime.AddEventHandler(MOUSEBUTTONDOWN, onPress);
      runtime.AddEventHandler(MOUSEBUTTONUP, onRelease);
      runtime.AddEventHandler(MOUSEMOTION, onMotion);
      h.Set(Inactive);
    }

    /** Whether a mouse position hits the button; the mask has the rect's
        size, so the lookup cannot raise. */
    function Hit(pos: Point): bool
      requires Valid()
      reads this, handle
    {
      CollidePointReadsInsideRect(pos, rect, mask);
      CollidePoint(pos, rect, mask).value
    }

    /** `redraw`: shows the image for the state, marking the sprite dirty
        whenever it repaints. */
    method Redraw()
      requires Valid()
      modifies this`image, this`dirty, this`redraws
      ensures image == Shown(State(), activateOnHover, old(image))
      ensures dirty == if Repaints(State(), activateOnHover) then 1 else old(dirty)
      ensures redraws == old(redraws) + 1
    {
      redraws := redraws + 1;
      var s := handle.state.value;
      if s == Inactive {
        image := InactiveImage;
        dirty := 1;
      } else if s == Active || (s == Hover && activateOnHover) {
        image := ActiveImage;
        dirty := 1;
      }
    }

    /** Reads and clears the change mark, and redraws when it was set. */
    method RedrawIfChanged()
      requires Valid()
      modifies handle`changed, this`image, this`dirty, this`redraws
      ensures Valid() && !handle.changed
      ensures old(handle.changed) ==>
        && image == Shown(State(), activateOnHover, old(image)) && redraws == old(redraws) + 1
        && dirty == if Repaints(State(), activateOnHover) then 1 else old(dirty)
      ensures !old(handle.changed) ==> image == old(image) && dirty == old(dirty) && redraws == old(redraws)
    {
      var c := handle.StateChanged();
      if c {
        Redraw();
      }
    }

    /** `_cursor_move_cb`. */
    method CursorMove(pos: Point)
      requires Valid()
      modifies handle, this`image, this`dirty, this`calls, this`redraws
      ensures Valid()
      ensures State() == NextState(old(State()), disabled, Motion(pos), Hit(pos), activateButton)
      ensures disabled || old(State()) == Active ==>
        && handle.changed == old(handle.changed) && image == old(image) && dirty == old(dirty)
        && calls == old(calls) && redraws == old(redraws)
      ensures !disabled && old(State()) != Active ==>
        && calls == old(calls) + (if Hit(pos) && hasOnHover then [OnHover] else [])
        && !handle.changed
        && (redraws == old(redraws) + 1 <==> old(handle.changed) || old(State()) != State())
      ensures redraws == old(redraws) + 1 ==>
        image == Shown(State(), activateOnHover, old(image))
        && dirty == (if Repaints(State(), activateOnHover) then 1 else old(dirty))
      ensures redraws == old(redraws) ==> image == old(image) && dirty == old(dirty)
    {
      if disabled || handle.state.value == Active {
        return;
      }
      var collision := Hit(pos);
      if collision {
        if hasOnHover {
          calls := calls + [OnHover];
        }
        handle.Set(Hover);
      } else {
        handle.Set(Inactive);
      }
      RedrawIfChanged();
    }

    /** `_mouse_click_cb`. */
    method MouseClick(pos: Point, button: int)
      requires Valid()
      modifies handle, this`image, this`dirty, this`calls, this`redraws
      ensures Valid()
      ensures State() == NextState(old(State()), disabled, Press(pos, button), Hit(pos), activateButton)
      ensures var accepted := !disabled && Hit(pos) && button == activateButton;
        && (!accepted ==>
              handle.changed == old(handle.changed) && image == old(image) && dirty == old(dirty)
              && calls == old(calls) && redraws == old(redraws))
        && (accepted ==>
              calls == old(calls) + (if hasOnClick then [OnClick] else []) && !handle.changed
              && (redraws == old(redraws) + 1 <==> old(handle.changed) || old(State()) != Active)
              && (redraws == old(redraws) + 1 ==> image == ActiveImage && dirty == 1))
      ensures redraws == old(redraws) + 1 ==>
        image == Shown(State(), activateOnHover, old(image))
        && dirty == (if Repaints(State(), activateOnHover) then 1 else old(dirty))
      ensures redraws == old(redraws) ==> image == old(image) && dirty == old(dirty)
    {
      if disabled {
        return;
      }
      var collision := Hit(pos);
      if !collision || button != activateButton {
        return;
      }
      if hasOnClick {
        calls := calls + [OnClick];
      }
      handle.Set(Active);
      RedrawIfChanged();
    }

    /** `_mouse_release_cb`: wherever the mouse is. */
    method MouseRelease(button: int)
      requires Valid()
      modifies handle, this`image, this`dirty, this`calls, this`redraws
      ensures Valid()
      ensures State() == NextState(old(State()), disabled, Release(button), false, activateButton)
      ensures var accepted := !disabled && button == activateButton;
        && (!accepted ==>
              handle.changed == old(handle.changed) && image == old(image) && dirty == old(dirty)
              && calls == old(calls) && redraws == old(redraws))
        && (accepted ==>
              calls == old(calls) + (if hasOnRelease then [OnRelease] else []) && !handle.changed
              && (redraws == old(redraws) + 1 <==> old(handle.changed) || old(State()) != Inactive)
              && (redraws == old(redraws) + 1 ==> image == InactiveImage && dirty == 1))
      ensures redraws == old(redraws) + 1 ==>
        image == Shown(State(), activateOnHover, old(image))
        && dirty == (if Repaints(State(), activateOnHover) then 1 else old(dirty))
      ensures redraws == old(redraws) ==> image == old(image) && dirty == old(dirty)
    {
      if disabled || button != activateButton {
        return;
      }
      if hasOnRelease {
        calls := calls + [OnRelease];
      }
      handle.Set(Inactive);
      RedrawIfChanged();
    }

    /** `set_enabled`. */
    method SetEnabled(value: bool)
      modifies this`disabled
      ensures disabled == !value
    {
      disabled := !value;
    }
  }

  /** A press and release with the activation button on an enabled button call
      the click and release callbacks in that order and leave it INACTIVE and
      showing the inactive image. */
  method ClickAndRelease(b: Button, pos: Point)
    requires b.Valid() && !b.disabled && b.Hit(pos) && b.hasOnClick && b.hasOnRelease
    modifies b, b.handle
    ensures b.Valid() && b.State() == Inactive && b.image == InactiveImage
    ensures b.calls == old(b.calls) + [OnClick, OnRelease]
  {
    b.MouseClick(pos, b.activateButton);
    b.MouseRelease(b.activateButton);
  }
}
