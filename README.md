# pygame widget library — a Dafny model

This project models the logic of a retained-mode widget library built on
pygame, in two generations that live side by side in the repository.

- **The widget tree** (`pygame_widgets/` and `guinea/`). A node carries three
  dirty flags (recalculate, reposition, redraw). `update` runs the phases in
  that order against the parent's rect, or against the node's own rect when
  it is a root. Layout containers offer sizes to their children and place
  them:
  - padding;
  - the guinea container, with expand flags and alignment;
  - align and center;
  - row and column, with an even floor split;
  - stack;
  - both fullscreen variants;
  - the floating window, with its title bar, minimise and close buttons, a
    move/resize state machine and a grab lock shared by every window.

  Leaves size themselves: the rect, the image, the two text widgets and the
  guinea button. A process-wide switch selects floor or ceiling for the
  divisions that centre things.
- **Event plumbing.**
  - The guinea registry keeps a set of handlers per event kind.
  - The older `src/` runtime keeps a deduplicated, ordered list per kind and
    a FIFO of scheduled calls.
  - `StateHandle` is a value holder whose "changed" mark is set by a
    differing write and cleared by a read.
- **The older `src/` widgets.**
  - the push button's INACTIVE/HOVER/ACTIVE machine;
  - the radio toggle;
  - two saturating progress bars;
  - the list view's item placement;
  - the mask-aware `collide_point`;
  - the multi-line text sprite.

Pygame is reduced to what the logic needs:
- a rect is four integers;
- `collidepoint` is half-open containment;
- font metrics are a function from a line to its size;
- an image is its size plus a frame number telling renders apart;
- a child widget is a node whose `sizing` function stands for the size its
  own `calculate_size` reports, and that logs every offer it receives; the
  rectangle and the window report the offer, a text label the offer clamped
  by the size its lines need, and an image the offer clamped by its size;
  a layout's node reports what the layout's own rule computes from its
  children (for example `RowReport` for a row);
- a node records whether its `calculate_size` clears the recalculate flag:
  every one does except the window's, which never calls the base method;
- a node records whether its `redraw` clears the redraw flag: the base
  `redraw` does, while a container's `redraw` and the overrides of the
  rectangle, the two text labels and the window never do.

Classes whose fields the source updates in place are Dafny classes with
`modifies` frames. Pure helpers are functions, and every property that
relates several calls is a lemma.

Module layout, one file per source file:

| file | source |
|---|---|
| `wrappers.dfy`, `geometry.dfy`, `enums.dfy` | results and Python exceptions, rect arithmetic, the enumerations |
| `overflow.dfy` | `pygame_widgets/_internal.py` |
| `widget.dfy`, `linear.dfy` | `pygame_widgets/widget.py`; shared measuring loop of row, column and stack |
| `padding.dfy`, `container.dfy`, `align.dfy`, `row.dfy`, `column.dfy`, `stack.dfy`, `fullscreen.dfy`, `guinea_fullscreen.dfy`, `rect_widget.dfy`, `image.dfy`, `window.dfy` | the layout policies and leaves |
| `events.dfy`, `guinea_button.dfy`, `guinea_text.dfy`, `text_layout.dfy`, `text.dfy` | guinea events, button and text; the shared text layout; `pygame_widgets/text.py` |
| `legacy_internal.dfy`, `legacy_widget.dfy`, `legacy_button.dfy`, `legacy_radio.dfy`, `legacy_utils.dfy`, `legacy_progress.dfy`, `list_view.dfy`, `legacy_text.dfy` | the `src/pygame_widgets/` package |

Three behaviours of the code that are easy to misread are modelled as written:
- Row and column include a trailing spacing in their own size.
- The window places its child at the child rect's *relative* origin.
- The window never clears its own recalculate flag, so every update of a window
  that was ever marked for recalculation measures it again.

`guinea/widget.py` and `guinea/_internal.py` are not part of this model.
The guinea widgets are assumed to inherit the base behaviour of
`pygame_widgets/widget.py`, and the rounding rule of
`pygame_widgets/_internal.py`. `window.py` imports `events` and `enums`
modules that are not part of this model either. Their stand-ins are the guinea
registry and the guinea `Side` enumeration. `src/pygame_widgets/radio_button.py`
imports `StateHandle` and a handler-taking `WidgetBase` from a `widget` module
that declares neither. The versions in `src/pygame_widgets/internal.py` are
used instead. `pygame_widgets/window.py:130` calls `self.child.set_visible(...)`,
which neither `pygame_widgets/widget.py` nor pygame's `DirtySprite` defines;
`set_visible` is taken to set the child's `visible` flag.

## Model

| member | source | states |
|---|---|---|
| Overflow.FloorDiv | pygame_widgets/_internal.py:13-20 | the floor of x/y for either sign of y, as its defining inequalities |
| Overflow.CeilDiv | pygame_widgets/_internal.py:13-20 | the ceiling of x/y for either sign of y, as its defining inequalities |
| Overflow.DivideWithOverflow | pygame_widgets/_internal.py:13-20 | fails with ZeroDivisionError exactly when y = 0; otherwise it is the floor under UNDERFLOW and the ceiling under OVERFLOW |
| Overflow.Half | pygame_widgets/_internal.py:13-20 | halving under either rule is within one of x/2 on the side the rule rounds to |
| Overflow.RoundingsDifferByAtMostOne | pygame_widgets/_internal.py:13-18 | the two rules agree iff y divides x; otherwise the ceiling is the floor plus one |
| Overflow.OverflowSetting.constructor | pygame_widgets/_internal.py:5-11 | the process-wide setting starts as UNDERFLOW |
| Overflow.OverflowSetting.SetOverflowBehavior | pygame_widgets/_internal.py:9-11 | the setting becomes the given rule |
| Overflow.OverflowSetting.Divide | pygame_widgets/_internal.py:13-20 | divides by the current setting's rule, and raises on a zero divisor |
| Overflow.SettingAffectsLaterDivisions | pygame_widgets/_internal.py:9-18 | 100/3 gives 33 by default and 34 after OVERFLOW is selected |
| Widget.PhasesRun | pygame_widgets/widget.py:61-72 | recalculate runs iff its flag is set, reposition iff its flag is set, redraw iff any flag is set; at most three phases |
| Widget.FlagsAfterUpdate | pygame_widgets/widget.py:41-48 | after update no reposition is pending; a recalculate stays pending exactly for a node whose calculate_size does not clear it (the window, pygame_widgets/window.py:223-251) that had one; a redraw stays pending exactly for a node whose redraw does not clear it (a container, a rectangle, a text or a window) that ran some phase |
| Widget.RecalculateBeforeReposition | pygame_widgets/widget.py:61-67 | recalculate comes strictly before reposition in every update |
| Widget.RedrawIsLast | pygame_widgets/widget.py:69-72 | redraw is the last phase of an update |
| Widget.SecondUpdate | pygame_widgets/widget.py:61-76 | with no recalculate left over, a second update of a node whose redraw clears the flag runs nothing and any other node that ran a phase runs only the redraw again; a window marked for recalculation measures and redraws on every update; the flags after the first update are a fixed point |
| Widget.Widget.constructor | pygame_widgets/widget.py:23-36 | all three flags are set and there is no parent; without a rect the node is (0,0,0,0) with constraints (-1,-1), otherwise the constraints are the rect's size; sizing, whether calculate_size clears the recalculate flag and whether redraw clears the redraw flag come from the concrete class |
| Widget.Widget.Container | pygame_widgets/widget.py:85-102 | the children are kept in order, each child's parent is the container, the container is invisible with dirty 0, its calculate_size clears the recalculate flag and its redraw does not clear the redraw flag |
| Widget.Widget.SetParent | pygame_widgets/widget.py:38-39 | the parent link becomes the given node |
| Widget.Widget.CalculateSize | pygame_widgets/widget.py:41-42 | the base calculate_size clears the recalculate flag |
| Widget.Widget.SetPlacement | pygame_widgets/widget.py:44-48 | the base set_placement clears the reposition flag and writes x and y only |
| Widget.Widget.Measure | pygame_widgets/widget.py:41-42 | a dispatched calculate_size stores and returns the reported size and logs the offer; it clears the recalculate flag unless the node is a window's |
| Widget.Widget.Redraw | pygame_widgets/widget.py:74-76 | the base redraw clears the redraw flag; a container's (lines 99-101) and the rectangle, text and window overrides leave it as it was |
| Widget.Widget.Update | pygame_widgets/widget.py:50-72 | runs exactly PhasesRun of the old flags, leaves FlagsAfterUpdate of the node's two clearing behaviours, offers and places at the parent's rect (its own for a root), leaves size and position alone when their flags are clear, and sets dirty iff some phase ran |
| Widget.RegisterAppendsPreorder | pygame_widgets/widget.py:15-21 | registering a stack adds a node before its children, recursively (preorder), to the end of the group |
| Widget.RegisterAllAppendsPreorder | pygame_widgets/widget.py:19-21 | registering a list of subtrees appends their preorders in order |
| Widget.RegisterWidgetStack | pygame_widgets/widget.py:16-21 | registering a tree keeps what the group already held as a prefix and adds the tree's root |
| Padding.MakePaddingValue | pygame_widgets/padding.py:19-34 | one argument sets all four insets; two set left=right and top=bottom; four map in order; any other count raises ValueError (the PaddingValue of guinea/container.py:23-38 has the same three forms and the same error) |
| Padding.ArgumentFormsAgree | pygame_widgets/padding.py:19-42 | the one-, two- and four-argument forms agree, every value is produced by its own insets, and axis_x of a uniform padding is twice the inset |
| Padding.ChildBox | pygame_widgets/padding.py:55-71 | the child's box is inset by left/top on the near sides and by right/bottom on the far sides |
| Padding.Padding.constructor | pygame_widgets/padding.py:45-53 | the padding adopts its single child and starts with all flags set; its node reports the offer |
| Padding.Padding.CalculateSize | pygame_widgets/padding.py:55-66 | the child is offered (max_w - axis_x, max_h - axis_y), and the padding's size and result are the whole offer whatever the child reports |
| Padding.Padding.SetPlacement | pygame_widgets/padding.py:68-71 | the padding sits at (x, y) and its child at (x+left, y+top) |
| Padding.MeasuredAsCalculated | pygame_widgets/padding.py:55-66 | the padding's own calculate_size reports the size its node reports when measured |
| Padding.PaddingConservation | pygame_widgets/padding.py:55-66 | insets (4,4,2,2) under (100,100) offer the child (92,96) and keep (100,100) |
| GuineaContainer.OwnExtent | guinea/container.py:110-135 | an expanded axis takes the offer; otherwise 0 without a child, or the child's report without adding the padding back |
| GuineaContainer.EndAlignedTouchesFarInset | guinea/container.py:96-108 | with expand and BOTTOM/RIGHT the child's far edge lands at the container's far edge minus that inset |
| GuineaContainer.CenteredWithinOne | guinea/container.py:96-108 | with expand and CENTER the gaps before and after the child differ by at most one |
| GuineaContainer.Container.constructor | guinea/container.py:50-75 | the child (if any) is adopted; the padding defaults to zero; the container is visible iff it has a background; its node reports ContainerReport |
| GuineaContainer.Container.SetBg | guinea/container.py:80-82 | stores the background and requests a redraw |
| GuineaContainer.Container.SetFg | guinea/container.py:84-86 | stores the foreground and requests a redraw |
| GuineaContainer.Container.CalculateSize | guinea/container.py:110-135 | without a child the size comes from the expand flags; with one the child is offered the offer less the padding, and each axis takes the offer (expanded) or the child's report; the result is ContainerReport |
| GuineaContainer.Container.SetPlacement | guinea/container.py:88-108 | the container sits at (x, y); the child is placed at the inset corner plus the alignment shift, which is zero on a non-expanded axis |
| GuineaContainer.ContainerReport | guinea/container.py:110-135 | without a child each axis is the offer if expanded and 0 otherwise; with a child each axis is the offer if expanded and otherwise the child's report under the offer less the padding; the padding is not added back |
| GuineaContainer.MeasuredAsCalculated | guinea/container.py:110-135 | the container's own calculate_size reports the size its node reports when measured |
| Align.CenterShiftNonNegative | pygame_widgets/align.py:47-54 | the centring shift is never negative, even for a child larger than the offer |
| Align.ShiftPlacesChildInside | pygame_widgets/align.py:45-56 | a fitting centred child leaves gaps differing by at most one; RIGHT/BOTTOM makes the child touch the far edge |
| Align.Align.constructor | pygame_widgets/align.py:21-34 | adopts the child, keeps both policies, and nothing is available yet; its node reports the child's report |
| Align.Align.Center | pygame_widgets/align.py:61-71 | Center is an Align with both policies CENTER whose node reports the child's report |
| Align.Align.CalculateSize | pygame_widgets/align.py:36-43 | the child gets the full offer, the align takes the child's size, and the offer is remembered as the space available |
| Align.Align.SetPlacement | pygame_widgets/align.py:45-59 | LEFT/TOP add nothing, RIGHT/BOTTOM add available minus size, CENTER adds half the absolute gap; child and align share the position |
| Align.MeasuredAsCalculated | pygame_widgets/align.py:36-43 | the align's own calculate_size reports the size its node reports when measured |
| Align.CenteredExample | pygame_widgets/align.py:45-58 | a (40,20) child in (100,50) under floor is offset by (30,15) |
| Linear.Reports | pygame_widgets/row.py:28-37 | the reports of the children under one offer, in order |
| Linear.MaxWidthIsMaximum | pygame_widgets/column.py:24-36 | the running maximum from 0 bounds every width and is 0 or attained |
| Linear.MaxHeightIsMaximum | pygame_widgets/row.py:24-37 | the running maximum from 0 bounds every height and is 0 or attained |
| Linear.MeasureAll | pygame_widgets/stack.py:21-24 | every child is measured once under the offer, in order: the offer is logged, the size becomes the report and the recalculate flag is cleared unless the child is a window; position, constraints, reposition and redraw flags, parent, children, visibility and dirty mark are unchanged |
| Linear.Accumulate | pygame_widgets/row.py:24-34 | the running maxima of the reported widths and heights from 0, and the offset grown by one step per child |
| Linear.SlotExtent | pygame_widgets/row.py:26-27 | the floor split divides by zero exactly when there are no children |
| Linear.SlotsFillTotal | pygame_widgets/row.py:26-31 | n slots and n-1 spacings fit in the total, and one more pixel per slot would not |
| Linear.NeighboursDoNotOverlap | pygame_widgets/row.py:41-47 | a child no wider than its slot ends before the next child starts |
| Linear.PlaceAll | pygame_widgets/row.py:41-47 | child i is placed at the origin plus i steps, its size is kept and its reposition request is cleared; only x, y and the reposition flag of the children change |
| Row.Row.constructor | pygame_widgets/row.py:10-19 | adopts the distinct children in order with the given spacing; the node, measured by a parent, reports RowReport of its children |
| Row.Row.CalculateSize | pygame_widgets/row.py:21-39 | each child is offered (floor slot, max_h); the row is n*(slot+spacing) wide and as high as its highest child; no children raise ZeroDivisionError |
| Row.RowReport | pygame_widgets/row.py:21-39 | a row reports a failure exactly when it has no children |
| Row.MeasuredAsCalculated | pygame_widgets/row.py:21-39 | a row fails to measure exactly when it has no children, and otherwise its own calculate_size reports the size its node reports when measured |
| Row.Row.SetPlacement | pygame_widgets/row.py:41-47 | child i sits at (x + i*(slot+spacing), y) with its size unchanged |
| Column.Column.constructor | pygame_widgets/column.py:10-19 | adopts the distinct children in order with the given spacing; the node, measured by a parent, reports ColumnReport of its children |
| Column.Column.CalculateSize | pygame_widgets/column.py:21-39 | each child is offered (max_w, floor slot); the column is n*(slot+spacing) high and as wide as its widest child; no children raise ZeroDivisionError |
| Column.ColumnReport | pygame_widgets/column.py:21-39 | a column reports a failure exactly when it has no children |
| Column.MeasuredAsCalculated | pygame_widgets/column.py:21-39 | a column fails to measure exactly when it has no children, and otherwise its own calculate_size reports the size its node reports when measured |
| Column.Column.SetPlacement | pygame_widgets/column.py:41-47 | child i sits at (x, y + i*(slot+spacing)) with its size unchanged |
| Stack.Stack.constructor | pygame_widgets/stack.py:9-13 | adopts the distinct children in order; the node, measured by a parent, reports StackReport of its children |
| Stack.Stack.CalculateSize | pygame_widgets/stack.py:15-32 | the first pass offers the full size, the stack takes the componentwise maximum (0,0 with no children), the second pass offers exactly that, and the result is the stored size |
| Stack.StackReport | pygame_widgets/stack.py:15-32 | the stack's report is non-negative and at least every child's report under the offer on both axes |
| Stack.MeasuredAsCalculated | pygame_widgets/stack.py:15-32 | the stack's own calculate_size reports the size its node reports when measured |
| Stack.Stack.SetPlacement | pygame_widgets/stack.py:34-38 | every child sits at the stack's origin with its size unchanged |
| Fullscreen.Fullscreen.constructor | pygame_widgets/fullscreen.py:9-18 | the rect starts at (0,0) with the display size; its node reports the child's report |
| Fullscreen.Fullscreen.CalculateSize | pygame_widgets/fullscreen.py:20-28 | the child is offered the current rect size, not the arguments; own size and result are the child's report |
| Fullscreen.Fullscreen.SetPlacement | pygame_widgets/fullscreen.py:30-33 | the child is placed at (0,0) whatever (x, y) is |
| Fullscreen.OfferIsIgnored | pygame_widgets/fullscreen.py:20-28 | two different offers produce the same child offer, the display size |
| Fullscreen.MeasuredAsCalculated | pygame_widgets/fullscreen.py:20-28 | the fullscreen's own calculate_size reports the size its node reports when offered its rect size |
| GuineaFullscreen.Fullscreen.constructor | guinea/fullscreen.py:12-23 | starts at (0,0) with the display size and registers its resize handler; its node reports the offer |
| GuineaFullscreen.Fullscreen.HandleVideoResize | guinea/fullscreen.py:25-30 | the rect takes the event size and keeps x, y; recalculate and reposition are requested |
| GuineaFullscreen.Fullscreen.SetParent | guinea/fullscreen.py:32-33 | always raises RuntimeError |
| GuineaFullscreen.Fullscreen.CalculateSize | guinea/fullscreen.py:35-43 | own size is the offer and the child is offered the same |
| GuineaFullscreen.Fullscreen.SetPlacement | guinea/fullscreen.py:45-48 | the child is placed at (0,0) |
| GuineaFullscreen.ResizeThenLayout | guinea/fullscreen.py:25-43 | after a resize, layout takes the new size and offers it to the child |
| GuineaFullscreen.MeasuredAsCalculated | guinea/fullscreen.py:35-43 | the fullscreen's own calculate_size reports the size its node reports when measured |
| RectWidget.RectWidget.constructor | pygame_widgets/rect.py:9-20 | keeps color, rounding and width with all flags set |
| RectWidget.RectWidget.CalculateSize | pygame_widgets/rect.py:39-45 | the rect takes the offer as its size and returns it, clearing only the recalculate flag |
| RectWidget.RectWidget.SetColor | pygame_widgets/rect.py:57-61 | stores the color, which the getter returns, and requests a redraw |
| RectWidget.RectWidget.SetRounding | pygame_widgets/rect.py:66-70 | stores the rounding and requests a redraw |
| RectWidget.RectWidget.SetLineWidth | pygame_widgets/rect.py:75-78 | stores the width and requests a redraw |
| RectWidget.SetterOnlyRedraws | pygame_widgets/rect.py:57-61 | a setter touches no flag but the redraw flag |
| Geometry.MinSize | pygame_widgets/image.py:57-60 | each axis is the smaller of the two sizes and equals one of them; the same clamp is the fit and crop target of guinea/text.py:59-62 |
| Image.ScaledSizeFits | pygame_widgets/image.py:62-79 | a fitting image keeps its size; otherwise the result fits the offer and never grows; scaling raises only for a negative target |
| Image.ScaledSizeIdempotent | pygame_widgets/image.py:62-79 | a second calculate_size under the same offer changes nothing |
| Image.ScaledSize | pygame_widgets/image.py:62-79 | scaling fails only with ValueError, and a scaled size never exceeds the image's on either axis |
| Image.Image.constructor | pygame_widgets/image.py:37-48 | keeps the image and filter with all flags set |
| Image.Image.CalculateSize | pygame_widgets/image.py:62-79 | the image is replaced by its scaled copy and the rect takes its size |
| Image.NeverGrows | pygame_widgets/image.py:73-78 | across repeated calculate_size calls the stored image never grows |
| Window.ChromeTilesWindow | pygame_widgets/window.py:258-276 | the title bar is fontHeight + 4 high across the top; the child area starts one border below it and ends one border inside the other edges |
| Window.BorderStripsStraddleEdges | pygame_widgets/window.py:278-305 | the three strips are LEFT, RIGHT, BOTTOM (never TOP), each containing exactly the points within the tolerance of its edge |
| Window.TitleBarRect | pygame_widgets/window.py:258-263 | the title bar shares the window's left, top and right edges and is the font height plus twice TITLE_OFFSET high |
| Window.ChildRect | pygame_widgets/window.py:265-276 | relative to the window, the child area starts one border in from the left and one border below the title bar, and ends one border inside the right and bottom edges |
| Window.BorderCollideRects | pygame_widgets/window.py:278-305 | the strips are for LEFT, RIGHT and BOTTOM in that order; the left and right strips start one tolerance before their edge, and the bottom strip one tolerance above the bottom edge |
| Window.FirstHit | pygame_widgets/window.py:151-155 | a selected side belongs to some strip that contains the point |
| Window.ButtonWidth | pygame_widgets/window.py:232 | the button width is the floor of 0.4 times the title height |
| Window.ButtonMargin | pygame_widgets/window.py:233 | the margin is non-negative and two margins plus the button fill the title height, with at most one pixel over |
| Window.MinimizeButtonRect | pygame_widgets/window.py:235-239 | the minimize button is a square of the button width one margin in from the window's left and top |
| Window.CloseButtonRect | pygame_widgets/window.py:241-245 | the close button is a square of the button width one margin in from the window's right and top |
| Window.FirstHitIsEarliest | pygame_widgets/window.py:151-155 | the selected side is that of the first strip containing the point, and none iff no strip contains it |
| Window.ButtonsInsideTitleBar | pygame_widgets/window.py:232-245 | both buttons are squares of width (2h)/5 inside the title bar, centred vertically to within a pixel, one margin from the left and right ends |
| Window.ResizeMovesOneEdge | pygame_widgets/window.py:104-117 | LEFT keeps the right edge, RIGHT adds dx to width, BOTTOM adds dy to height |
| Window.GrabLock.constructor | pygame_widgets/window.py:23-24 | the shared lock starts free |
| Window.Window.constructor | pygame_widgets/window.py:26-77 | adopts the child, starts idle and expanded with empty hit-rects, and registers its three callbacks |
| Window.Window.MouseButtonUp | pygame_widgets/window.py:79-83 | frees the shared lock and ends moving and resizing |
| Window.RegisterCallbacks | pygame_widgets/window.py:75-77 | the press, motion and release callbacks are added to their kinds' handler sets |
| Window.Window.UpdateHover | pygame_widgets/window.py:92-101 | each button's highlight becomes containment of the mouse in its hit-rect, and a flip is reported exactly when either highlight changed |
| Window.Window.MouseMove | pygame_widgets/window.py:85-117 | hover flags equal hit-rect containment; a move translates without resizing; a resize moves one edge; TOP fails the assertion; redraw is requested only on movement, resizing or a hover flip |
| Window.Window.MouseButtonDown | pygame_widgets/window.py:119-155 | a close hit kills the window and changes nothing else; a minimise hit toggles, hides or shows the child and requests redraw and reposition; a title press grabs only a free lock; a border press selects the first side only when not minimised |
| Window.Window.CalculateSize | pygame_widgets/window.py:223-251 | own size is the offer; title bar, border strips (from the title bar when minimised), button rects follow the geometry; the child is offered (w-2, h-th-2) only when not minimised; recalculate is never cleared |
| Window.Window.SetPlacement | pygame_widgets/window.py:253-256 | the window sits at (x, y) and the child at the relative child-rect origin |
| Window.GrabLockIsExclusive | pygame_widgets/window.py:136-139 | of two windows pressed on their title bars, only the first moves, until a release frees the lock |
| Window.ChildPlacedRelative | pygame_widgets/window.py:253-256 | a window at (100,100) with a 14-pixel font places its child at (1, 19) |
| GuineaEvents.Touch | guinea/events.py:8-10 | reading a kind in the default dictionary creates an empty set for it |
| GuineaEvents.RegisterAdds | guinea/events.py:12-13 | registering adds the handler to that kind's set and changes no other kind |
| GuineaEvents.RegisterIdempotent | guinea/events.py:12-13 | registering the same handler twice is the same as once |
| GuineaEvents.RegisterThenRemoveEverywhere | guinea/events.py:15-17 | after the intended unregister, the handler is under no kind |
| GuineaEvents.FirstMissing | guinea/events.py:15-17 | finds the first kind, in the order kinds entered the map, whose set lacks the handler |
| GuineaEvents.FirstMissingIffAbsentSomewhere | guinea/events.py:15-17 | the unregister loop fails iff the handler is missing under some kind present |
| GuineaEvents.EventRegistry.constructor | guinea/events.py:1-6 | the registry starts empty |
| GuineaEvents.EventRegistry.RegisterHandler | guinea/events.py:12-13 | the table becomes Register of the old one |
| GuineaEvents.EventRegistry.ProcessEvent | guinea/events.py:8-10 | calls each handler registered for the kind exactly once and no other; an unknown kind calls nothing and gains an empty set |
| GuineaEvents.EventRegistry.UnregisterHandlerAsWritten | guinea/events.py:15-17 | removes from kinds in order and raises KeyError at the first kind lacking the handler, with the earlier removals done |
| GuineaEvents.EventRegistry.UnregisterHandler | guinea/events.py:15-17 | removes the handler from every kind without raising |
| GuineaEvents.UnregisterAfterUnheardEvent | guinea/events.py:8-17 | a handler registered under one kind, after an event of another kind, makes unregister raise KeyError as written; the corrected one removes it everywhere |
| GuineaButton.HoverNotice | guinea/button.py:31-40 | a callback fires exactly when it is set and containment changes, and says whether the mouse entered |
| GuineaButton.HoverNoticesAlternate | guinea/button.py:34-40 | along any motion run, enter and leave notices alternate, starting opposite to the initial state |
| GuineaButton.Button.constructor | guinea/button.py:13-29 | adopts the child, starts unhovered and registers its press and motion handlers; its node reports the child's report |
| GuineaButton.Button.MouseMotion | guinea/button.py:31-40 | last-hovered always becomes the current containment, callback or not; the notice is HoverNotice of the old and new containment |
| GuineaButton.Button.Click | guinea/button.py:42-46 | on_click hears a press iff it lands in the rect and a callback is set |
| GuineaButton.Button.CalculateSize | guinea/button.py:48-53 | own size is the child's under the full offer |
| GuineaButton.Button.SetPlacement | guinea/button.py:55-58 | the child sits at the button's own origin |
| GuineaButton.MeasuredAsCalculated | guinea/button.py:48-53 | the button's own calculate_size reports the size its node reports when measured |
| TextLayout.Spaces | guinea/text.py:157-158 | the tab replacement consists of spaces only |
| TextLayout.ExpandTabs | guinea/text.py:157-158 | no tab survives, no newline is introduced, and tab-free text is unchanged |
| TextLayout.SplitLines | guinea/text.py:157-158 | split on newlines gives at least one piece and no piece holds a newline |
| TextLayout.SplitJoinRoundTrip | guinea/text.py:157-158 | joining the pieces with newlines gives back the text |
| TextLayout.JoinSplitRoundTrip | guinea/text.py:157-158 | splitting newline-free lines joined by newlines gives back the lines |
| TextLayout.NewlineFreeIsOneLine | pygame_widgets/text.py:105-108 | a text without newlines is a single line |
| TextLayout.DropEmpty | guinea/text.py:157-158 | no kept line is empty and every kept line comes from the input |
| TextLayout.SplitTextLinesKeepsText | guinea/text.py:157-158 | lines are non-empty, free of newlines and tabs, and in order concatenate to the expanded text without its newlines |
| TextLayout.SplitTextLines | guinea/text.py:157-158 | no kept line is empty |
| TextLayout.DropEmptyKeepsConcat | guinea/text.py:157-158 | dropping empty lines keeps the concatenation |
| TextLayout.ConcatOfSplit | guinea/text.py:157-158 | the pieces concatenate to the text without its newlines |
| TextLayout.MaxLineWidthIsWidest | guinea/text.py:141-147 | the required width bounds every line, is 0 for no lines, and is attained otherwise |
| TextLayout.OffsetsStack | guinea/text.py:78-91 | each line's offset is the previous one plus its height and the spacing |
| TextLayout.XAlignmentPlacesLine | guinea/text.py:69-76 | LEFT is 0, RIGHT touches the right edge, CENTER leaves side gaps within one, the extra pixel on the side the rule rounds away from |
| TextLayout.XAlignment | guinea/text.py:69-76 | a line that fits the available width is placed wholly inside it |
| TextLayout.RequiredSize | guinea/text.py:141-147 | the loop computes the widest line and the sum of height plus spacing |
| TextLayout.BlitTargets | guinea/text.py:78-91 | line k is at its x alignment against the required width and at the sum of earlier heights plus spacings |
| TextLayout.Subsurface | guinea/text.py:59-67 | cropping succeeds iff the target lies within the image, and keeps its pixels |
| TextLayout.Smoothscale | guinea/text.py:59-67 | scaling succeeds iff the target is non-negative, and keeps the picture |
| GuineaText.FitImageKeepsNewPixels | guinea/text.py:59-67 | the corrected fit and crop both produce the fresh render at the target size |
| GuineaText.FitImageAsWritten | guinea/text.py:59-67 | the as-written fit fails only with ValueError, its result has the target size, and a crop shows the current image's frame |
| GuineaText.FitImage | guinea/text.py:59-67 | the corrected fit fails only with ValueError and otherwise yields the new render's frame at the target size |
| GuineaText.CropUsesStaleImage | guinea/text.py:59-67 | the crop as written reads the previous image: it raises on the initial empty image and otherwise shows the previous frame |
| GuineaText.Text.constructor | guinea/text.py:17-45 | the lines are the split text, nothing is required yet and the image is empty |
| GuineaText.Text.CalculateSize | guinea/text.py:138-155 | required size is widest line and summed heights plus spacing; the rect is the per-axis minimum with the offer |
| GuineaText.Text.GenerateBlitTargets | guinea/text.py:78-91 | the targets stack the lines and align them against the required width |
| GuineaText.Text.RedrawAsWritten | guinea/text.py:93-136 | renders at the required size and fits or crops (as written) only when it exceeds the rect |
| GuineaText.Text.Redraw | guinea/text.py:93-136 | the same with the corrected fit on the new image |
| GuineaText.MeasuredAsCalculated | guinea/text.py:138-155 | measuring a label's node gives the size the label's own calculate_size reports |
| GuineaText.OneLine | guinea/text.py:138-158 | "hello" is one line, as wide as the metric says and as high |
| GuineaText.CropFigures | guinea/text.py:59-67 | a 50x20 render in a 30x20 rect needs fitting to 30x20; the as-written crop of the initial empty image raises ValueError, the corrected crop yields the new render at 30x20 |
| GuineaText.FirstCropRedraw | guinea/text.py:59-136 | the first CROP redraw of an oversize text raises as written and shows the new image after the fix |
| Text.Text.constructor | pygame_widgets/text.py:34-64 | the lines are the split text with empty lines dropped, and the colors are kept |
| Text.Text.CalculateSize | pygame_widgets/text.py:132-149 | the same max-width and sum-of-height-plus-spacing rule, and the rect is the per-axis minimum with the offer |
| Text.Text.Redraw | pygame_widgets/text.py:105-130 | one line takes the single-line path with no layout or fit; otherwise each line's y is the previous plus height and spacing, and fit or crop happens only when the required size exceeds the rect |
| Text.Text.SetFg | pygame_widgets/text.py:156-159 | stores the foreground and requests a redraw |
| Text.Text.SetBg | pygame_widgets/text.py:165-167 | stores the background and requests a redraw |
| Text.MeasuredAsCalculated | pygame_widgets/text.py:132-149 | measuring a label's node gives the size the label's own calculate_size reports |
| Text.MultiLineLayout | pygame_widgets/text.py:83-130 | consecutive lines advance by height plus spacing, and fit or crop of a fresh render yields the target size |
| LegacyInternal.StateHandle.constructor | src/pygame_widgets/internal.py:55-57 | no state and no change mark |
| LegacyInternal.StateHandle.Get | src/pygame_widgets/internal.py:59-64 | reading an unset state raises RuntimeError, otherwise yields it |
| LegacyInternal.StateHandle.Set | src/pygame_widgets/internal.py:66-71 | the state is stored; the mark is set iff the value differs, and an equal write never clears it |
| LegacyInternal.StateHandle.StateChanged | src/pygame_widgets/internal.py:73-78 | returns the mark and clears it |
| LegacyInternal.SecondReadIsFalse | src/pygame_widgets/internal.py:66-78 | after a change, a second read of the mark is false |
| LegacyInternal.WithHandlerAppendsOnce | src/pygame_widgets/internal.py:81-85 | a known handler is ignored, a new one is appended at the end, and the list stays free of duplicates |
| LegacyInternal.DispatchConcat | src/pygame_widgets/internal.py:114-139 | dispatching two event batches in turn calls the same handlers in the same order as one batch |
| LegacyInternal.Runtime.constructor | src/pygame_widgets/internal.py:142-143 | no handlers and no scheduled calls |
| LegacyInternal.Runtime.AddEventHandler | src/pygame_widgets/internal.py:81-85 | the kind's list gains the handler once at the end |
| LegacyInternal.Runtime.InvokeEvent | src/pygame_widgets/internal.py:137-139 | calls the kind's handlers in registration order, changing no list |
| LegacyInternal.Runtime.ScheduleCall | src/pygame_widgets/internal.py:88-89 | the call joins the end of the queue |
| LegacyInternal.Runtime.Update | src/pygame_widgets/internal.py:96-125 | no events invoke nothing; events dispatch in order; scheduled calls run FIFO and the queue ends empty |
| LegacyInternal.FirstWithoutDefault | src/pygame_widgets/internal.py:27-31 | the first field without a class default |
| LegacyInternal.MergeNamesMeaning | src/pygame_widgets/internal.py:27-31 | a field is copied iff its value differs from the default; every other field keeps its value |
| LegacyInternal.MergeDefaultsAndTwice | src/pygame_widgets/internal.py:18-33 | merging an all-default config changes nothing, and merging twice equals merging once |
| LegacyInternal.Config.constructor | src/pygame_widgets/internal.py:16-17 | a config holds one value per field |
| LegacyInternal.Config.Merge | src/pygame_widgets/internal.py:18-33 | another class raises TypeError; otherwise the differing fields are copied, up to an AttributeError at the first field without a default |
| LegacyWidget.WidgetBase.constructor | src/pygame_widgets/widget.py:8-12 | nothing to redraw and no children |
| LegacyWidget.WidgetBase.Update | src/pygame_widgets/widget.py:14-23 | without a request nothing happens; with one, redraw runs once, dirty becomes 1 and the request is cleared |
| LegacyWidget.SecondUpdateDoesNotRedraw | src/pygame_widgets/widget.py:14-23 | a second update with no change in between does not redraw |
| LegacyButton.ActiveOnlyBetweenPressAndRelease | src/pygame_widgets/button.py:126-169 | ACTIVE is entered only by a hitting press with the activation button and left only by its release; motion never touches ACTIVE; a disabled button never changes |
| LegacyButton.NextState | src/pygame_widgets/button.py:126-169 | a disabled button keeps its state; any change enters ACTIVE exactly on a press |
| LegacyButton.Shown | src/pygame_widgets/button.py:171-177 | INACTIVE shows the inactive image, ACTIVE (and HOVER with activate_on_hover) the active one, other HOVER keeps the image |
| LegacyButton.TextPosition | src/pygame_widgets/button.py:116-121 | uncentred text is at (0,0); centred text leaves gaps that differ by at most one on each axis |
| LegacyButton.Button.constructor | src/pygame_widgets/button.py:58-81 | starts INACTIVE with the inactive image and registers press, release and motion |
| LegacyButton.Button.Redraw | src/pygame_widgets/button.py:171-177 | shows Shown of the state and marks dirty when it repaints |
| LegacyButton.Button.RedrawIfChanged | src/pygame_widgets/button.py:142-169 | redraws exactly when the change mark was set, and clears it |
| LegacyButton.Button.CursorMove | src/pygame_widgets/button.py:126-143 | disabled or ACTIVE changes nothing; otherwise HOVER (calling on_hover) on a hit and INACTIVE off it |
| LegacyButton.Button.MouseClick | src/pygame_widgets/button.py:145-158 | a hitting press with the activation button moves to ACTIVE and calls on_click; anything else changes nothing |
| LegacyButton.Button.MouseRelease | src/pygame_widgets/button.py:160-169 | a release with the activation button moves to INACTIVE and calls on_release wherever the mouse is |
| LegacyButton.Button.SetEnabled | src/pygame_widgets/button.py:179-180 | the disabled flag is the negation of the value |
| LegacyButton.ClickAndRelease | src/pygame_widgets/button.py:145-169 | a click and release on an enabled button calls on_click then on_release and ends INACTIVE |
| LegacyUtils.Mask.GetAt | src/pygame_widgets/utils.py:13-16 | reading a mask outside its size raises IndexError, otherwise yields the bit |
| LegacyUtils.CollidePointReadsInsideRect | src/pygame_widgets/utils.py:4-16 | outside the rect gives false without reading the mask; inside without a mask gives true; the mask is read only at offsets within the rect, so only a mask smaller than the rect can raise |
| LegacyUtils.CollidePoint | src/pygame_widgets/utils.py:4-16 | a true answer means the point is in the rect; the only failure is an IndexError from a mask read at a point inside the rect |
| LegacyRadio.RadioHit | src/pygame_widgets/radio_button.py:112-115 | a corrected hit lies in the rect and, with a mask, on a set mask bit |
| LegacyRadio.RadioHitAgrees | src/pygame_widgets/radio_button.py:112-115 | the corrected test agrees with collide_point wherever that one does not raise |
| LegacyRadio.NonSquareRectRaises | src/pygame_widgets/radio_button.py:99-115 | a square rect never raises; a 100x50 rect clicked at (70,10) raises IndexError as written |
| LegacyRadio.RadioButton.constructor | src/pygame_widgets/radio_button.py:26-42 | starts off with the inactive image, with a side-by-side mask when collide_on_mask, and registers its press handler |
| LegacyRadio.RadioButton.Redraw | src/pygame_widgets/radio_button.py:120-126 | shows the active image iff on and sets dirty to 1 |
| LegacyRadio.RadioButton.SetIsOn | src/pygame_widgets/radio_button.py:44-55 | the state becomes the value and it redraws only when the change mark was set |
| LegacyRadio.RadioButton.MouseClickAsWritten | src/pygame_widgets/radio_button.py:112-118 | a hit toggles and redraws, a miss changes nothing, and an out-of-mask hit raises IndexError |
| LegacyRadio.RadioButton.MouseClick | src/pygame_widgets/radio_button.py:112-118 | a corrected hit toggles and redraws, anything else changes nothing; no activation button is checked |
| LegacyRadio.NonSquareRadioClick | src/pygame_widgets/radio_button.py:99-118 | the click raises as written and leaves the button off after the fix |
| LegacyProgress.BarWidth | src/pygame_widgets/progress_bar.py:68-70 | the bar never exceeds the rect width; a zero maximum raises ZeroDivisionError |
| LegacyProgress.BarWidthIsShare | src/pygame_widgets/loading_bar.py:54-56 | the bar is empty at 0, full at the maximum, and otherwise the least whole width covering progress/max of the rect |
| LegacyProgress.BarWidthMonotone | src/pygame_widgets/progress_bar.py:68-70 | more progress never paints a narrower bar |
| LegacyProgress.Incremented | src/pygame_widgets/progress_bar.py:83-92 | one more below the maximum, unchanged at or above it, never leaving the range |
| LegacyProgress.IncrementsSaturate | src/pygame_widgets/loading_bar.py:69-78 | k increments from 0 give min(k, max) |
| LegacyProgress.Repeat | src/pygame_widgets/progress_bar.py:83-92 | increments never decrease the counter |
| LegacyProgress.ProgressBar.constructor | src/pygame_widgets/progress_bar.py:34-47 | progress starts at 0 with nothing to redraw |
| LegacyProgress.ProgressBar.IncrementProgress | src/pygame_widgets/progress_bar.py:83-92 | adds one unless the maximum is reached, and requests a redraw only then; `progress` is the counter (lines 102-108) |
| LegacyProgress.ProgressBar.ResetProgress | src/pygame_widgets/progress_bar.py:94-100 | progress becomes 0 and a redraw is requested |
| LegacyProgress.ProgressBar.Update | src/pygame_widgets/progress_bar.py:65-81 | a requested redraw paints BarWidth of the current progress, or raises for a zero maximum before the request is cleared |
| LegacyProgress.LoadingBar.constructor | src/pygame_widgets/loading_bar.py:30-46 | progress starts at 0 and the image is rendered once |
| LegacyProgress.LoadingBar.RenderImage | src/pygame_widgets/loading_bar.py:48-67 | paints the bar for the current progress and sets dirty to 1 |
| LegacyProgress.LoadingBar.IncrementProgress | src/pygame_widgets/loading_bar.py:69-78 | saturates at the maximum; an effective increment re-renders, a full bar does not |
| LegacyProgress.LoadingBar.ResetProgress | src/pygame_widgets/loading_bar.py:80-86 | progress becomes 0 and the image is re-rendered |
| LegacyProgress.NewLoadingBar | src/pygame_widgets/loading_bar.py:30-46 | construction raises ZeroDivisionError exactly for a zero maximum |
| LegacyProgress.ThreeStepLoadingBar | src/pygame_widgets/loading_bar.py:54-78 | width 100 over three steps paints 34, then 100, and a fourth increment renders nothing |
| ListView.ItemRect | src/pygame_widgets/list_view.py:60-71 | an item rect is shifted along the list's axis only and has the whole list's size |
| ListView.Calls | src/pygame_widgets/list_view.py:57-72 | one factory call per item |
| ListView.CallsAreEvenlySpaced | src/pygame_widgets/list_view.py:58-72 | call i carries index i and item i, at i extents past the starting offset |
| ListView.Produced | src/pygame_widgets/list_view.py:72-74 | one widget per factory call |
| ListView.ProducedInCallOrder | src/pygame_widgets/list_view.py:72-74 | child i is the factory's result for call i |
| ListView.ListView.constructor | src/pygame_widgets/list_view.py:30-45 | the offset starts at 0 and one placement pass fills the children |
| ListView.ListView.RenderItem | src/pygame_widgets/list_view.py:60-74 | one item is handed to the factory at the current offset with the whole list's size, its widget is appended, and the offset advances one extent |
| ListView.ListView.RenderImage | src/pygame_widgets/list_view.py:57-74 | the factory is called once per item in order, the results are appended to children, and the offset advances by n item extents; item_spacing plays no part |
| ListView.ThreeAcross | src/pygame_widgets/list_view.py:57-74 | three horizontal items 100 wide at (10,20) get x = 10, 110, 210 and the whole 300x40 size |
| LegacyText.Lines | src/pygame_widgets/text.py:68-76 | tab-expanded text split on newlines keeps empty lines and joins back to the expanded text |
| LegacyText.Targets | src/pygame_widgets/text.py:92-109 | one blit target per line |
| LegacyText.LinesFillImage | src/pygame_widgets/text.py:81-137 | line 0 is at the top margin, each line starts height plus spacing below the previous, the last ends at the bottom margin; LEFT is at the left margin, RIGHT ends at the right margin, CENTER is centred within one |
| LegacyText.WidestIsMax | src/pygame_widgets/text.py:85-86 | the image width bounds every line |
| LegacyText.ImageSize | src/pygame_widgets/text.py:81-86 | every line fits between the left margin and the margin width |
| LegacyText.YOffset | src/pygame_widgets/text.py:88-109 | line 0 starts at the top margin and each next line one height plus one spacing lower |
| LegacyText.XOffset | src/pygame_widgets/text.py:112-137 | LEFT starts at the left margin, RIGHT ends at the right margin, CENTER leaves gaps to the margins differing by at most one |
| LegacyText.Text.constructor | src/pygame_widgets/text.py:55-64 | the rect is at pos with the image's size, and dirty is 1 |

## Left out

- Pixel output is not modelled. This covers surfaces, fills, blits, `pg.draw`, `smoothscale`/`scale` pixels, font rendering, shaders, `_get_minimize_btn_img`, and the button and radio image and mask rendering. These are calls into pygame. An image is its size and a frame number.
- Font metrics, the font and image caches, and image loading are parameters: a function from a line to its size.
- `pygame_widgets/fraction.py` and `guinea/progress_bar.py` are not modelled. They work on float factors and call a rounding helper that is not part of this model.
- `guinea/row.py` is not modelled. It forwards to `AxialContainerWidget` in `guinea/widget.py`, which is not part of this model.
- The aspect-ratio path of `Image._get_scale_aspect_ratio` is not modelled because it uses float ratios.
- Timers (`call_after`) and the timing dictionary returned by `update` are not modelled because they use the wall clock.
- Sprite groups, `kill`, layers and the display surface become flags (`killed`, `raised`) and a display-size parameter.
- The dead `recalculate` methods of row, column and rect are not modelled.
- The assertion in `Widget.update` that a rect or parent exists is not modelled, because a modelled node always has a rect.
- The bodies of user callbacks and handlers are opaque and are recorded as calls. A scheduled call that schedules further calls, or a handler that registers handlers, is not modelled.
- LegacyProgress.BarWidth: computes `ceil(width / max * progress)` as exact integer ceiling division. The source's floating-point quotient can differ by one at rounding boundaries.
- Window.ButtonWidth: `int(h * 0.4)` is modelled as `(2h)/5`. This is exact for the non-negative heights that occur, apart from float rounding of the factor.
- Row.Row.CalculateSize: `math.floor` of a float quotient is modelled as exact floor division (the same holds for Column.Column.CalculateSize).
- Text.Text.Redraw: the single-line path is never fitted or cropped, as in the source, so an oversize single line keeps its full size.
- GuineaEvents.EventRegistry.ProcessEvent: handlers of one kind are called in no specified order, because they are kept in a set. The model fixes one order and states only that each handler is called once.
- GuineaFullscreen.Fullscreen.SetParent: always fails with RuntimeError, but the consequence that a fullscreen widget can only be a root is not modelled. `Widget.Container` adopts any node, a fullscreen's included, without calling this method.
- Widget.Widget.Update: on a layout's node, update stores the size the layout's own rule reports but does not re-measure or re-place the layout's children. The layouts' own CalculateSize and SetPlacement model those passes.
- Row.Row.constructor: a childless row's node reports (0,0) when measured by a parent or by update, where `calculate_size` raises ZeroDivisionError. `Row.Row.CalculateSize` and `Row.RowReport` model the raise (the same holds for Column.Column.constructor).
- Row.Row.constructor: a child listed twice is not modelled; the children must be distinct widgets (the same holds for Column.Column.constructor and Stack.Stack.constructor).
- Fullscreen.Fullscreen.constructor: a node measured with an offer other than its current size offers that offer to the child, where the source offers its rect size. At the root, where update offers the node's own rect size, the two agree.
- Widget.Widget.Measure: an image's size pass replaces its surface by the scaled copy, so a later pass starts from the smaller image, and a negative offer raises `ValueError`. The node's `sizing` describes the first pass from the original image only. `Image.Image.CalculateSize` models every pass and the error.
- LegacyProgress.ProgressBar.Update: without the mask option, `redraw` blits the bar onto the shared background image in place, so after `reset_progress` the shown bar does not shrink. `paintedWidth` records the width of the latest paint and does not capture this aliasing. The loading bar renders onto a fresh surface each time and is not affected.
- ListView.ListView.RenderImage: the list's background image is not modelled. The factory is modelled as a pure function of its arguments, so its side effects are not captured.

## Findings

| source | as written | input that shows it | evidently intended | confidence | as-written member | corrected member |
|---|---|---|---|---|---|---|
| guinea/events.py:15-17 | `unregister_handler` calls `set.remove` on the handler set of every kind | handler 7 registered for MOUSEMOTION only, after an event of another kind created an empty set for that kind: unregistering raises KeyError | remove the handler wherever it is registered, without raising | not executed | GuineaEvents.UnregisterAfterUnheardEvent | GuineaEvents.EventRegistry.UnregisterHandler |
| src/pygame_widgets/radio_button.py:99-118 | the mask is side x side with side = min(rect size), but `collide_point` reads it at rect-relative offsets | rect (0,0,100,50), click at (70,10): the mask read at (70,10) is outside the 50x50 mask and raises IndexError | a click outside the mask square misses | not executed | LegacyRadio.NonSquareRectRaises | LegacyRadio.RadioButton.MouseClick |
| guinea/text.py:59-67 | the CROP branch of `_fit_image` crops `self.image`, the previous image, instead of the freshly rendered one | first redraw of CROP text larger than its rect: the previous image is the initial 0x0 surface, so the subsurface raises ValueError; later redraws show stale pixels | crop the new render | not executed | GuineaText.CropUsesStaleImage | GuineaText.FitImageKeepsNewPixels |
