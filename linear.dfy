/** What Row, Column and Stack share: the floor split of the main axis, the
    running maximum of the children's reports, and the children as distinct
    widgets. */
module Linear {
  import opened Wrappers
  import opened Geometry
  import opened Overflow
  import opened Widget

  /** No widget occurs twice among the children. */
  predicate Distinct(children: seq<Widget>)
  {
    forall i, j :: 0 <= i < j < |children| ==> children[i] != children[j]
  }

  /** Everything about a child but its size: what measuring it changes besides
      the size (its offer log and recalculate flag) and what it leaves alone. */
  datatype Snapshot = Snapshot(offers: seq<Size>, needsRecalculate: bool, x: int, y: int, constraints: Size,
                               needsReposition: bool, needsRedraw: bool,
                               parent: Widget?, children: seq<Widget>, visible: bool, dirty: int)

  function Snap(c: Widget): Snapshot
    reads c
  {
    Snapshot(c.offers, c.needsRecalculate, c.x, c.y, c.constraints, c.needsReposition, c.needsRedraw,
             c.parent, c.children, c.visible, c.dirty)
  }

  /** `before` after one more measurement with `offer`: the offer is logged and
      the recalculate flag is cleared when the child's `calculate_size` clears it. */
  function AfterMeasure(before: Snapshot, offer: Size, clearsRecalculate: bool): Snapshot
  {
    before.(offers := before.offers + [offer], needsRecalculate := !clearsRecalculate && before.needsRecalculate)
  }

  /** `c` has been measured once with `offer` since `before` was taken and
      reported `report`: the offer was logged, the size is the report, the flag
      is cleared unless `c` is a window, and nothing else changed. */
  predicate MeasuredOnce(c: Widget, offer: Size, before: Snapshot, report: Size)
    reads c
  {
    && Snap(c) == AfterMeasure(before, offer, c.clearsRecalculate)
    && c.width == report.w && c.height == report.h
  }

  /** `c` has not been measured since `before` was taken: nothing but its size
      changed. */
  predicate NotMeasured(c: Widget, before: Snapshot)
    reads c
  {
    Snap(c) == before
  }

  /** What each child reports when offered `offer`. */
  function Reports(children: seq<Widget>, offer: Size): (r: seq<Size>)
    ensures |r| == |children| && forall i :: 0 <= i < |r| ==> r[i] == children[i].sizing(offer)
  {
    seq(|children|, i requires 0 <= i < |children| => children[i].sizing(offer))
  }

  /** The largest width among `sizes`, starting from 0. */
  function MaxWidth(sizes: seq<Size>): int
  {
    if |sizes| == 0 then 0 else Max(sizes[0].w, MaxWidth(sizes[1..]))
  }

  /** The largest height among `sizes`, starting from 0. */
  function MaxHeight(sizes: seq<Size>): int
  {
    if |sizes| == 0 then 0 else Max(sizes[0].h, MaxHeight(sizes[1..]))
  }

  lemma {:induction false} MaxWidthAppend(sizes: seq<Size>, s: Size)
    ensures MaxWidth(sizes + [s]) == Max(MaxWidth(sizes), s.w)
  {
    if |sizes| > 0 {
      assert (sizes + [s])[1..] == sizes[1..] + [s];
      MaxWidthAppend(sizes[1..], s);
    }
  }

  lemma {:induction false} MaxHeightAppend(sizes: seq<Size>, s: Size)
    ensures MaxHeight(sizes + [s]) == Max(MaxHeight(sizes), s.h)
  {
    if |sizes| > 0 {
      assert (sizes + [s])[1..] == sizes[1..] + [s];
      MaxHeightAppend(sizes[1..], s);
    }
  }

  /** `MaxWidth` bounds every width from above, is not negative, and is 0 or one
      of the widths. */
  lemma {:induction false} MaxWidthIsMaximum(sizes: seq<Size>)
    ensures MaxWidth(sizes) >= 0 && forall i :: 0 <= i < |sizes| ==> sizes[i].w <= MaxWidth(sizes)
    ensures MaxWidth(sizes) == 0 || exists i :: 0 <= i < |sizes| && sizes[i].w == MaxWidth(sizes)
  {
    if |sizes| > 0 {
      MaxWidthIsMaximum(sizes[1..]);
      forall i | 1 <= i < |sizes| ensures sizes[i] == sizes[1..][i - 1] { }
    }
  }

  /** `MaxHeight` bounds every height from above, is not negative, and is 0 or
      one of the heights. */
  lemma {:induction false} MaxHeightIsMaximum(sizes: seq<Size>)
    ensures MaxHeight(sizes) >= 0 && forall i :: 0 <= i < |sizes| ==> sizes[i].h <= MaxHeight(sizes)
    ensures MaxHeight(sizes) == 0 || exists i :: 0 <= i < |sizes| && sizes[i].h == MaxHeight(sizes)
  {
    if |sizes| > 0 {
      MaxHeightIsMaximum(sizes[1..]);
      forall i | 1 <= i < |sizes| ensures sizes[i] == sizes[1..][i - 1] { }
    }
  }

  /** The placement loop of the layouts (`set_placement` in row.py, column.py
      and stack.py): child `i` is placed `i` steps of `(dx, dy)` from the
      origin, keeping its size. */
  method PlaceAll(children: seq<Widget>, x: int, y: int, dx: int, dy: int)
    requires Distinct(children)
    modifies children`needsReposition, children`x, children`y
    ensures forall i :: 0 <= i < |children| ==>
      && children[i].x == x + i * dx && children[i].y == y + i * dy && !children[i].needsReposition
      && children[i].width == old(children[i].width) && children[i].height == old(children[i].height)
  {
    var offsetX, offsetY := 0, 0;
    for i := 0 to |children|
      invariant offsetX == i * dx && offsetY == i * dy
      invariant forall j :: 0 <= j < i ==>
        children[j].x == x + j * dx && children[j].y == y + j * dy && !children[j].needsReposition
      invariant forall j :: 0 <= j < |children| ==>
        children[j].width == old(children[j].width) && children[j].height == old(children[j].height)
    {
      children[i].SetPlacement(x + offsetX, y + offsetY);
      offsetX, offsetY := offsetX + dx, offsetY + dy;
      assert (i + 1) * dx == i * dx + dx && (i + 1) * dy == i * dy + dy;
    }
  }

  /** Offers `offer` to each child in turn (the `calculate_size` call inside the
      layouts' loops) and returns what they reported, in order. */
  method MeasureAll(children: seq<Widget>, offer: Size) returns (reports: seq<Size>)
    requires Distinct(children)
    modifies children`needsRecalculate, children`width, children`height, children`offers
    ensures reports == Reports(children, offer)
    ensures forall i :: 0 <= i < |children| ==> MeasuredOnce(children[i], offer, old(Snap(children[i])), reports[i])
  {
    ghost var before := seq(|children|, j requires 0 <= j < |children| reads set c | c in children => Snap(children[j]));
    reports := [];
    var i := 0;
    while i < |children|
      invariant 0 <= i <= |children| && |reports| == i
      invariant forall j {:trigger reports[j]} :: 0 <= j < i ==> reports[j] == children[j].sizing(offer)
      invariant forall j :: 0 <= j < i ==> MeasuredOnce(children[j], offer, before[j], reports[j])
      invariant forall j :: i <= j < |children| ==> NotMeasured(children[j], before[j])
    {
      assert forall j :: 0 <= j < |children| && j != i ==> children[j] != children[i];
      var report := children[i].Measure(offer.w, offer.h);
      reports := reports + [report];
      i := i + 1;
    }
  }

  /** The accumulating part of the layouts' measuring loops: the running
      maximum width and height of the reports, from 0, and the offset that grows
      by `step` per child. */
  method Accumulate(reports: seq<Size>, step: int) returns (widest: int, highest: int, offset: int)
    ensures widest == MaxWidth(reports) && highest == MaxHeight(reports)
    ensures offset == |reports| * step
  {
    widest, highest, offset := 0, 0, 0;
    for i := 0 to |reports|
      invariant widest == MaxWidth(reports[..i]) && highest == MaxHeight(reports[..i])
      invariant offset == i * step
    {
      assert reports[..i + 1] == reports[..i] + [reports[i]];
      MaxWidthAppend(reports[..i], reports[i]);
      MaxHeightAppend(reports[..i], reports[i]);
      widest := Max(widest, reports[i].w);
      highest := Max(highest, reports[i].h);
      offset := offset + step;
      assert offset == (i + 1) * step;
    }
    assert reports[..|reports|] == reports;
  }

  /** The extent each of `n` children gets along the main axis when `total` is
      shared out with `spacing` between neighbours, rounded down; dividing among
      no children fails. */
  function SlotExtent(total: int, spacing: int, n: nat): (r: Result<int>)
    ensures n == 0 <==> r == Failure(ZeroDivisionError)
    ensures n > 0 ==> r.Success?
  {
    if n == 0 then Failure(ZeroDivisionError) else Success(FloorDiv(total - spacing * (n - 1), n))
  }

  /** The `n` slots and the `n - 1` gaps between them fit in `total`, and one
      more unit per slot would not. */
  lemma {:induction false} SlotsFillTotal(total: int, spacing: int, n: nat)
    requires n > 0
    ensures var slot := SlotExtent(total, spacing, n).value;
      n * slot + (n - 1) * spacing <= total < n * (slot + 1) + (n - 1) * spacing
  {
    var avail := total - spacing * (n - 1);
    var slot := FloorDiv(avail, n);
    assert slot * n <= avail < slot * n + n;
    assert n * (slot + 1) == n * slot + n;
  }

  /** Children `i` and `i + 1` placed `slot + spacing` apart along the main axis
      do not overlap when child `i` keeps within its slot and the spacing is not
      negative. */
  lemma NeighboursDoNotOverlap(origin: int, slot: int, spacing: int, i: nat, extent: int)
    requires extent <= slot && spacing >= 0
    ensures origin + i * (slot + spacing) + extent <= origin + (i + 1) * (slot + spacing)
  {
  }
}
