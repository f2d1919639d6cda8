/** The base node of pygame_widgets/widget.py: a rectangle, three dirty flags
    and the three-phase `update`. */
module Widget {
  import opened Wrappers
  import opened Geometry

  type WidgetId = nat

  /** The three dirty flags, in the order `update` consults them. */
  datatype Flags = Flags(recalculate: bool, reposition: bool, redraw: bool)

  datatype Phase = Recalculating | Repositioning | Redrawing

  /** The phases one `update` runs, in order, for a node whose flags are `f`
      when it starts: each of the first two runs when its flag is set and sets
      the redraw flag, and redraw runs when its flag is set after them. */
  function PhasesRun(f: Flags): (phases: seq<Phase>)
    ensures Recalculating in phases <==> f.recalculate
    ensures Repositioning in phases <==> f.reposition
    ensures Redrawing in phases <==> f.recalculate || f.reposition || f.redraw
    ensures |phases| <= 3
  {
    (if f.recalculate then [Recalculating] else [])
    + (if f.reposition then [Repositioning] else [])
    + (if f.recalculate || f.reposition || f.redraw then [Redrawing] else [])
  }

  /** The flags after one `update` of a node whose `calculate_size` clears the
      recalculate flag exactly when `clearsRecalculate` and whose `redraw`
      clears the redraw flag exactly when `clearsRedraw`. The base methods clear
      them, but a window's `calculate_size` never calls the base one, so its
      recalculate flag stays set; reposition is always cleared. A container's
      `redraw` does nothing and the overriding `redraw` of a rectangle, a text
      or a window never clears the redraw flag, so there it stays set. */
  function FlagsAfterUpdate(clearsRecalculate: bool, clearsRedraw: bool, f: Flags): (g: Flags)
    ensures g.recalculate <==> !clearsRecalculate && f.recalculate
    ensures !g.reposition
    ensures g.redraw <==> !clearsRedraw && (f.recalculate || f.reposition || f.redraw)
  {
    Flags(!clearsRecalculate && f.recalculate, false, !clearsRedraw && (f.recalculate || f.reposition || f.redraw))
  }

  /** Recalculation always runs strictly before repositioning, and redraw is last. */
  lemma RecalculateBeforeReposition(f: Flags, i: nat, j: nat)
    requires i < |PhasesRun(f)| && j < |PhasesRun(f)|
    requires PhasesRun(f)[i] == Recalculating && PhasesRun(f)[j] == Repositioning
    ensures i < j
  {
  }

  lemma RedrawIsLast(f: Flags, i: nat)
    requires i < |PhasesRun(f)| && PhasesRun(f)[i] == Redrawing
    ensures i == |PhasesRun(f)| - 1
  {
  }

  /** A second `update` with nothing changed in between: on a node that did not
      just recalculate, or whose `calculate_size` clears the recalculate flag,
      it runs nothing when the node's `redraw` clears the redraw flag and only
      the redraw again after any first phase otherwise. A window, whose
      `calculate_size` keeps the flag, recalculates and redraws again after a
      first recalculation. The flags then stay as they are at every later
      `update`. */
  lemma {:induction false} SecondUpdate(clearsRecalculate: bool, clearsRedraw: bool, f: Flags)
    ensures var after := FlagsAfterUpdate(clearsRecalculate, clearsRedraw, f);
      && ((clearsRecalculate || !f.recalculate) && clearsRedraw ==> PhasesRun(after) == [])
      && ((clearsRecalculate || !f.recalculate) && !clearsRedraw && PhasesRun(f) != [] ==>
            PhasesRun(after) == [Redrawing])
      && (!clearsRecalculate && f.recalculate ==> PhasesRun(after) == [Recalculating, Redrawing])
      && FlagsAfterUpdate(clearsRecalculate, clearsRedraw, after) == after
  {
  }

  /** A node of the widget tree. `sizing` stands for the `calculate_size` of
      the node's concrete class when a parent or `update` measures the node:
      the size it reports, and stores as its own, for an offer. The layout
      classes' own methods drive their node through the base methods.
      `clearsRecalculate` says whether the node's `calculate_size` clears the
      recalculate flag: every one does through the base method except the
      window's. `clearsRedraw` says whether the node's `redraw` clears the
      redraw flag: the base `redraw` does; a container's and the overrides of
      the rectangle, text and window leaves do not. */
  class Widget {
    const id: WidgetId
    const isContainer: bool
    const clearsRecalculate: bool
    const clearsRedraw: bool
    const sizing: Size -> Size
    var constraints: Size
    var x: int
    var y: int
    var width: int
    var height: int
    var needsRecalculate: bool
    var needsReposition: bool
    var needsRedraw: bool
    var parent: Widget?
    var children: seq<Widget>
    var visible: bool
    var dirty: int
    /** every offer `Measure` received, in order */
    var offers: seq<Size>

    function GetRect(): Rect
      reads this
    {
      Rect(x, y, width, height)
    }

    function GetFlags(): Flags
      reads this
    {
      Flags(needsRecalculate, needsReposition, needsRedraw)
    }

    /** `Widget.__init__`: all flags set, no parent; without a rect the node sits
        at (0, 0, 0, 0) unconstrained, otherwise its constraints are the rect's size. */
    constructor (id: WidgetId, rect: Option<Rect>, sizing: Size -> Size, clearsRecalculate: bool, clearsRedraw: bool)
      ensures this.id == id && this.sizing == sizing && !isContainer
      ensures this.clearsRecalculate == clearsRecalculate && this.clearsRedraw == clearsRedraw
      ensures GetFlags() == Flags(true, true, true) && parent == null && children == []
      ensures rect.None? ==> GetRect() == Rect(0, 0, 0, 0) && constraints == Size(-1, -1)
      ensures rect.Some? ==> GetRect() == rect.value && constraints == rect.value.GetSize()
      ensures visible && dirty == 1 && offers == []
    {
      this.id := id;
      this.sizing := sizing;
      isContainer := false;
      this.clearsRecalculate := clearsRecalculate;
      this.clearsRedraw := clearsRedraw;
      constraints := if rect.None? then Size(-1, -1) else rect.value.GetSize();
      var r := if rect.None? then Rect(0, 0, 0, 0) else rect.value;
      x, y, width, height := r.x, r.y, r.width, r.height;
      needsRecalculate, needsReposition, needsRedraw := true, true, true;
      parent := null;
      children := [];
      visible, dirty := true, 1;
      offers := [];
    }

    /** `ContainerWidget.__init__`: keeps the children in the given order, makes
        itself the parent of each, and is invisible. */
    constructor Container(id: WidgetId, children: seq<Widget>, rect: Option<Rect>, sizing: Size -> Size)
      modifies children`parent
      ensures this.id == id && this.sizing == sizing && isContainer && clearsRecalculate && !clearsRedraw
      ensures this.children == children
      ensures forall c :: c in children ==> c.parent == this
      ensures forall c :: c in children ==> c.GetRect() == old(c.GetRect()) && c.GetFlags() == old(c.GetFlags())
      ensures GetFlags() == Flags(true, true, true) && parent == null
      ensures rect.None? ==> GetRect() == Rect(0, 0, 0, 0) && constraints == Size(-1, -1)
      ensures rect.Some? ==> GetRect() == rect.value && constraints == rect.value.GetSize()
      ensures !visible && dirty == 0 && offers == []
    {
      this.id := id;
      this.sizing := sizing;
      isContainer := true;
      clearsRecalculate := true;
      clearsRedraw := false;
      constraints := if rect.None? then Size(-1, -1) else rect.value.GetSize();
      var r := if rect.None? then Rect(0, 0, 0, 0) else rect.value;
      var c := if rect.None? then Size(-1, -1) else rect.value.GetSize();
      x, y, width, height := r.x, r.y, r.width, r.height;
      needsRecalculate, needsReposition, needsRedraw := true, true, true;
      parent := null;
      this.children := children;
      offers := [];
      new;
      var i := 0;
      while i < |children|
        invariant 0 <= i <= |children|
        invariant forall j :: 0 <= j < i ==> children[j].parent == this
        invariant forall c :: c in children ==> c.GetRect() == old(c.GetRect()) && c.GetFlags() == old(c.GetFlags())
        invariant this.children == children && GetRect() == r && GetFlags() == Flags(true, true, true)
        invariant parent == null && offers == [] && constraints == c
      {
        children[i].SetParent(this);
        i := i + 1;
      }
      visible := false;
      dirty := 0;
    }

    method SetParent(p: Widget?)
      modifies this`parent
      ensures parent == p
    {
      parent := p;
    }

    /** The base `calculate_size`: clears the recalculate flag and nothing else. */
    method CalculateSize(maxWidth: int, maxHeight: int)
      modifies this`needsRecalculate
      ensures !needsRecalculate
    {
      needsRecalculate := false;
    }

    /** The base `set_placement`: clears the reposition flag and moves the node;
        its size is untouched. */
    method SetPlacement(newX: int, newY: int)
      modifies this`needsReposition, this`x, this`y
      ensures !needsReposition && x == newX && y == newY
    {
      needsReposition := false;
      x, y := newX, newY;
    }

    /** Assigns the whole rect at once, as code that edits `self.rect` does. */
    method SetRect(r: Rect)
      modifies this`x, this`y, this`width, this`height
      ensures GetRect() == r
    {
      x, y, width, height := r.x, r.y, r.width, r.height;
    }

    /** `calculate_size` as the node's concrete class performs it: the base part,
        when the class calls it, clears the flag, and the size `sizing` reports
        is stored and returned. */
    method Measure(maxWidth: int, maxHeight: int) returns (s: Size)
      modifies this`needsRecalculate, this`width, this`height, this`offers
      ensures s == sizing(Size(maxWidth, maxHeight))
      ensures needsRecalculate == (!clearsRecalculate && old(needsRecalculate))
      ensures width == s.w && height == s.h
      ensures offers == old(offers) + [Size(maxWidth, maxHeight)]
    {
      if clearsRecalculate {
        CalculateSize(maxWidth, maxHeight);
      }
      s := sizing(Size(maxWidth, maxHeight));
      width, height := s.w, s.h;
      offers := offers + [Size(maxWidth, maxHeight)];
    }

    /** `redraw` as the node's concrete class performs it: the base `redraw`
        clears the redraw flag, the others leave it. */
    method Redraw()
      modifies this`needsRedraw
      ensures needsRedraw == (!clearsRedraw && old(needsRedraw))
    {
      if clearsRedraw {
        needsRedraw := false;
      }
    }

    /** `Widget.update`: the offer and the origin come from the parent's rect, or
        from the node's own rect when it has no parent; the phases of
        `PhasesRun` run in that order and leave the flags of `FlagsAfterUpdate`. */
    method Update() returns (phases: seq<Phase>)
      modifies this`needsRecalculate, this`needsReposition, this`needsRedraw, this`width, this`height, this`offers, this`x, this`y, this`dirty
      ensures phases == PhasesRun(old(GetFlags()))
      ensures GetFlags() == FlagsAfterUpdate(clearsRecalculate, clearsRedraw, old(GetFlags()))
      ensures var target := if parent == null then old(GetRect()) else old(parent.GetRect());
        && (old(needsRecalculate) ==>
              offers == old(offers) + [target.GetSize()] && Size(width, height) == sizing(target.GetSize()))
        && (!old(needsRecalculate) ==> offers == old(offers) && width == old(width) && height == old(height))
        && (old(needsReposition) ==> x == target.x && y == target.y)
        && (!old(needsReposition) ==> x == old(x) && y == old(y))
      ensures dirty == if phases == [] then old(dirty) else 1
    {
      phases := [];
      var targetWidth, targetHeight := width, height;
      if parent != null {
        targetWidth, targetHeight := parent.width, parent.height;
      }
      if needsRecalculate {
        var _ := Measure(targetWidth, targetHeight);
        needsRedraw := true;
        phases := phases + [Recalculating];
      }
      var targetX, targetY := x, y;
      if parent != null {
        targetX, targetY := parent.x, parent.y;
      }
      if needsReposition {
        SetPlacement(targetX, targetY);
        needsRedraw := true;
        phases := phases + [Repositioning];
      }
      if needsRedraw {
        Redraw();
        dirty := 1;
        phases := phases + [Redrawing];
      }
    }
  }

  /** The shape of a widget tree, as `register_widget_stack` walks it. */
  datatype WidgetTree = Node(id: WidgetId, isContainer: bool, children: seq<WidgetTree>)

  /** The ids of a tree, each node before its children, children in order. */
  function Preorder(t: WidgetTree): seq<WidgetId>
    decreases t, 1
  {
    [t.id] + (if t.isContainer then PreorderAll(t.children) else [])
  }

  function PreorderAll(ts: seq<WidgetTree>): seq<WidgetId>
    decreases ts, 0
  {
    if ts == [] then [] else Preorder(ts[0]) + PreorderAll(ts[1..])
  }

  /** `AbstractGroup.add`: a sprite already in the group is not added again. */
  function AddToGroup(group: seq<WidgetId>, id: WidgetId): seq<WidgetId>
  {
    if id in group then group else group + [id]
  }

  /** `register_widget_stack`: adds the node, then each child's stack in order. */
  function RegisterWidgetStack(group: seq<WidgetId>, t: WidgetTree): (r: seq<WidgetId>)
    ensures |group| <= |r| && r[..|group|] == group && t.id in r
    decreases t, 1
  {
    var g := AddToGroup(group, t.id);
    assert t.id in g && g[..|group|] == group;
    if t.isContainer then
      var r := RegisterAll(g, t.children);
      assert r[..|group|] == g[..|group|] && t.id in r[..|g|];
      r
    else g
  }

  function RegisterAll(group: seq<WidgetId>, ts: seq<WidgetTree>): (r: seq<WidgetId>)
    ensures |group| <= |r| && r[..|group|] == group
    decreases ts, 0
  {
    if ts == [] then group else RegisterAll(RegisterWidgetStack(group, ts[0]), ts[1..])
  }

  /** No id occurs twice. */
  predicate DistinctIds(s: seq<WidgetId>) {
    forall i, j :: 0 <= i < j < |s| ==> s[i] != s[j]
  }

  /** No id of `s` is already in `group`. */
  predicate NoneIn(s: seq<WidgetId>, group: seq<WidgetId>) {
    forall k :: k in s ==> k !in group
  }

  /** Distinct ids, none of them in the group, split into two runs: each run is
      distinct, and neither meets the group nor the run before it. */
  lemma SplitIds(a: seq<WidgetId>, b: seq<WidgetId>, group: seq<WidgetId>)
    requires DistinctIds(a + b) && NoneIn(a + b, group)
    ensures DistinctIds(a) && DistinctIds(b) && NoneIn(a, group) && NoneIn(b, group + a)
  {
    forall i, j | 0 <= i < j < |a| ensures a[i] != a[j] {
      assert (a + b)[i] == a[i] && (a + b)[j] == a[j];
    }
    forall i, j | 0 <= i < j < |b| ensures b[i] != b[j] {
      assert (a + b)[|a| + i] == b[i] && (a + b)[|a| + j] == b[j];
    }
    forall k | k in a ensures k !in group {
      var i :| 0 <= i < |a| && a[i] == k;
      assert (a + b)[i] == k;
    }
    forall k | k in b ensures k !in group + a {
      var j :| 0 <= j < |b| && b[j] == k;
      assert (a + b)[|a| + j] == k;
      forall i | 0 <= i < |a| ensures a[i] != k {
        assert (a + b)[i] == a[i];
      }
    }
  }

  /** On a group holding none of the tree's ids, with all ids distinct,
      registration appends the tree in preorder: every node before its children. */
  lemma {:induction false} RegisterAppendsPreorder(group: seq<WidgetId>, t: WidgetTree)
    requires DistinctIds(Preorder(t)) && NoneIn(Preorder(t), group)
    ensures RegisterWidgetStack(group, t) == group + Preorder(t)
    decreases t, 1
  {
    var g := AddToGroup(group, t.id);
    if t.isContainer {
      var rest := PreorderAll(t.children);
      assert Preorder(t) == [t.id] + rest;
      SplitIds([t.id], rest, group);
      assert t.id !in group by { assert t.id in [t.id]; }
      assert g == group + [t.id];
      RegisterAllAppendsPreorder(g, t.children);
      calc {
        RegisterWidgetStack(group, t);
        RegisterAll(g, t.children);
        g + rest;
        group + ([t.id] + rest);
      }
    } else {
      assert Preorder(t) == [t.id];
      assert t.id !in group by { assert t.id in Preorder(t); }
    }
  }

  /** The same for a run of sibling trees: their preorders are appended in turn. */
  lemma {:induction false} RegisterAllAppendsPreorder(group: seq<WidgetId>, ts: seq<WidgetTree>)
    requires DistinctIds(PreorderAll(ts)) && NoneIn(PreorderAll(ts), group)
    ensures RegisterAll(group, ts) == group + PreorderAll(ts)
    decreases ts, 0
  {
    if ts != [] {
      var head, tail := Preorder(ts[0]), PreorderAll(ts[1..]);
      assert PreorderAll(ts) == head + tail;
      SplitIds(head, tail, group);
      RegisterAppendsPreorder(group, ts[0]);
      RegisterAllAppendsPreorder(group + head, ts[1..]);
      assert (group + head) + tail == group + (head + tail);
    }
  }
}
