/** src/pygame_widgets/list_view.py: a list whose items are turned into child
    widgets by a caller-supplied factory, laid out one after another. */
module ListView {
  import opened Geometry

  datatype ListOrient = Vertical | Horizontal

  /** One call of the item factory: the rect it is given, the item's index and
      the item. */
  datatype FactoryCall<T> = FactoryCall(rect: Rect, index: int, item: T)

  /** How far `_current_offset` advances per item: the configured item width
      across, the item height down. `item_spacing` plays no part. */
  function Extent(orient: ListOrient, itemWidth: int, itemHeight: int): int {
    if orient == Horizontal then itemWidth else itemHeight
  }

  /** The rect handed to the factory at offset `offset`: shifted along the
      list's axis only, and always the whole list view's size. */
  function ItemRect(rect: Rect, orient: ListOrient, offset: int): (r: Rect)
    ensures r.GetSize() == rect.GetSize()
    ensures orient == Horizontal ==> r.y == rect.y && r.x - rect.x == offset
    ensures orient == Vertical ==> r.x == rect.x && r.y - rect.y == offset
  {
    if orient == Horizontal then Rect(rect.x + offset, rect.y, rect.width, rect.height)
    else Rect(rect.x, rect.y + offset, rect.width, rect.height)
  }

  /** The factory calls of the first `n` items when the offset starts at
      `offset0`, in the order `_render_image` makes them. */
  function Calls<T>(rect: Rect, orient: ListOrient, extent: int, offset0: int, items: seq<T>, n: nat): (c: seq<FactoryCall<T>>)
    requires n <= |items|
    ensures |c| == n
  {
    if n == 0 then []
    else
      var call := FactoryCall(ItemRect(rect, orient, offset0 + (n - 1) * extent), n - 1, items[n - 1]);
      Calls(rect, orient, extent, offset0, items, n - 1) + [call]
  }

  /** Item `i` is made from its own index and value, `i` extents past the
      starting offset along the axis and level with the list across it. */
  lemma {:induction false} CallsAreEvenlySpaced<T>(rect: Rect, orient: ListOrient, extent: int, offset0: int, items: seq<T>, n: nat)
    requires n <= |items|
    ensures forall i :: 0 <= i < n ==>
      var c := Calls(rect, orient, extent, offset0, items, n)[i];
      && c.index == i && c.item == items[i]
      && c.rect == ItemRect(rect, orient, offset0 + i * extent)
  {
    if n > 0 {
      CallsAreEvenlySpaced(rect, orient, extent, offset0, items, n - 1);
    }
  }

  /** The widgets the factory returns for a run of calls, in call order. */
  function Produced<T, W>(factory: (Rect, int, T) -> W, calls: seq<FactoryCall<T>>): (ws: seq<W>)
    ensures |ws| == |calls|
  {
    if |calls| == 0 then []
    else
      var last := calls[|calls| - 1];
      Produced(factory, calls[..|calls| - 1]) + [factory(last.rect, last.index, last.item)]
  }

  /** Each produced widget is the factory's answer to the call at the same
      position. */
  lemma {:induction false} ProducedInCallOrder<T, W>(factory: (Rect, int, T) -> W, calls: seq<FactoryCall<T>>)
    ensures forall i :: 0 <= i < |calls| ==>
      Produced(factory, calls)[i] == factory(calls[i].rect, calls[i].index, calls[i].item)
  {
    if |calls| > 0 {
      ProducedInCallOrder(factory, calls[..|calls| - 1]);
    }
  }

  /** One more item adds one call, for that item, one extent further on. */
  lemma CallsStep<T>(rect: Rect, orient: ListOrient, extent: int, offset0: int, items: seq<T>, i: nat)
    requires i < |items|
    ensures Calls(rect, orient, extent, offset0, items, i + 1)
      == Calls(rect, orient, extent, offset0, items, i) + [FactoryCall(ItemRect(rect, orient, offset0 + i * extent), i, items[i])]
  {
  }

  /** One more call adds the factory's answer to it. */
  lemma ProducedStep<T, W>(factory: (Rect, int, T) -> W, calls: seq<FactoryCall<T>>, call: FactoryCall<T>)
    ensures Produced(factory, calls + [call]) == Produced(factory, calls) + [factory(call.rect, call.index, call.item)]
  {
    assert (calls + [call])[..|calls|] == calls;
  }

  /** Recording one more call after the earlier record `calls0` and its widgets
      `children0` extends both records by that call and its widget. */
  lemma RecordStep<T, W>(factory: (Rect, int, T) -> W, calls0: seq<FactoryCall<T>>, children0: seq<W>,
                         before: seq<FactoryCall<T>>, call: FactoryCall<T>)
    ensures (calls0 + before) + [call] == calls0 + (before + [call])
    ensures (children0 + Produced(factory, before)) + [factory(call.rect, call.index, call.item)]
      == children0 + Produced(factory, before + [call])
  {
    ProducedStep(factory, before, call);
  }

  /** `ListView`: the factory stands for the caller's code and is treated as
      a function of its arguments; `calls` records the calls it receives. */
  class ListView<T, W> {
    const rect: Rect
    const items: seq<T>
    const factory: (Rect, int, T) -> W
    const orient: ListOrient
    const itemWidth: int
    const itemHeight: int
    const itemSpacing: int
    var currentOffset: int
    var children: seq<W>
    var calls: seq<FactoryCall<T>>

    /** `ListView.__init__`: no children and offset 0, then one
        `_render_image` pass over the items. */
    constructor (rect: Rect, items: seq<T>, factory: (Rect, int, T) -> W,
                 orient: ListOrient, itemWidth: int, itemHeight: int, itemSpacing: int)
      ensures this.rect == rect && this.items == items && this.factory == factory && this.orient == orient
      ensures this.itemWidth == itemWidth && this.itemHeight == itemHeight && this.itemSpacing == itemSpacing
      ensures calls == Calls(rect, orient, Extent(orient, itemWidth, itemHeight), 0, items, |items|)
      ensures children == Produced(factory, calls)
      ensures currentOffset == |items| * Extent(orient, itemWidth, itemHeight)
    {
      this.rect := rect;
      this.items := items;
      this.factory := factory;
      this.orient := orient;
      this.itemWidth := itemWidth;
      this.itemHeight := itemHeight;
      this.itemSpacing := itemSpacing;
      currentOffset := 0;
      children := [];
      calls := [];
      new;
      RenderImage();
    }

    /** One pass of the `_render_image` loop: item `i` is handed to the
        factory at the current offset, and the offset advances one extent. */
    method RenderItem(i: nat) returns (call: FactoryCall<T>)
      requires i < |items|
      modifies this`currentOffset, this`children, this`calls
      ensures call == FactoryCall(ItemRect(rect, orient, old(currentOffset)), i, items[i])
      ensures calls == old(calls) + [call]
      ensures children == old(children) + [factory(call.rect, call.index, call.item)]
      ensures currentOffset == old(currentOffset) + Extent(orient, itemWidth, itemHeight)
    {
      var pos: Point;
      if orient == Horizontal {
        pos := Point(rect.x + currentOffset, rect.y);
        currentOffset := currentOffset + itemWidth;
      } else {
        pos := Point(rect.x, rect.y + currentOffset);
        currentOffset := currentOffset + itemHeight;
      }
      call := FactoryCall(Rect(pos.x, pos.y, rect.width, rect.height), i, items[i]);
      calls := calls + [call];
      children := children + [factory(call.rect, i, items[i])];
    }

    /** `_render_image`: one factory call per item, in list order, each result
        appended to `children`, the offset advancing by one extent per item
        from wherever it stood. */
    method RenderImage()
      modifies this`currentOffset, this`children, this`calls
      ensures var added := Calls(rect, orient, Extent(orient, itemWidth, itemHeight), old(currentOffset), items, |items|);
        && calls == old(calls) + added
        && children == old(children) + Produced(factory, added)
      ensures currentOffset == old(currentOffset) + |items| * Extent(orient, itemWidth, itemHeight)
    {
      ghost var extent := Extent(orient, itemWidth, itemHeight);
      ghost var offset0 := currentOffset;
      ghost var calls0, children0 := calls, children;
      for i := 0 to |items|
        invariant currentOffset == offset0 + i * extent
        invariant calls == calls0 + Calls(rect, orient, extent, offset0, items, i)
        invariant children == children0 + Produced(factory, Calls(rect, orient, extent, offset0, items, i))
      {
        ghost var before := Calls(rect, orient, extent, offset0, items, i);
        var call := RenderItem(i);
        CallsStep(rect, orient, extent, offset0, items, i);
        RecordStep(factory, calls0, children0, before, call);
        assert (i + 1) * extent == i * extent + extent;
      }
    }
  }

  /** Three items across a list at (10, 20) sized 300 x 40 with items 100
      wide: the factory sees x = 10, 110, 210 at y = 20, each rect 300 x 40. */
  method ThreeAcross(factory: (Rect, int, char) -> int) returns (list: ListView<char, int>)
    ensures |list.calls| == 3 && list.currentOffset == 300
    ensures forall i :: 0 <= i < 3 ==>
      list.calls[i].rect == Rect(10 + 100 * i, 20, 300, 40) && list.calls[i].index == i
  {
    list := new ListView(Rect(10, 20, 300, 40), ['a', 'b', 'c'], factory, Horizontal, 100, 0, 5);
    CallsAreEvenlySpaced(Rect(10, 20, 300, 40), Horizontal, 100, 0, ['a', 'b', 'c'], 3);
  }
}
