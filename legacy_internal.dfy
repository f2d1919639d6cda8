/** src/pygame_widgets/internal.py: the runtime of the older widget set. */
module LegacyInternal {
  import opened Wrappers

  type Kind = int
  type Handler = nat
  /** a function passed to `schedule_call`, by identity */
  type CallId = nat

  /** pygame's event type numbers for the events the widgets listen to. */
  const MOUSEMOTION: Kind := 1024
  const MOUSEBUTTONDOWN: Kind := 1025
  const MOUSEBUTTONUP: Kind := 1026

  /** `StateHandle`: a value that remembers whether it changed since the mark
      was last read. Before the first assignment there is no value. */
  class StateHandle<T(==)> {
    var state: Option<T>
    var changed: bool

    constructor ()
      ensures state == None && !changed
    {
      state := None;
      changed := false;
    }

    /** The `state` getter raises until a value has been set. */
    method Get() returns (r: Result<T>)
      ensures state.None? <==> r == Failure(RuntimeError)
      ensures state.Some? ==> r == Success(state.value)
    {
      if state.None? {
        return Failure(RuntimeError);
      }
      r := Success(state.value);
    }

    /** The `state` setter marks a change only when the value differs; an equal
        value never clears an earlier mark. */
    method Set(value: T)
      modifies this
      ensures state == Some(value)
      ensures changed == (old(changed) || old(state) != Some(value))
    {
      if Some(value) != state {
        changed := true;
      }
      state := Some(value);
    }

    /** The `state_changed` getter returns the mark and clears it. */
    method StateChanged() returns (b: bool)
      modifies this`changed
      ensures b == old(changed) && !changed
    {
      b := changed;
      changed := false;
    }
  }

  /** A handle set twice to the same value reports one change, and a second
      read of the mark right after the first reports none. */
  method SecondReadIsFalse<T(==)>(v: T) returns (first: bool, second: bool)
    ensures first && !second
  {
    var h := new StateHandle<T>();
    h.Set(v);
    h.Set(v);
    first := h.StateChanged();
    second := h.StateChanged();
  }

  predicate NoDuplicates<X(==)>(s: seq<X>) {
    forall i, j :: 0 <= i < j < |s| ==> s[i] != s[j]
  }

  /** The handler list of a kind; the `defaultdict` supplies an empty list. */
  function Lookup(m: map<Kind, seq<Handler>>, kind: Kind): seq<Handler> {
    if kind in m then m[kind] else []
  }

  /** `add_event_handler` on one list: a handler already present is ignored,
      any other goes to the end. */
  function WithHandler(list: seq<Handler>, h: Handler): seq<Handler> {
    if h in list then list else list + [h]
  }

  /** The whole table after `add_event_handler(kind, h)`. */
  function Added(m: map<Kind, seq<Handler>>, kind: Kind, h: Handler): map<Kind, seq<Handler>> {
    m[kind := WithHandler(Lookup(m, kind), h)]
  }

  /** Adding keeps the earlier handlers first and in order, contains the new
      handler exactly once, keeps a list free of duplicates and is idempotent. */
  lemma WithHandlerAppendsOnce(list: seq<Handler>, h: Handler)
    requires NoDuplicates(list)
    ensures var r := WithHandler(list, h);
      && r[..|list|] == list && h in r && NoDuplicates(r)
      && (forall i, j :: 0 <= i < |r| && 0 <= j < |r| && r[i] == h && r[j] == h ==> i == j)
      && WithHandler(r, h) == r
      && (h !in list ==> r == list + [h])
  {
  }

  /** The handlers one `update` calls for a batch of events: each event's
      list in turn, in registration order. */
  function Dispatch(m: map<Kind, seq<Handler>>, events: seq<Kind>): seq<Handler> {
    if events == [] then []
    else Dispatch(m, events[..|events| - 1]) + Lookup(m, events[|events| - 1])
  }

  /** Dispatching two batches one after the other calls the same handlers, in
      the same order, as dispatching them as one batch. */
  lemma {:induction false} DispatchConcat(m: map<Kind, seq<Handler>>, a: seq<Kind>, b: seq<Kind>)
    ensures Dispatch(m, a + b) == Dispatch(m, a) + Dispatch(m, b)
    decreases |b|
  {
    if b == [] {
      assert a + b == a;
    } else {
      var last := b[|b| - 1];
      assert (a + b)[..|a + b| - 1] == a + b[..|b| - 1];
      DispatchConcat(m, a, b[..|b| - 1]);
    }
  }

  /** Two maps that give every kind the same list (one may hold extra empty
      lists that the `defaultdict` created). */
  ghost predicate SameLists(m: map<Kind, seq<Handler>>, n: map<Kind, seq<Handler>>) {
    forall k :: Lookup(m, k) == Lookup(n, k)
  }

  /** The module-level state: handler lists per kind and the queue of
      scheduled calls. */
  class Runtime {
    var handlers: map<Kind, seq<Handler>>
    var scheduled: seq<CallId>

    /** No handler appears twice under one kind. */
    predicate Valid()
      reads this
    {
      forall k :: k in handlers ==> NoDuplicates(handlers[k])
    }

    constructor ()
      ensures handlers == map[] && scheduled == [] && Valid()
    {
      handlers := map[];
      scheduled := [];
    }

    /** `add_event_handler`. */
    method AddEventHandler(kind: Kind, h: Handler)
      requires Valid()
      modifies this`handlers
      ensures Valid()
      ensures handlers == Added(old(handlers), kind, h)
    {
      var list := Lookup(handlers, kind);
      handlers := handlers[kind := list];
      if h in list {
        return;
      }
      handlers := handlers[kind := list + [h]];
    }

    /** `_invoke_event`: calls the kind's handlers in registration order. */
    method InvokeEvent(kind: Kind) returns (called: seq<Handler>)
      modifies this`handlers
      ensures called == Lookup(old(handlers), kind)
      ensures handlers == old(handlers)[kind := Lookup(old(handlers), kind)]
      ensures SameLists(handlers, old(handlers)) && (old(Valid()) ==> Valid())
    {
      var list := Lookup(handlers, kind);
      handlers := handlers[kind := list];
      called := [];
      for i := 0 to |list|
        invariant called == list[..i]
        modifies {}
      {
        called := called + [list[i]];
      }
    }

    /** `schedule_call`: the call joins the back of the queue. */
    method ScheduleCall(f: CallId)
      modifies this`scheduled
      ensures scheduled == old(scheduled) + [f]
    {
      scheduled := scheduled + [f];
    }

    /** `update`: without events no handler runs; otherwise each event's
        handlers run in turn; then the queue is drained front first. */
    method Update(events: Option<seq<Kind>>) returns (called: seq<Handler>, ran: seq<CallId>)
      modifies this
      ensures events.None? ==> called == []
      ensures events.Some? ==> called == Dispatch(old(handlers), events.value)
      ensures SameLists(handlers, old(handlers)) && (old(Valid()) ==> Valid())
      ensures ran == old(scheduled) && scheduled == []
    {
      called := [];
      if events.Some? {
        var evs := events.value;
        for i := 0 to |evs|
          invariant called == Dispatch(old(handlers), evs[..i])
          invariant SameLists(handlers, old(handlers)) && (old(Valid()) ==> Valid())
          invariant scheduled == old(scheduled)
        {
          var more := InvokeEvent(evs[i]);
          assert evs[..i + 1][..i] == evs[..i];
          called := called + more;
        }
        assert evs[..|evs|] == evs;
      }
      ran := [];
      while scheduled != []
        invariant old(scheduled) == ran + scheduled
        invariant SameLists(handlers, old(handlers)) && (old(Valid()) ==> Valid())
        decreases |scheduled|
      {
        ran := ran + [scheduled[0]];
        scheduled := scheduled[1..];
      }
    }
  }

  type ClassId = nat

  /** The attribute names of `other` with no default on the class being
      merged into, up to the first one: `merge` raises there. */
  function FirstWithoutDefault<V>(names: seq<string>, defaults: map<string, V>): (k: nat)
    ensures k <= |names|
    ensures forall i :: 0 <= i < k ==> names[i] in defaults
    ensures k < |names| ==> names[k] !in defaults
  {
    if names == [] then 0
    else if names[0] !in defaults then 0
    else 1 + FirstWithoutDefault(names[1..], defaults)
  }

  /** The values after copying, name by name, each value of `theirs` that
      differs from the class default. */
  function MergeNames<V(==)>(mine: map<string, V>, theirs: map<string, V>, names: seq<string>,
                            defaults: map<string, V>): map<string, V>
    requires forall n :: n in names ==> n in theirs && n in defaults
  {
    if names == [] then mine
    else
      var n := names[|names| - 1];
      var before := MergeNames(mine, theirs, names[..|names| - 1], defaults);
      if theirs[n] != defaults[n] then before[n := theirs[n]] else before
  }

  /** One more name extends the merge by that name alone. */
  lemma MergeNamesStep<V>(mine: map<string, V>, theirs: map<string, V>, names: seq<string>,
                              defaults: map<string, V>, i: nat)
    requires i < |names| && forall n :: n in names[..i + 1] ==> n in theirs && n in defaults
    ensures var before := MergeNames(mine, theirs, names[..i], defaults);
      var n := names[i];
      MergeNames(mine, theirs, names[..i + 1], defaults)
        == if theirs[n] != defaults[n] then before[n := theirs[n]] else before
  {
    assert names[..i + 1][..i] == names[..i];
  }

  /** Setting a value keeps the names duplicate-free and in step with the
      keys, the name being appended when it is new. */
  lemma AddName<V>(names: seq<string>, values: map<string, V>, n: string, v: V)
    requires NoDuplicates(names) && values.Keys == set m | m in names
    ensures var names' := if n in names then names else names + [n];
      NoDuplicates(names') && values[n := v].Keys == set m | m in names'
  {
  }

  /** What the merge means name by name: a name of `theirs` whose value is not
      the default takes that value; every other name keeps its own, and no
      other name is added. */
  lemma {:induction false} MergeNamesMeaning<V>(mine: map<string, V>, theirs: map<string, V>,
                                                   names: seq<string>, defaults: map<string, V>, n: string)
    requires forall m :: m in names ==> m in theirs && m in defaults
    ensures var r := MergeNames(mine, theirs, names, defaults);
      && (n in names && theirs[n] != defaults[n] ==> n in r && r[n] == theirs[n])
      && (!(n in names && theirs[n] != defaults[n]) ==> (n in r <==> n in mine) && (n in mine ==> r[n] == mine[n]))
  {
    if names != [] {
      var last := names[|names| - 1];
      var init := names[..|names| - 1];
      assert names == init + [last];
      MergeNamesMeaning(mine, theirs, init, defaults, n);
    }
  }

  /** Merging a configuration whose values are all defaults changes nothing,
      and merging the same configuration twice is merging it once. */
  lemma MergeDefaultsAndTwice<V>(mine: map<string, V>, theirs: map<string, V>, names: seq<string>,
                                     defaults: map<string, V>)
    requires forall m :: m in names ==> m in theirs && m in defaults
    ensures (forall m :: m in names ==> theirs[m] == defaults[m]) ==> MergeNames(mine, theirs, names, defaults) == mine
    ensures var once := MergeNames(mine, theirs, names, defaults);
      MergeNames(once, theirs, names, defaults) == once
  {
    var once := MergeNames(mine, theirs, names, defaults);
    if forall m :: m in names ==> theirs[m] == defaults[m] {
      forall n ensures n in once <==> n in mine {
        MergeNamesMeaning(mine, theirs, names, defaults, n);
      }
      forall n | n in mine ensures once[n] == mine[n] {
        MergeNamesMeaning(mine, theirs, names, defaults, n);
      }
    }
    var twice := MergeNames(once, theirs, names, defaults);
    forall n ensures n in twice <==> n in once {
      MergeNamesMeaning(mine, theirs, names, defaults, n);
      MergeNamesMeaning(once, theirs, names, defaults, n);
    }
    forall n | n in once ensures twice[n] == once[n] {
      MergeNamesMeaning(mine, theirs, names, defaults, n);
      MergeNamesMeaning(once, theirs, names, defaults, n);
    }
  }

  /** A dataclass configuration: its class and that class's bases, and its
      attributes in definition order with their values. */
  class Config<V(==)> {
    const cls: ClassId
    const bases: set<ClassId>
    var names: seq<string>
    var values: map<string, V>

    predicate Valid()
      reads this
    {
      NoDuplicates(names) && values.Keys == set n | n in names
    }

    constructor (cls: ClassId, bases: set<ClassId>, names: seq<string>, values: map<string, V>)
      requires NoDuplicates(names) && values.Keys == set n | n in names
      ensures this.cls == cls && this.bases == bases && this.names == names && this.values == values
      ensures Valid()
    {
      this.cls, this.bases := cls, bases;
      this.names, this.values := names, values;
    }

    /** `isinstance(other, self.__class__)`. */
    predicate IsInstanceOfMine(other: Config<V>)
      reads other
    {
      other.cls == cls || cls in other.bases
    }

    /** `ConfigBase.merge`: a configuration of an unrelated class raises
        `TypeError`; otherwise each attribute of `other`, in order, whose value
        differs from this class's default is copied. An attribute with no class
        default raises `AttributeError`, after the ones before it were copied. */
    method Merge(other: Config<V>, defaults: map<string, V>) returns (r: Result<()>)
      requires Valid() && other.Valid()
      modifies this
      ensures !old(IsInstanceOfMine(other)) ==> r == Failure(TypeError) && values == old(values) && names == old(names)
      ensures old(IsInstanceOfMine(other)) ==>
        var k := FirstWithoutDefault(old(other.names), defaults);
        && (r.Success? <==> k == |old(other.names)|)
        && (r.Failure? ==> r.error == AttributeError)
        && values == MergeNames(old(values), old(other.values), old(other.names)[..k], defaults)
      ensures Valid() && old(names) <= names
    {
      if !IsInstanceOfMine(other) {
        return Failure(TypeError);
      }
      var theirNames, theirValues := other.names, other.values;
      ghost var mine := values;
      ghost var k := FirstWithoutDefault(theirNames, defaults);
      var i := 0;
      while i < |theirNames|
        invariant 0 <= i <= k
        invariant values == MergeNames(mine, theirValues, theirNames[..i], defaults)
        invariant Valid() && old(names) <= names
      {
        var n := theirNames[i];
        if n !in defaults {
          return Failure(AttributeError);
        }
        MergeNamesStep(mine, theirValues, theirNames, defaults, i);
        if theirValues[n] != defaults[n] {
          AddName(names, values, n, theirValues[n]);
          values := values[n := theirValues[n]];
          if n !in names {
            names := names + [n];
          }
        }
        i := i + 1;
      }
      r := Success(());
    }
  }
}
