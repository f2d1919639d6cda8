/** guinea/events.py: a registry from event kind to a set of handlers. The
    registry is a defaultdict, so reading a kind that is absent inserts it with
    an empty set, and keys iterate in insertion order. Handlers are identified by
    number; calling one is recorded, not run. */
module GuineaEvents {
  import opened Wrappers

  type Kind = int
  type Handler = nat

  /** pygame's event type numbers for the events the widgets listen to. */
  const MOUSEMOTION: Kind := 1024
  const MOUSEBUTTONDOWN: Kind := 1025
  const MOUSEBUTTONUP: Kind := 1026
  const VIDEORESIZE: Kind := 32769

  /** The dictionary's contents: its keys in insertion order and the handler set
      under each key. */
  datatype Table = Table(order: seq<Kind>, handlers: map<Kind, set<Handler>>)

  /** The keys listed once each, and exactly the keys of the map. */
  ghost predicate WellFormed(t: Table)
  {
    && (forall k :: k in t.handlers ==> k in t.order)
    && (forall i :: 0 <= i < |t.order| ==> t.order[i] in t.handlers)
    && (forall i, j :: 0 <= i < j < |t.order| ==> t.order[i] != t.order[j])
  }

  /** A defaultdict read of `kind`: an absent kind is appended with an empty set. */
  function Touch(t: Table, kind: Kind): (r: Table)
    ensures kind in r.handlers
  {
    if kind in t.handlers then t else Table(t.order + [kind], t.handlers[kind := {}])
  }

  /** `register_handler`: `handler` joins the set under `kind`. */
  function Register(t: Table, kind: Kind, handler: Handler): (r: Table)
  {
    var u := Touch(t, kind);
    Table(u.order, u.handlers[kind := u.handlers[kind] + {handler}])
  }

  /** `handler` taken out of every set, keys kept. */
  function RemoveEverywhere(t: Table, handler: Handler): (r: Table)
  {
    Table(t.order, map k | k in t.handlers :: t.handlers[k] - {handler})
  }

  /** `handler` taken out of the sets of the first `m` keys only. */
  function RemoveFromFirst(t: Table, handler: Handler, m: nat): (r: Table)
    requires m <= |t.order|
  {
    Table(t.order, map k | k in t.handlers :: if k in t.order[..m] then t.handlers[k] - {handler} else t.handlers[k])
  }

  /** Reading a kind keeps the table well formed and changes no handler set. */
  lemma TouchKeepsWellFormed(t: Table, kind: Kind)
    requires WellFormed(t)
    ensures WellFormed(Touch(t, kind))
    ensures forall k :: k in t.handlers ==> k in Touch(t, kind).handlers && Touch(t, kind).handlers[k] == t.handlers[k]
    ensures kind !in t.handlers ==> Touch(t, kind).handlers[kind] == {}
  {
  }

  /** Registering keeps the table well formed, puts the handler under `kind`
      and changes no other set. */
  lemma RegisterAdds(t: Table, kind: Kind, handler: Handler)
    requires WellFormed(t)
    ensures var r := Register(t, kind, handler);
      && WellFormed(r)
      && r.handlers[kind] == (if kind in t.handlers then t.handlers[kind] else {}) + {handler}
      && forall k :: k in t.handlers && k != kind ==> k in r.handlers && r.handlers[k] == t.handlers[k]
  {
    TouchKeepsWellFormed(t, kind);
  }

  /** Registering the same handler for the same kind twice is the same as once. */
  lemma RegisterIdempotent(t: Table, kind: Kind, handler: Handler)
    ensures Register(Register(t, kind, handler), kind, handler) == Register(t, kind, handler)
  {
    var once := Register(t, kind, handler);
    assert once.handlers[kind := once.handlers[kind] + {handler}] == once.handlers by {
      assert once.handlers[kind] + {handler} == once.handlers[kind];
    }
  }

  /** Removing everywhere after registering leaves the handler under no kind. */
  lemma RegisterThenRemoveEverywhere(t: Table, kind: Kind, handler: Handler)
    ensures var r := RemoveEverywhere(Register(t, kind, handler), handler);
      forall k :: k in r.handlers ==> handler !in r.handlers[k]
  {
  }

  /** The position of the first key (in insertion order) whose set lacks
      `handler`, if any. */
  function FirstMissing(t: Table, handler: Handler, from: nat): (r: Option<nat>)
    requires WellFormed(t) && from <= |t.order|
    ensures r.Some? ==> from <= r.value < |t.order| && handler !in t.handlers[t.order[r.value]]
    ensures r.Some? ==> forall i :: from <= i < r.value ==> handler in t.handlers[t.order[i]]
    ensures r.None? ==> forall i :: from <= i < |t.order| ==> handler in t.handlers[t.order[i]]
    decreases |t.order| - from
  {
    if from == |t.order| then None
    else if handler !in t.handlers[t.order[from]] then Some(from)
    else FirstMissing(t, handler, from + 1)
  }

  /** Removing from the first `|order|` keys is removing everywhere. */
  lemma RemoveFromAllKeys(t: Table, handler: Handler)
    requires WellFormed(t)
    ensures RemoveFromFirst(t, handler, |t.order|) == RemoveEverywhere(t, handler)
  {
    assert t.order[..|t.order|] == t.order;
    var a, b := RemoveFromFirst(t, handler, |t.order|), RemoveEverywhere(t, handler);
    forall k | k in a.handlers ensures a.handlers[k] == b.handlers[k] {
      assert k in t.order;
    }
  }

  /** One more key visited: its set loses the handler, and it had not lost it
      before because keys are listed once. */
  lemma RemoveFromFirstStep(t: Table, handler: Handler, i: nat)
    requires WellFormed(t) && i < |t.order|
    ensures var before, after, k := RemoveFromFirst(t, handler, i), RemoveFromFirst(t, handler, i + 1), t.order[i];
      && k in before.handlers && before.handlers[k] == t.handlers[k]
      && after == Table(t.order, before.handlers[k := t.handlers[k] - {handler}])
  {
    var k := t.order[i];
    assert t.order[..i + 1] == t.order[..i] + [k];
    var after := RemoveFromFirst(t, handler, i + 1);
    var before := RemoveFromFirst(t, handler, i);
    assert after.handlers == before.handlers[k := t.handlers[k] - {handler}];
  }

  /** When the handler is under each of the first `i` keys but not under key
      `i`, key `i` is the first one missing it. */
  lemma {:induction false} FirstMissingAt(t: Table, handler: Handler, from: nat, i: nat)
    requires WellFormed(t) && from <= i < |t.order|
    requires forall j :: from <= j < i ==> handler in t.handlers[t.order[j]]
    requires handler !in t.handlers[t.order[i]]
    ensures FirstMissing(t, handler, from) == Some(i)
    decreases i - from
  {
    if from < i {
      FirstMissingAt(t, handler, from + 1, i);
    }
  }

  /** Removal as written fails exactly when some registered kind lacks the
      handler, and otherwise agrees with removal everywhere. */
  lemma FirstMissingIffAbsentSomewhere(t: Table, handler: Handler)
    requires WellFormed(t)
    ensures FirstMissing(t, handler, 0).Some? ==> exists k :: k in t.handlers && handler !in t.handlers[k]
    ensures (exists k :: k in t.handlers && handler !in t.handlers[k]) ==> FirstMissing(t, handler, 0).Some?
    ensures FirstMissing(t, handler, 0).None? ==> RemoveFromFirst(t, handler, |t.order|) == RemoveEverywhere(t, handler)
  {
    if FirstMissing(t, handler, 0).None? {
      forall k | k in t.handlers ensures handler in t.handlers[k] {
        assert k in t.order;
        var i :| 0 <= i < |t.order| && t.order[i] == k;
      }
    } else {
      var i := FirstMissing(t, handler, 0).value;
      var k := t.order[i];
      assert k in t.handlers && handler !in t.handlers[k];
    }
    RemoveFromAllKeys(t, handler);
  }

  class EventRegistry {
    var order: seq<Kind>
    var handlers: map<Kind, set<Handler>>

    function State(): Table
      reads this
    {
      Table(order, handlers)
    }

    ghost predicate Valid()
      reads this
    {
      WellFormed(State())
    }

    /** The module-level registry starts empty. */
    constructor ()
      ensures Valid() && State() == Table([], map[])
    {
      order, handlers := [], map[];
    }

    /** `register_handler`. */
    method RegisterHandler(kind: Kind, handler: Handler)
      requires Valid()
      modifies this
      ensures Valid() && State() == Register(old(State()), kind, handler)
    {
      RegisterAdds(State(), kind, handler);
      if kind !in handlers {
        order := order + [kind];
        handlers := handlers[kind := {}];
      }
      handlers := handlers[kind := handlers[kind] + {handler}];
    }

    /** `process_event`: every handler registered for the event's kind is called
        exactly once, in no particular order, and no other handler; the kind is
        inserted with an empty set if it was absent. */
    method ProcessEvent(kind: Kind) returns (called: seq<Handler>)
      requires Valid()
      modifies this
      ensures Valid() && State() == Touch(old(State()), kind)
      ensures forall h :: h in called <==> h in handlers[kind]
      ensures forall i, j :: 0 <= i < j < |called| ==> called[i] != called[j]
    {
      TouchKeepsWellFormed(State(), kind);
      if kind !in handlers {
        order := order + [kind];
        handlers := handlers[kind := {}];
      }
      var pending := handlers[kind];
      called := [];
      while pending != {}
        invariant pending <= handlers[kind]
        invariant forall h :: h in called <==> h in handlers[kind] && h !in pending
        invariant forall i, j :: 0 <= i < j < |called| ==> called[i] != called[j]
        decreases |pending|
      {
        var h :| h in pending;
        called := called + [h];
        pending := pending - {h};
      }
    }

    /** `unregister_handler` as written: keys are visited in insertion order and
        `set.remove` raises `KeyError` at the first set without the handler,
        leaving the sets already visited without it. */
    method UnregisterHandlerAsWritten(handler: Handler) returns (r: Result<()>)
      requires Valid()
      modifies this
      ensures Valid()
      ensures var m := FirstMissing(old(State()), handler, 0);
        && (m.Some? ==> r == Failure(KeyError) && State() == RemoveFromFirst(old(State()), handler, m.value))
        && (m.None? ==> r == Success(()) && State() == RemoveFromFirst(old(State()), handler, |old(order)|))
    {
      ghost var start := State();
      var i := 0;
      while i < |order|
        invariant 0 <= i <= |order| && order == start.order
        invariant forall j :: 0 <= j < i ==> handler in start.handlers[start.order[j]]
        invariant State() == RemoveFromFirst(start, handler, i)
      {
        var kind := order[i];
        RemoveFromFirstStep(start, handler, i);
        if handler !in handlers[kind] {
          FirstMissingAt(start, handler, 0, i);
          return Failure(KeyError);
        }
        handlers := handlers[kind := handlers[kind] - {handler}];
        i := i + 1;
      }
      r := Success(());
    }

    /** `unregister_handler` as intended: the handler is discarded from every
        set, whether or not it was registered there. */
    method UnregisterHandler(handler: Handler)
      requires Valid()
      modifies this
      ensures Valid() && State() == RemoveEverywhere(old(State()), handler)
    {
      ghost var start := State();
      var i := 0;
      while i < |order|
        invariant 0 <= i <= |order| && order == start.order
        invariant State() == RemoveFromFirst(start, handler, i)
      {
        var kind := order[i];
        RemoveFromFirstStep(start, handler, i);
        handlers := handlers[kind := handlers[kind] - {handler}];
        i := i + 1;
      }
      RemoveFromAllKeys(start, handler);
    }
  }

  /** An event of a kind nobody listens to inserts that kind with an empty set;
      from then on unregistering any handler as written raises `KeyError`, while
      the intended removal succeeds and leaves the handler nowhere. */
  method UnregisterAfterUnheardEvent() returns (asWritten: Result<()>, intended: Table)
    ensures asWritten == Failure(KeyError)
    ensures forall k :: k in intended.handlers ==> 7 !in intended.handlers[k]
  {
    var registry := new EventRegistry();
    registry.RegisterHandler(1, 7);
    var _ := registry.ProcessEvent(2);
    var copy := new EventRegistry();
    copy.RegisterHandler(1, 7);
    var _ := copy.ProcessEvent(2);
    assert FirstMissing(registry.State(), 7, 1) == Some(1);
    asWritten := registry.UnregisterHandlerAsWritten(7);
    copy.UnregisterHandler(7);
    intended := copy.State();
  }
}
