/** The public face of the bus: firing an event at the listeners of a type, and creating a
    builder. */
module EventBus {
  import opened Common
  import opened Runtime
  import opened Utility
  import Impl = EventBusImpl
  import Builders = EventBusBuilder

  /** What each listener's `accept` does with the event being fired: return normally (None)
      or throw. */
  type Accept = Listener -> Option<Error>

  /** `invoked` and `r` are what running `snapshot` in order gives: every listener up to the
      first one that throws runs, its exception propagates, and no later listener runs. */
  predicate Dispatched(snapshot: seq<Listener>, accept: Accept, invoked: seq<Listener>, r: Outcome) {
    && |invoked| <= |snapshot| && invoked == snapshot[..|invoked|]
    && (r.Pass? ==> invoked == snapshot)
    && (forall i :: 0 <= i < |invoked| && (r.Pass? || i < |invoked| - 1) ==> accept(invoked[i]).None?)
    && (r.Fail? ==> invoked != [] && accept(invoked[|invoked| - 1]) == Some(r.error))
  }

  /** The loop of `fire`: each listener of the snapshot accepts the event, in order. */
  method Dispatch(snapshot: seq<Listener>, accept: Accept) returns (invoked: seq<Listener>, r: Outcome)
    ensures Dispatched(snapshot, accept, invoked, r)
  {
    invoked := [];
    var i := 0;
    while i < |snapshot|
      invariant 0 <= i <= |snapshot|
      invariant invoked == snapshot[..i]
      invariant forall k :: 0 <= k < i ==> accept(snapshot[k]).None?
    {
      invoked := invoked + [snapshot[i]];
      var thrown := accept(snapshot[i]);
      if thrown.Some? {
        return invoked, Fail(thrown.value);
      }
      i := i + 1;
    }
    r := Pass;
  }

  /** A run completes exactly when no listener of the snapshot throws. */
  lemma DispatchPasses(snapshot: seq<Listener>, accept: Accept, invoked: seq<Listener>, r: Outcome)
    requires Dispatched(snapshot, accept, invoked, r)
    ensures r.Pass? <==> forall i :: 0 <= i < |snapshot| ==> accept(snapshot[i]).None?
  {
    if r.Fail? {
      assert snapshot[|invoked| - 1] == invoked[|invoked| - 1];
    }
  }

  /** `Dispatched` leaves no choice: the listeners run and the outcome are determined by the
      snapshot and what each listener does. */
  lemma DispatchDeterministic(snapshot: seq<Listener>, accept: Accept,
                              invoked1: seq<Listener>, r1: Outcome,
                              invoked2: seq<Listener>, r2: Outcome)
    requires Dispatched(snapshot, accept, invoked1, r1)
    requires Dispatched(snapshot, accept, invoked2, r2)
    ensures invoked1 == invoked2 && r1 == r2
  {
  }

  /** `fire(type, event)`: an event that is not an instance of `eventType` (null included)
      is an argument error and nothing happens. Otherwise the list of `eventType` is
      obtained, creating it and its supertypes' lists if needed, its snapshot is taken (the
      cache processor's exception, if it throws, leaves `fire` and no listener runs), and
      the snapshot's listeners accept the event in order. The snapshot holds the listeners
      registered for `eventType` and its list supertypes as they were before the call, and no
      listener is added or removed. */
  method Fire(bus: Impl.EventBusImpl, eventType: TypeId, event: Option<TypeId>, accept: Accept)
    returns (invoked: seq<Listener>, r: Outcome)
    requires bus.Valid() && IsAssignableFrom(bus.world, bus.baseType, eventType)
    modifies bus, bus.nodes
    ensures bus.Valid()
    ensures event.None? || !IsAssignableFrom(bus.world, eventType, event.value) ==>
      r == Fail(IllegalArgument) && invoked == [] && unchanged(bus, bus.nodes)
    ensures event.Some? && IsAssignableFrom(bus.world, eventType, event.value) && old(bus.Snapshot(eventType)).Err? ==>
      r == Fail(old(bus.Snapshot(eventType)).error) && invoked == []
    ensures event.Some? && IsAssignableFrom(bus.world, eventType, event.value) && old(bus.Snapshot(eventType)).Ok? ==>
      Dispatched(old(bus.Snapshot(eventType)).value, accept, invoked, r)
    ensures forall s :: bus.OwnOf(s) == old(bus.OwnOf(s))
    ensures bus.registered == old(bus.registered) && bus.factories == old(bus.factories)
  {
    if event.None? || !IsAssignableFrom(bus.world, eventType, event.value) {
      return [], Fail(IllegalArgument);
    }
    var n := bus.GetList(eventType);
    Impl.GrownKeepsOwn(old(bus.lists), old(bus.nodes.listeners), bus.lists, bus.nodes.listeners, eventType + 1);
    Impl.OwnGrewAll(old(bus.lists), old(bus.nodes.listeners), bus.lists, bus.nodes.listeners, []);
    Impl.OwnAllAgree(old(bus.lists), old(bus.nodes.listeners), bus.lists, bus.nodes.listeners,
                     Impl.ListSupertypes(bus.world, bus.baseType, eventType));
    bus.MergedIsSnapshot(eventType);
    var snapshot := bus.nodes.GetCache(n);
    assert bus.Valid();
    if snapshot.Err? {
      return [], Fail(snapshot.error);
    }
    invoked, r := Dispatch(snapshot.value, accept);
  }

  /** `EventBus.builder(baseType)`: a null base type is a null pointer; otherwise a new
      builder with nothing set. */
  method Builder(baseType: Option<TypeId>) returns (r: Result<Builders.EventBusBuilder>)
    ensures baseType.None? <==> r == Err(NullPointer)
    ensures r.Ok? ==>
      && fresh(r.value) && r.value.Valid() && r.value.baseType == baseType.value
      && r.value.listenerWrapper == None && r.value.factoryLoader == None
      && r.value.cacheProcessor == EmptyConsumer
  {
    if baseType.None? {
      return Err(NullPointer);
    }
    var b := new Builders.EventBusBuilder(baseType.value);
    r := Ok(b);
  }
}
