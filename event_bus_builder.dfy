/** The builder of an event bus: the base type, fixed at creation, and the three settings a
    bus is made from. The listener wrapper can be set once, the cache processor only after
    the wrapper, the factory loader any number of times; building needs the wrapper and the
    loader. */
module EventBusBuilder {
  import opened Common
  import opened Runtime
  import opened Utility
  import opened AbstractFactoryLoader
  import opened ListenerWrapper
  import opened ListenerList
  import EventBusImpl

  class EventBusBuilder {
    const baseType: TypeId
    var listenerWrapper: Option<ListenerWrapper>
    var cacheProcessor: Processor
    var factoryLoader: Option<AbstractFactoryLoader>

    /** The cache processor keeps its default until the wrapper is set. */
    ghost predicate Valid()
      reads this
    {
      listenerWrapper.None? ==> cacheProcessor == EmptyConsumer
    }

    constructor (baseType: TypeId)
      ensures Valid()
      ensures this.baseType == baseType
      ensures listenerWrapper == None && cacheProcessor == EmptyConsumer && factoryLoader == None
    {
      this.baseType := baseType;
      listenerWrapper := None;
      cacheProcessor := EmptyConsumer;
      factoryLoader := None;
    }

    /** `getBaseType`: the type the builder was created with, whatever was set since. */
    method GetBaseType() returns (r: TypeId)
      ensures r == baseType
    {
      r := baseType;
    }

    /** `setListenerWrapper`: a second call is a state error and a null value a null
        pointer; otherwise the wrapper is set. */
    method SetListenerWrapper(value: Option<ListenerWrapper>) returns (r: Outcome)
      requires Valid()
      modifies this
      ensures Valid()
      ensures old(listenerWrapper).Some? ==> r == Fail(IllegalState)
      ensures old(listenerWrapper).None? && value.None? ==> r == Fail(NullPointer)
      ensures r.Pass? <==> old(listenerWrapper).None? && value.Some?
      ensures listenerWrapper == if r.Pass? then value else old(listenerWrapper)
      ensures cacheProcessor == old(cacheProcessor) && factoryLoader == old(factoryLoader)
    {
      if listenerWrapper.Some? {
        return Fail(IllegalState);
      }
      var checked := CheckValue(value);
      if checked.Err? {
        return Fail(checked.error);
      }
      listenerWrapper := Some(checked.value);
      r := Pass;
    }

    /** `getListenerWrapper`: a state error while no wrapper is set. */
    method GetListenerWrapper() returns (r: Result<ListenerWrapper>)
      ensures listenerWrapper.None? <==> r == Err(IllegalState)
      ensures listenerWrapper.Some? ==> r == Ok(listenerWrapper.value)
    {
      if listenerWrapper.None? {
        return Err(IllegalState);
      }
      r := Ok(listenerWrapper.value);
    }

    /** `setCacheProcessor`: allowed only once the wrapper is set, and never to null; it may
        be replaced any number of times. */
    method SetCacheProcessor(value: Option<Processor>) returns (r: Outcome)
      requires Valid()
      modifies this
      ensures Valid()
      ensures old(listenerWrapper).None? ==> r == Fail(IllegalState)
      ensures old(listenerWrapper).Some? && value.None? ==> r == Fail(NullPointer)
      ensures r.Pass? <==> old(listenerWrapper).Some? && value.Some?
      ensures cacheProcessor == if r.Pass? then value.value else old(cacheProcessor)
      ensures listenerWrapper == old(listenerWrapper) && factoryLoader == old(factoryLoader)
    {
      if listenerWrapper.None? {
        return Fail(IllegalState);
      }
      var checked := CheckValue(value);
      if checked.Err? {
        return Fail(checked.error);
      }
      cacheProcessor := checked.value;
      r := Pass;
    }

    /** `getCacheProcessor`: the default consumer until one is set. */
    method GetCacheProcessor() returns (r: Processor)
      requires Valid()
      ensures r == cacheProcessor
      ensures listenerWrapper.None? ==> forall buffer :: r(buffer) == Ok(buffer)
    {
      r := cacheProcessor;
    }

    /** `setFactoryLoader`: any non-null loader, replacing the previous one. */
    method SetFactoryLoader(value: Option<AbstractFactoryLoader>) returns (r: Outcome)
      requires Valid()
      modifies this
      ensures Valid()
      ensures value.None? <==> r == Fail(NullPointer)
      ensures r.Pass? <==> value.Some?
      ensures factoryLoader == if value.Some? then value else old(factoryLoader)
      ensures listenerWrapper == old(listenerWrapper) && cacheProcessor == old(cacheProcessor)
    {
      var checked := CheckValue(value);
      if checked.Err? {
        return Fail(checked.error);
      }
      factoryLoader := Some(checked.value);
      r := Pass;
    }

    /** `getFactoryLoader`: a state error while no loader is set. */
    method GetFactoryLoader() returns (r: Result<AbstractFactoryLoader>)
      ensures factoryLoader.None? <==> r == Err(IllegalState)
      ensures factoryLoader.Some? ==> r == Ok(factoryLoader.value)
    {
      if factoryLoader.None? {
        return Err(IllegalState);
      }
      r := Ok(factoryLoader.value);
    }
  }

  /** `checkValue`: `Objects.requireNonNull`. */
  function CheckValue<T>(value: Option<T>): (r: Result<T>)
    ensures value.None? <==> r == Err(NullPointer)
    ensures value.Some? ==> r == Ok(value.value)
  {
    if value.None? then Err(NullPointer) else Ok(value.value)
  }

  /** `build()`: a new bus over the class world `world`, made by the bus constructor from
      the builder's getters, so a missing wrapper, then a missing loader, is a state error. */
  method Build(b: EventBusBuilder, world: Hierarchy) returns (r: Result<EventBusImpl.EventBusImpl>)
    requires b.Valid()
    requires b.factoryLoader.Some? ==> b.factoryLoader.value.Valid()
    ensures r.Err? <==> b.listenerWrapper.None? || b.factoryLoader.None?
    ensures r.Err? ==> r.error == IllegalState
    ensures r.Ok? ==>
      && fresh(r.value) && fresh(r.value.nodes) && r.value.Valid()
      && r.value.world == world && r.value.baseType == b.baseType
      && r.value.listenerWrapper == b.listenerWrapper.value
      && r.value.cacheProcessor == b.cacheProcessor
      && r.value.factoryLoader == b.factoryLoader.value
      && r.value.lists == map[] && r.value.registered == map[] && r.value.factories == map[]
  {
    var wrapper := b.GetListenerWrapper();
    if wrapper.Err? {
      return Err(wrapper.error);
    }
    var processor := b.GetCacheProcessor();
    var loader := b.GetFactoryLoader();
    if loader.Err? {
      return Err(loader.error);
    }
    var bus := new EventBusImpl.EventBusImpl(world, b.baseType, wrapper.value, processor, loader.value);
    r := Ok(bus);
  }
}
