/** Listener wrappers: the policy that turns a generated `UncheckedListener` and its metadata
    into a listener of the bus's type, declines (an empty result skips the method) or throws
    (the error leaves `register`). */
module ListenerWrapper {
  import opened Common
  import opened Runtime

  /** A `ListenerWrapper`: `wrapStatic(type, listener, method)` and
      `wrapObject(type, listener, method, object, supermethods)`. */
  datatype ListenerWrapper = ListenerWrapper(
    wrapStatic: (TypeId, Callable, Method) -> Result<Option<Listener>>,
    wrapObject: (TypeId, Callable, Method, Target, seq<Method>) -> Result<Option<Listener>>)

  /** What a mapping function does with a listener: throw (an error), return null (None) or
      return a listener. */
  type Mapper = Callable -> Result<Option<Listener>>

  /** `Optional.of(mapper.apply(listener))`: the mapper's exception propagates and a null
      result is a null pointer. */
  function OptionalOf(mapped: Result<Option<Listener>>): Result<Option<Listener>> {
    match mapped
    case Err(e) => Err(e)
    case Ok(None) => Err(NullPointer)
    case Ok(Some(l)) => Ok(Some(l))
  }

  /** The wrapper made from a mapping function: it never declines; it wraps with
      `mapper.apply`, ignoring the event type, the method, the receiver and the
      supermethods. */
  function FromFunction(mapper: Mapper): (w: ListenerWrapper)
    ensures forall t, c, m :: mapper(c).Err? ==> w.wrapStatic(t, c, m) == Err(mapper(c).error)
    ensures forall t, c, m :: mapper(c) == Ok(None) ==> w.wrapStatic(t, c, m) == Err(NullPointer)
    ensures forall t, c, m :: mapper(c).Ok? && mapper(c).value.Some? ==> w.wrapStatic(t, c, m) == mapper(c)
    ensures forall t, c, m, o, s :: mapper(c).Err? ==> w.wrapObject(t, c, m, o, s) == Err(mapper(c).error)
    ensures forall t, c, m, o, s :: mapper(c) == Ok(None) ==> w.wrapObject(t, c, m, o, s) == Err(NullPointer)
    ensures forall t, c, m, o, s :: mapper(c).Ok? && mapper(c).value.Some? ==> w.wrapObject(t, c, m, o, s) == mapper(c)
  {
    ListenerWrapper(
      (t: TypeId, c: Callable, m: Method) => OptionalOf(mapper(c)),
      (t: TypeId, c: Callable, m: Method, o: Target, s: seq<Method>) => OptionalOf(mapper(c)))
  }

  /** `ListenerWrapper.from(mapper)`: a null mapper is rejected. */
  function From(mapper: Option<Mapper>): (r: Result<ListenerWrapper>)
    ensures mapper.None? <==> r.Err?
    ensures mapper.None? ==> r.error == NullPointer
    ensures mapper.Some? ==> r == Ok(FromFunction(mapper.value))
  {
    match mapper
    case None => Err(NullPointer)
    case Some(f) => Ok(FromFunction(f))
  }

  /** Both wrap operations of a function wrapper agree on every listener, whatever metadata
      each is given, and neither ever declines. */
  lemma FunctionWrapperIgnoresMetadata(
    mapper: Mapper, c: Callable,
    t1: TypeId, m1: Method, t2: TypeId, m2: Method, o: Target, s: seq<Method>)
    ensures FromFunction(mapper).wrapStatic(t1, c, m1) == FromFunction(mapper).wrapObject(t2, c, m2, o, s)
    ensures FromFunction(mapper).wrapStatic(t1, c, m1) != Ok(None)
  {
  }
}
