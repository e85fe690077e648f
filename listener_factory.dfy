/** Listener factories: what a factory loader returns for one method. A factory turns an
    optional receiver into an `UncheckedListener`. */
module ListenerFactories {
  import opened Common
  import opened Runtime

  datatype ListenerFactory =
    | FromConstant(value: Callable)             // for a static method: one listener, built once
    | ObjectListenerFactory(handle: Handle)     // for an instance method: a handle taking the receiver

  /** What invoking a receiver-taking handle does: the listener it constructs, or None when
      the invocation throws. It belongs to the JVM and is a parameter here. */
  type Instantiate = (Handle, Option<Target>) -> Option<Callable>

  /** `ListenerFactory.get(object)`. A constant factory returns its value whatever the
      argument, null included; a bound factory invokes its handle on the argument every time
      and turns a failure into a runtime error. */
  function Get(f: ListenerFactory, instantiate: Instantiate, receiver: Option<Target>): (r: Result<Callable>)
    ensures f.FromConstant? ==> r == Ok(f.value)
    ensures f.ObjectListenerFactory? ==>
      r == match instantiate(f.handle, receiver)
           case None => Err(RuntimeFailure)
           case Some(c) => Ok(c)
  {
    match f
    case FromConstant(v) => Ok(v)
    case ObjectListenerFactory(h) =>
      match instantiate(h, receiver)
      case None => Err(RuntimeFailure)
      case Some(c) => Ok(c)
  }

  /** `ListenerFactory.constant(value)`: a null value is rejected. */
  function Constant(value: Option<Callable>): (r: Result<ListenerFactory>)
    ensures value.None? <==> r == Err(NullPointer)
    ensures value.Some? ==> r.Ok? && r.value.FromConstant? && r.value.value == value.value
  {
    match value
    case None => Err(NullPointer)
    case Some(v) => Ok(FromConstant(v))
  }

  /** Repeated `get` calls on a constant factory give the same listener, whatever receivers
      they are given. */
  lemma ConstantGetIsStable(v: Callable, instantiate: Instantiate, a: Option<Target>, b: Option<Target>)
    ensures Get(FromConstant(v), instantiate, a) == Get(FromConstant(v), instantiate, b) == Ok(v)
  {
  }
}
