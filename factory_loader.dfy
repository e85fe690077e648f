/** The memoising factory loader shared by both factory strategies: one listener factory per
    method, built on first request. How a strategy makes its method handles (generated
    bytecode or lambda metafactory) is left abstract. */
module AbstractFactoryLoader {
  import opened Common
  import opened Runtime
  import opened ListenerFactories

  /** A factory strategy, seen from outside: `buildStatic` and `buildObject` make a method
      handle for a method or throw; `newStatic` invokes a static handle, which throws (an
      error), returns null (None) or returns a listener; `instantiate` invokes a
      receiver-taking handle. */
  datatype Strategy = Strategy(
    buildStatic: Method -> Result<Handle>,
    newStatic: Handle -> Result<Option<Callable>>,
    buildObject: Method -> Result<Handle>,
    instantiate: Instantiate)

  /** The loader's `builder`: a static method gets a constant factory whose listener is
      constructed now, once, and passed to `ListenerFactory.constant` (a construction that
      throws is a state error, one that yields null a null pointer); an instance method gets
      a factory that binds a receiver on every `get`. Failures of the strategy's own build
      step propagate unchanged. */
  function Build(s: Strategy, m: Method): (r: Result<ListenerFactory>)
    ensures r.Ok? ==> (r.value.FromConstant? <==> m.isStatic)
    ensures m.isStatic && s.buildStatic(m).Ok? && s.newStatic(s.buildStatic(m).value).Err? ==>
      r == Err(IllegalState)
    ensures m.isStatic && s.buildStatic(m).Ok? && s.newStatic(s.buildStatic(m).value) == Ok(None) ==>
      r == Err(NullPointer)
    ensures m.isStatic && s.buildStatic(m).Ok? && s.newStatic(s.buildStatic(m).value).Ok? &&
            s.newStatic(s.buildStatic(m).value).value.Some? ==>
      r == Ok(FromConstant(s.newStatic(s.buildStatic(m).value).value.value))
    ensures m.isStatic && s.buildStatic(m).Err? ==> r == Err(s.buildStatic(m).error)
    ensures !m.isStatic ==>
      r == match s.buildObject(m) case Ok(h) => Ok(ObjectListenerFactory(h)) case Err(e) => Err(e)
  {
    if m.isStatic then
      match s.buildStatic(m)
      case Err(e) => Err(e)
      case Ok(h) =>
        match s.newStatic(h)
        case Err(_) => Err(IllegalState)
        case Ok(c) => Constant(c)
    else
      match s.buildObject(m)
      case Err(e) => Err(e)
      case Ok(h) => Ok(ObjectListenerFactory(h))
  }

  /** The listener a built static factory hands out is the same for every receiver: the one
      constructed when the factory was built. */
  lemma StaticFactoryIsConstant(s: Strategy, m: Method, a: Option<Target>, b: Option<Target>)
    requires m.isStatic && Build(s, m).Ok?
    ensures Get(Build(s, m).value, s.instantiate, a) == Get(Build(s, m).value, s.instantiate, b)
    ensures Get(Build(s, m).value, s.instantiate, a) == Ok(s.newStatic(s.buildStatic(m).value).value.value)
  {
  }

  class AbstractFactoryLoader {
    const strategy: Strategy
    var cache: map<Method, ListenerFactory>
    /** Every build the loader has started, in order. */
    ghost var builds: seq<Method>

    /** Every cached factory is the one its method builds, and a method is built a second
        time only if its earlier build failed (failures are not cached). */
    ghost predicate Valid()
      reads this
    {
      && (forall m :: m in cache ==> Build(strategy, m) == Ok(cache[m]))
      && (forall i :: 0 <= i < |builds| && Build(strategy, builds[i]).Ok? ==> builds[i] in cache)
      && (forall i, j :: 0 <= i < j < |builds| && builds[i] == builds[j] ==> Build(strategy, builds[i]).Err?)
    }

    constructor (strategy: Strategy)
      ensures Valid()
      ensures this.strategy == strategy && cache == map[] && builds == []
    {
      this.strategy := strategy;
      cache := map[];
      builds := [];
    }

    /** `get(method)`: `cache.computeIfAbsent(method, builder)`. */
    method Get(m: Method) returns (r: Result<ListenerFactory>)
      requires Valid()
      modifies this
      ensures Valid()
      ensures r == Build(strategy, m)
      ensures m in old(cache) ==> cache == old(cache) && builds == old(builds)
      ensures m !in old(cache) ==> builds == old(builds) + [m]
      ensures m !in old(cache) ==> cache == if r.Ok? then old(cache)[m := r.value] else old(cache)
    {
      if m in cache {
        return Ok(cache[m]);
      }
      r := Build(strategy, m);
      builds := builds + [m];
      if r.Ok? {
        cache := cache[m := r.value];
      }
    }
  }
}
