/** The part of the Java runtime the event bus consults through reflection, as plain values:
    classes and interfaces, their public methods, method handles, the objects passed to
    `register`, and the listener objects the bus stores. */
module Runtime {
  import opened Common

  /** A class or interface. The numbering follows class loading, which loads every supertype
      before its subtypes, so a direct supertype always has a smaller number. */
  type TypeId = nat

  /** A `java.lang.reflect.Method`: two methods are `equals` when these fields agree. */
  datatype Method = Method(
    declaring: TypeId,
    name: string,
    params: seq<TypeId>,
    returnType: TypeId,
    isStatic: bool,
    isAbstract: bool)

  /** The loaded classes: `getSuperclass()` (absent for interfaces, primitives and Object),
      `getInterfaces()`, `isInterface()` and `getMethods()` (the public methods, inherited
      ones included). */
  datatype ClassWorld = ClassWorld(
    superclass: map<TypeId, TypeId>,
    interfaces: map<TypeId, seq<TypeId>>,
    interfaceTypes: set<TypeId>,
    methods: map<TypeId, seq<Method>>)
  {
    ghost predicate WellFormed() {
      && (forall t :: t in superclass ==> superclass[t] < t)
      && (forall t, k :: t in interfaces && 0 <= k < |interfaces[t]| ==> interfaces[t][k] < t)
    }
  }

  /** A finite hierarchy without cycles. */
  type Hierarchy = w: ClassWorld | w.WellFormed() witness ClassWorld(map[], map[], {}, map[])

  /** `Lists.asList(clazz.getSuperclass(), clazz.getInterfaces())` without the null:
      the superclass first, then the interfaces in declaration order. */
  function DirectSupertypes(h: Hierarchy, t: TypeId): (r: seq<TypeId>)
    ensures forall k :: 0 <= k < |r| ==> r[k] < t
  {
    (if t in h.superclass then [h.superclass[t]] else [])
      + (if t in h.interfaces then h.interfaces[t] else [])
  }

  /** `clazz.getMethods()`. */
  function MethodsOf(h: Hierarchy, t: TypeId): seq<Method> {
    if t in h.methods then h.methods[t] else []
  }

  predicate IsInterface(h: Hierarchy, t: TypeId) {
    t in h.interfaceTypes
  }

  /** `sup.isAssignableFrom(sub)` for class and interface types: `sup` is `sub` or is reached
      from `sub` by following superclass and interface edges. */
  predicate IsSubtype(h: Hierarchy, sub: TypeId, sup: TypeId)
    decreases sub
  {
    var ds := DirectSupertypes(h, sub);
    sub == sup || exists k :: 0 <= k < |ds| && IsSubtype(h, ds[k], sup)
  }

  predicate IsAssignableFrom(h: Hierarchy, to: TypeId, from: TypeId) {
    IsSubtype(h, from, to)
  }

  /** The relation is reflexive and transitive, and never goes downward. */
  lemma {:induction false} SubtypeTransitive(h: Hierarchy, a: TypeId, b: TypeId, c: TypeId)
    requires IsSubtype(h, a, b) && IsSubtype(h, b, c)
    ensures IsSubtype(h, a, c)
    decreases a
  {
    if a != b {
      var ds := DirectSupertypes(h, a);
      var k :| 0 <= k < |ds| && IsSubtype(h, ds[k], b);
      SubtypeTransitive(h, ds[k], b, c);
    }
  }

  lemma {:induction false} SubtypeBelow(h: Hierarchy, a: TypeId, b: TypeId)
    requires IsSubtype(h, a, b)
    ensures b <= a
    decreases a
  {
    if a != b {
      var ds := DirectSupertypes(h, a);
      var k :| 0 <= k < |ds| && IsSubtype(h, ds[k], b);
      SubtypeBelow(h, ds[k], b);
    }
  }

  /** An object handed to `register`/`unregister`: a reflected method, a class object, any
      other object (its `equals` identity and runtime class), or null. */
  datatype Target =
    | NullTarget
    | MethodTarget(m: Method)
    | ClassTarget(clazz: TypeId)
    | ObjectTarget(key: int, clazz: TypeId)

  /** A `MethodHandle` made by a factory strategy. */
  type Handle = int

  /** An `UncheckedListener`: the uniform one-argument callable a factory produces. */
  type Callable = int

  /** A listener object of the bus's listener type `L`, as the wrapper made it. */
  type Listener = int
}
