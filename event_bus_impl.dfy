/** The event bus: listener lists created on demand per event type, registration of the
    listener methods of a target, and removal of everything a target registered. */
module EventBusImpl {
  import opened Common
  import opened Runtime
  import opened ListenerFactories
  import opened AbstractFactoryLoader
  import opened ListenerWrapper
  import opened ListenerList

  /* ---------------------------------------------------------------------------------
     Supertypes and supermethods
     --------------------------------------------------------------------------------- */

  /** The direct supertypes of `t` (superclass first, then interfaces) that `keep` accepts. */
  function KeptDirectSupertypes(h: Hierarchy, keep: TypeId -> bool, t: TypeId): (r: seq<TypeId>)
    ensures forall k :: 0 <= k < |r| ==> r[k] < t
  {
    Filter<TypeId>(DirectSupertypes(h, t), keep)
  }

  /** The supertypes reached from `t` through direct supertypes that `keep` accepts: those
      direct supertypes, then the ones reached from each of them in turn, first occurrences
      kept. */
  function Ancestors(h: Hierarchy, keep: TypeId -> bool, t: TypeId): seq<TypeId>
    decreases t, 1
  {
    var ds := KeptDirectSupertypes(h, keep, t);
    Distinct<TypeId>(ds + AncestorsOfAll(h, keep, t, ds))
  }

  /** `Ancestors` of each of `ds`, concatenated in order. */
  function AncestorsOfAll(h: Hierarchy, keep: TypeId -> bool, bound: TypeId, ds: seq<TypeId>): seq<TypeId>
    requires forall k :: 0 <= k < |ds| ==> ds[k] < bound
    decreases bound, 0, |ds|
  {
    if ds == [] then []
    else AncestorsOfAll(h, keep, bound, ds[..|ds| - 1]) + Ancestors(h, keep, ds[|ds| - 1])
  }

  predicate AnyType(t: TypeId) {
    true
  }

  /** `supertypesCache`: every proper supertype of `t`, nearest first. */
  function Supertypes(h: Hierarchy, t: TypeId): seq<TypeId> {
    Ancestors(h, AnyType, t)
  }

  function AssignableTo(h: Hierarchy, baseType: TypeId): TypeId -> bool {
    (t: TypeId) => IsAssignableFrom(h, baseType, t)
  }

  /** The supertypes whose listeners an event of type `t` also reaches: the `supers` of its
      listener list, built from the direct supertypes assignable to the base type. */
  function ListSupertypes(h: Hierarchy, baseType: TypeId, t: TypeId): seq<TypeId> {
    Ancestors(h, AssignableTo(h, baseType), t)
  }

  /** Keeping every direct supertype keeps them all. */
  lemma KeepAllDirectSupertypes(h: Hierarchy, t: TypeId)
    ensures KeptDirectSupertypes(h, AnyType, t) == DirectSupertypes(h, t)
  {
    FilterMembers<TypeId>(DirectSupertypes(h, t), AnyType);
  }

  /** `Supertypes` holds exactly the proper supertypes. */
  lemma {:induction false} SupertypeMember(h: Hierarchy, t: TypeId, x: TypeId)
    ensures x in Supertypes(h, t) <==> x != t && IsSubtype(h, t, x)
    decreases t, 1
  {
    SupertypesSplit(h, t, x);
    SupertypesOfAllMember(h, t, DirectSupertypes(h, t), x);
    ProperSubtypeStep(h, t, x);
  }

  /** `Supertypes` of `t` are its direct supertypes and the ones above them. */
  lemma SupertypesSplit(h: Hierarchy, t: TypeId, x: TypeId)
    ensures x in Supertypes(h, t) <==>
      x in DirectSupertypes(h, t) || x in AncestorsOfAll(h, AnyType, t, DirectSupertypes(h, t))
  {
    KeepAllDirectSupertypes(h, t);
    DistinctMembers(DirectSupertypes(h, t) + AncestorsOfAll(h, AnyType, t, DirectSupertypes(h, t)));
  }

  /** A proper supertype of `t` is a direct supertype or a proper supertype of one. */
  lemma ProperSubtypeStep(h: Hierarchy, t: TypeId, x: TypeId)
    ensures x != t && IsSubtype(h, t, x) <==> x in DirectSupertypes(h, t) || ReachedFrom(h, DirectSupertypes(h, t), x)
  {
    var ds := DirectSupertypes(h, t);
    if x in ds {
      var k :| 0 <= k < |ds| && ds[k] == x;
      assert IsSubtype(h, ds[k], x);
    }
    if ReachedFrom(h, ds, x) {
      var k :| 0 <= k < |ds| && x != ds[k] && IsSubtype(h, ds[k], x);
      SubtypeBelow(h, ds[k], x);
    }
    if x != t && IsSubtype(h, t, x) {
      var k :| 0 <= k < |ds| && IsSubtype(h, ds[k], x);
      assert ds[k] == x ==> x in ds;
    }
  }

  /** Some type of `ds` has `x` as a proper supertype. */
  ghost predicate ReachedFrom(h: Hierarchy, ds: seq<TypeId>, x: TypeId) {
    exists k :: 0 <= k < |ds| && x != ds[k] && IsSubtype(h, ds[k], x)
  }

  lemma ReachedFromSplit(h: Hierarchy, ds: seq<TypeId>, x: TypeId)
    requires ds != []
    ensures ReachedFrom(h, ds, x) <==>
      ReachedFrom(h, ds[..|ds| - 1], x) || (x != ds[|ds| - 1] && IsSubtype(h, ds[|ds| - 1], x))
  {
    var ds' := ds[..|ds| - 1];
    if ReachedFrom(h, ds, x) {
      var k :| 0 <= k < |ds| && x != ds[k] && IsSubtype(h, ds[k], x);
      if k < |ds'| {
        assert ds'[k] == ds[k];
      }
    }
    if ReachedFrom(h, ds', x) {
      var k :| 0 <= k < |ds'| && x != ds'[k] && IsSubtype(h, ds'[k], x);
      assert ds[k] == ds'[k];
    }
  }

  lemma {:induction false} SupertypesOfAllMember(h: Hierarchy, bound: TypeId, ds: seq<TypeId>, x: TypeId)
    requires forall k :: 0 <= k < |ds| ==> ds[k] < bound
    ensures x in AncestorsOfAll(h, AnyType, bound, ds) <==> ReachedFrom(h, ds, x)
    decreases bound, 0, |ds|
  {
    if ds != [] {
      SupertypesOfAllMember(h, bound, ds[..|ds| - 1], x);
      SupertypeMember(h, ds[|ds| - 1], x);
      ReachedFromSplit(h, ds, x);
    }
  }

  /** A type that is not assignable to the base type has no supertype that is. */
  lemma NoAssignableAbove(h: Hierarchy, baseType: TypeId, d: TypeId)
    requires !IsAssignableFrom(h, baseType, d)
    ensures Filter<TypeId>(Supertypes(h, d), AssignableTo(h, baseType)) == []
  {
    var s := Supertypes(h, d);
    var f := Filter<TypeId>(s, AssignableTo(h, baseType));
    FilterMembers<TypeId>(s, AssignableTo(h, baseType));
    if f != [] {
      var x := f[0];
      assert x in f;
      SupertypeMember(h, d, x);
      SubtypeTransitive(h, d, x, baseType);
    }
  }

  /** Building the list supertypes level by level, keeping only direct supertypes assignable
      to the base type, yields the assignable supertypes of `supertypesCache`, in the same
      order: an assignable supertype is never reached only through an unassignable one. */
  lemma {:induction false} ListSupertypesAreAssignableSupertypes(h: Hierarchy, baseType: TypeId, t: TypeId)
    ensures ListSupertypes(h, baseType, t) == Filter<TypeId>(Supertypes(h, t), AssignableTo(h, baseType))
    decreases t, 1
  {
    var keep := AssignableTo(h, baseType);
    var ds := DirectSupertypes(h, t);
    FilterMembers<TypeId>(ds, AnyType);
    assert KeptDirectSupertypes(h, AnyType, t) == ds;
    var all := AncestorsOfAll(h, AnyType, t, ds);
    FilterDistinct<TypeId>(ds + all, keep);
    FilterAppend<TypeId>(ds, all, keep);
    FilteredAncestorsOfAll(h, baseType, t, ds);
  }

  lemma {:induction false} FilteredAncestorsOfAll(h: Hierarchy, baseType: TypeId, bound: TypeId, ds: seq<TypeId>)
    requires forall k :: 0 <= k < |ds| ==> ds[k] < bound
    ensures forall k :: 0 <= k < |Filter<TypeId>(ds, AssignableTo(h, baseType))| ==>
      Filter<TypeId>(ds, AssignableTo(h, baseType))[k] < bound
    ensures Filter<TypeId>(AncestorsOfAll(h, AnyType, bound, ds), AssignableTo(h, baseType)) ==
      AncestorsOfAll(h, AssignableTo(h, baseType), bound, Filter<TypeId>(ds, AssignableTo(h, baseType)))
    decreases bound, 0, |ds|
  {
    var keep := AssignableTo(h, baseType);
    FilterBelow(ds, keep, bound);
    if ds != [] {
      var ds', d := ds[..|ds| - 1], ds[|ds| - 1];
      FilteredAncestorsOfAll(h, baseType, bound, ds');
      var above' := AncestorsOfAll(h, AnyType, bound, ds');
      assert AncestorsOfAll(h, AnyType, bound, ds) == above' + Supertypes(h, d);
      FilterAppend<TypeId>(above', Supertypes(h, d), keep);
      if keep(d) {
        ListSupertypesAreAssignableSupertypes(h, baseType, d);
      }
      FilteredAncestorsStep(h, baseType, bound, ds, ds');
    }
  }

  /** Filtering the last of `ds` contributes its assignable supertypes, or nothing. */
  lemma FilteredAncestorsStep(h: Hierarchy, baseType: TypeId, bound: TypeId, ds: seq<TypeId>, ds': seq<TypeId>)
    requires ds != [] && ds' == ds[..|ds| - 1] && forall k :: 0 <= k < |ds| ==> ds[k] < bound
    requires IsAssignableFrom(h, baseType, ds[|ds| - 1]) ==>
      ListSupertypes(h, baseType, ds[|ds| - 1]) == Filter<TypeId>(Supertypes(h, ds[|ds| - 1]), AssignableTo(h, baseType))
    ensures forall k :: 0 <= k < |Filter<TypeId>(ds, AssignableTo(h, baseType))| ==>
      Filter<TypeId>(ds, AssignableTo(h, baseType))[k] < bound
    ensures forall k :: 0 <= k < |Filter<TypeId>(ds', AssignableTo(h, baseType))| ==>
      Filter<TypeId>(ds', AssignableTo(h, baseType))[k] < bound
    ensures AncestorsOfAll(h, AssignableTo(h, baseType), bound, Filter<TypeId>(ds, AssignableTo(h, baseType))) ==
      AncestorsOfAll(h, AssignableTo(h, baseType), bound, Filter<TypeId>(ds', AssignableTo(h, baseType)))
        + Filter<TypeId>(Supertypes(h, ds[|ds| - 1]), AssignableTo(h, baseType))
  {
    var keep := AssignableTo(h, baseType);
    var d := ds[|ds| - 1];
    var f, f' := Filter<TypeId>(ds, keep), Filter<TypeId>(ds', keep);
    FilterBelow(ds, keep, bound);
    FilterBelow(ds', keep, bound);
    if keep(d) {
      assert f == f' + [d];
      assert f[..|f| - 1] == f';
    } else {
      NoAssignableAbove(h, baseType, d);
      assert f == f';
    }
  }

  lemma FilterBelow(ds: seq<TypeId>, keep: TypeId -> bool, bound: TypeId)
    requires forall k :: 0 <= k < |ds| ==> ds[k] < bound
    ensures forall k :: 0 <= k < |Filter<TypeId>(ds, keep)| ==> Filter<TypeId>(ds, keep)[k] < bound
  {
    var f := Filter<TypeId>(ds, keep);
    FilterHas<TypeId>(ds, keep);
    forall k | 0 <= k < |f|
      ensures f[k] < bound
    {
      assert f[k] in ds;
    }
  }

  /** `getMethods()` of each of `ts`, concatenated in order. */
  function MethodsOfAll(h: Hierarchy, ts: seq<TypeId>): seq<Method> {
    if ts == [] then [] else MethodsOfAll(h, ts[..|ts| - 1]) + MethodsOf(h, ts[|ts| - 1])
  }

  lemma {:induction false} MethodsOfAllMember(h: Hierarchy, ts: seq<TypeId>, x: Method)
    ensures x in MethodsOfAll(h, ts) <==> exists s :: s in ts && x in MethodsOf(h, s)
  {
    if ts != [] {
      var ts' := ts[..|ts| - 1];
      MethodsOfAllMember(h, ts', x);
      assert forall s :: s in ts <==> s in ts' || s == ts[|ts| - 1];
    }
  }

  /** Same name, same parameter types and same static-ness. */
  predicate SameSignature(m: Method, other: Method) {
    other.name == m.name && other.params == m.params && other.isStatic == m.isStatic
  }

  function SignatureOf(m: Method): Method -> bool {
    other => SameSignature(m, other)
  }

  /** `supermethodsCache`: the methods of the supertypes of the declaring class that have
      the method's signature, each once. */
  function Supermethods(h: Hierarchy, m: Method): seq<Method> {
    Distinct(Filter(MethodsOfAll(h, Supertypes(h, m.declaring)), SignatureOf(m)))
  }

  /** A supermethod is exactly a method with the same signature that a proper supertype of
      the declaring class lists; each appears once. */
  lemma SupermethodMember(h: Hierarchy, m: Method, x: Method)
    ensures x in Supermethods(h, m) <==>
      SameSignature(m, x) && exists s :: s != m.declaring && IsSubtype(h, m.declaring, s) && x in MethodsOf(h, s)
    ensures NoDup(Supermethods(h, m))
  {
    var sups := Supertypes(h, m.declaring);
    var all := MethodsOfAll(h, sups);
    DistinctMembers(Filter(all, SignatureOf(m)));
    FilterMembers(all, SignatureOf(m));
    MethodsOfAllMember(h, sups, x);
    if x in all {
      var s :| s in sups && x in MethodsOf(h, s);
      SupertypeMember(h, m.declaring, s);
    }
    if exists s :: s != m.declaring && IsSubtype(h, m.declaring, s) && x in MethodsOf(h, s) {
      var s :| s != m.declaring && IsSubtype(h, m.declaring, s) && x in MethodsOf(h, s);
      SupertypeMember(h, m.declaring, s);
    }
  }

  /* ---------------------------------------------------------------------------------
     Listener methods and what registering them contributes
     --------------------------------------------------------------------------------- */

  /** `getListenerType`: the parameter type of a one-parameter method whose parameter is
      assignable to the base type. */
  function ListenerType(h: Hierarchy, baseType: TypeId, m: Method): (r: Option<TypeId>)
    ensures r.Some? <==> |m.params| == 1 && IsAssignableFrom(h, baseType, m.params[0])
    ensures r.Some? ==> r.value == m.params[0]
  {
    if |m.params| == 1 && IsAssignableFrom(h, baseType, m.params[0]) then Some(m.params[0]) else None
  }

  /** What a bus is made of, apart from its state. */
  datatype Config = Config(world: Hierarchy, baseType: TypeId, wrapper: ListenerWrapper, strategy: Strategy)

  /** How a target's methods are processed: as static listeners (a `Method` or `Class`
      target), or as instance listeners bound to the target (any other object). */
  datatype Mode = StaticMode | BoundMode(receiver: Target)

  predicate Processes(mode: Mode, m: Method) {
    if mode.StaticMode? then m.isStatic else !m.isStatic
  }

  function ProcessedBy(mode: Mode): Method -> bool {
    m => Processes(mode, m)
  }

  /** An addition to a listener list: the event type and the listener. */
  type Addition = (TypeId, Listener)

  /** What one method contributes, as `buildStaticListeners` / `buildObjectListeners` handle
      it: nothing when it is of the other kind, is not a listener method or is declined by
      the wrapper; otherwise its wrapped listener, to be added to the list of its event type.
      Making the factory or the listener may fail, and so may the wrapper; the failure stops
      the registration. */
  function Contribution(cfg: Config, mode: Mode, m: Method): Result<Option<Addition>> {
    if !Processes(mode, m) then Ok(None)
    else match ListenerType(cfg.world, cfg.baseType, m)
      case None => Ok(None)
      case Some(t) =>
        match Build(cfg.strategy, m)
        case Err(e) => Err(e)
        case Ok(f) =>
          var receiver := if mode.StaticMode? then None else Some(mode.receiver);
          match Get(f, cfg.strategy.instantiate, receiver)
          case Err(e) => Err(e)
          case Ok(c) =>
            var wrapped :=
              if mode.StaticMode? then cfg.wrapper.wrapStatic(t, c, m)
              else cfg.wrapper.wrapObject(t, c, m, mode.receiver, Supermethods(cfg.world, m));
            match wrapped
            case Err(e) => Err(e)
            case Ok(None) => Ok(None)
            case Ok(Some(l)) => Ok(Some((t, l)))
  }

  /** The outcome of processing a sequence of methods in order: the additions made, and the
      failure that stopped the processing, if one did. */
  datatype Registration = Registration(adds: seq<Addition>, failure: Option<Error>)

  function Contributions(cfg: Config, mode: Mode, ms: seq<Method>): Registration {
    if ms == [] then Registration([], None)
    else
      var prev := Contributions(cfg, mode, ms[..|ms| - 1]);
      if prev.failure.Some? then prev
      else match Contribution(cfg, mode, ms[|ms| - 1])
        case Err(e) => Registration(prev.adds, Some(e))
        case Ok(None) => prev
        case Ok(Some(a)) => Registration(prev.adds + [a], None)
  }

  /** The listeners of a sequence of additions, in order: a target's record. */
  function ListenersOf(adds: seq<Addition>): seq<Listener> {
    if adds == [] then [] else ListenersOf(adds[..|adds| - 1]) + [adds[|adds| - 1].1]
  }

  /** The listeners of a sequence of additions that go to type `t`, in order. */
  function ListenersFor(adds: seq<Addition>, t: TypeId): seq<Listener> {
    if adds == [] then []
    else ListenersFor(adds[..|adds| - 1], t) + (if adds[|adds| - 1].0 == t then [adds[|adds| - 1].1] else [])
  }

  /** Every listener of the record went to exactly one list, and every listener added to a
      list is in the record. */
  lemma {:induction false} ListenersForMember(adds: seq<Addition>, t: TypeId, l: Listener)
    ensures l in ListenersFor(adds, t) <==> (t, l) in adds
    ensures l in ListenersOf(adds) <==> exists u :: (u, l) in adds
  {
    if adds != [] {
      var adds' := adds[..|adds| - 1];
      ListenersForMember(adds', t, l);
      assert adds == adds' + [adds[|adds| - 1]];
      assert forall a :: a in adds <==> a in adds' || a == adds[|adds| - 1];
      if exists u :: (u, l) in adds {
        var u :| (u, l) in adds;
        if (u, l) in adds' {
          assert exists u :: (u, l) in adds';
        }
      }
    }
  }

  /** A target's methods of the other kind play no part: a `Method` or `Class` target
      contributes only through static methods, any other target only through instance
      methods. */
  lemma {:induction false} OnlyProcessedMethodsCount(cfg: Config, mode: Mode, ms: seq<Method>)
    ensures Contributions(cfg, mode, ms) == Contributions(cfg, mode, Filter(ms, ProcessedBy(mode)))
  {
    if ms != [] {
      var ms', m := ms[..|ms| - 1], ms[|ms| - 1];
      OnlyProcessedMethodsCount(cfg, mode, ms');
      var f := Filter(ms, ProcessedBy(mode));
      if Processes(mode, m) {
        assert f == Filter(ms', ProcessedBy(mode)) + [m];
        assert f[..|f| - 1] == Filter(ms', ProcessedBy(mode));
      } else {
        assert !ProcessedBy(mode)(m);
        assert f == Filter(ms', ProcessedBy(mode));
      }
    }
  }

  /** Listeners only ever go to lists of types assignable to the base type, each being the
      parameter type of the method it came from. */
  lemma {:induction false} AdditionsAreListenerTypes(cfg: Config, mode: Mode, ms: seq<Method>)
    ensures forall a :: a in Contributions(cfg, mode, ms).adds ==>
      IsAssignableFrom(cfg.world, cfg.baseType, a.0) &&
      exists m :: m in ms && Processes(mode, m) && m.params == [a.0]
  {
    if ms != [] {
      var ms', m := ms[..|ms| - 1], ms[|ms| - 1];
      AdditionsAreListenerTypes(cfg, mode, ms');
      assert forall x :: x in ms' ==> x in ms;
      assert m in ms;
    }
  }

  /* ---------------------------------------------------------------------------------
     How the listener lists of a bus mirror the type hierarchy
     --------------------------------------------------------------------------------- */

  /** The direct supertypes of `t` whose lists the list of `t` is built from. */
  function ListDirectSupertypes(h: Hierarchy, baseType: TypeId, t: TypeId): (r: seq<TypeId>)
    ensures forall k :: 0 <= k < |r| ==> r[k] < t && IsAssignableFrom(h, baseType, r[k])
  {
    var r := KeptDirectSupertypes(h, AssignableTo(h, baseType), t);
    FilterMembers<TypeId>(DirectSupertypes(h, t), AssignableTo(h, baseType));
    assert forall k :: 0 <= k < |r| ==> r[k] in r;
    r
  }

  /** Each materialised type is assignable to the base type and has a node whose `supers`
      are the nodes of its list supertypes, all of them materialised too. */
  ghost predicate ListsLinked(h: Hierarchy, baseType: TypeId, lists: map<TypeId, nat>, supers: seq<seq<nat>>) {
    && (forall t :: t in lists ==> lists[t] < |supers|)
    && (forall t {:trigger LinkedAt(h, baseType, lists, supers, t)} :: t in lists ==> LinkedAt(h, baseType, lists, supers, t))
  }

  /** `t` is assignable to the base type and its node has, as `supers`, the nodes of the
      list supertypes of `t`. */
  ghost predicate LinkedAt(h: Hierarchy, baseType: TypeId, lists: map<TypeId, nat>, supers: seq<seq<nat>>, t: TypeId) {
    && t in lists && lists[t] < |supers|
    && IsAssignableFrom(h, baseType, t)
    && (forall k :: 0 <= k < |ListSupertypes(h, baseType, t)| ==> ListSupertypes(h, baseType, t)[k] in lists)
    && supers[lists[t]] == Lookup(lists, ListSupertypes(h, baseType, t))
  }

  /** The ancestors' `supers` of materialised direct supertypes are the nodes of their list
      supertypes, concatenated. */
  lemma {:induction false} GatherLinked(
    h: Hierarchy, baseType: TypeId, lists: map<TypeId, nat>, supers: seq<seq<nat>>, bound: TypeId, ds: seq<TypeId>)
    requires ListsLinked(h, baseType, lists, supers)
    requires forall k :: 0 <= k < |ds| ==> ds[k] < bound && ds[k] in lists
    ensures forall k :: 0 <= k < |ds| ==> Lookup(lists, ds)[k] < |supers|
    ensures forall k :: 0 <= k < |AncestorsOfAll(h, AssignableTo(h, baseType), bound, ds)| ==>
      AncestorsOfAll(h, AssignableTo(h, baseType), bound, ds)[k] in lists
    ensures Gather(supers, Lookup(lists, ds)) == Lookup(lists, AncestorsOfAll(h, AssignableTo(h, baseType), bound, ds))
  {
    var keep := AssignableTo(h, baseType);
    if ds != [] {
      var ds', d := ds[..|ds| - 1], ds[|ds| - 1];
      GatherLinked(h, baseType, lists, supers, bound, ds');
      var ids := Lookup(lists, ds);
      assert ids[..|ids| - 1] == Lookup(lists, ds');
      var above' := AncestorsOfAll(h, keep, bound, ds');
      assert LinkedAt(h, baseType, lists, supers, d);
      assert AncestorsOfAll(h, keep, bound, ds) == above' + ListSupertypes(h, baseType, d);
      assert Lookup(lists, above' + ListSupertypes(h, baseType, d)) ==
        Lookup(lists, above') + Lookup(lists, ListSupertypes(h, baseType, d));
    }
  }

  /** The node built for a new type from the nodes of its direct list supertypes gets, as
      `supers`, the nodes of all its list supertypes, each of them already materialised. */
  lemma NewListSupers(h: Hierarchy, baseType: TypeId, lists: map<TypeId, nat>, supers: seq<seq<nat>>, t: TypeId)
    requires ListsLinked(h, baseType, lists, supers) && Injective(lists)
    requires forall k :: 0 <= k < |ListDirectSupertypes(h, baseType, t)| ==> ListDirectSupertypes(h, baseType, t)[k] in lists
    ensures forall k :: 0 <= k < |ListSupertypes(h, baseType, t)| ==> ListSupertypes(h, baseType, t)[k] in lists
    ensures forall k :: 0 <= k < |ListDirectSupertypes(h, baseType, t)| ==>
      Lookup(lists, ListDirectSupertypes(h, baseType, t))[k] < |supers|
    ensures ClosureOf(supers, Lookup(lists, ListDirectSupertypes(h, baseType, t))) ==
      Lookup(lists, ListSupertypes(h, baseType, t))
  {
    var keep := AssignableTo(h, baseType);
    var ds := ListDirectSupertypes(h, baseType, t);
    GatherLinked(h, baseType, lists, supers, t, ds);
    var above := AncestorsOfAll(h, keep, t, ds);
    ClosureOfLookup(lists, supers, ds, above);
    assert ListSupertypes(h, baseType, t) == Distinct<TypeId>(ds + above);
  }

  /** Closing the nodes of `ds` over `supers`, when the nodes above them are those of
      `above`, gives the nodes of `ds` and `above` without repeats. */
  lemma ClosureOfLookup(lists: map<TypeId, nat>, supers: seq<seq<nat>>, ds: seq<TypeId>, above: seq<TypeId>)
    requires Injective(lists)
    requires forall k :: 0 <= k < |ds| ==> ds[k] in lists && lists[ds[k]] < |supers|
    requires forall k :: 0 <= k < |above| ==> above[k] in lists
    requires Gather(supers, Lookup(lists, ds)) == Lookup(lists, above)
    ensures forall k :: 0 <= k < |Distinct<TypeId>(ds + above)| ==> Distinct<TypeId>(ds + above)[k] in lists
    ensures ClosureOf(supers, Lookup(lists, ds)) == Lookup(lists, Distinct<TypeId>(ds + above))
  {
    var direct := Lookup(lists, ds);
    LookupConcat(lists, ds, above);
    assert direct + Gather(supers, direct) == Lookup(lists, ds + above);
    DistinctLookup(lists, ds + above);
  }

  /** Adding the node of a new type keeps every type linked. */
  lemma LinkedExtend(h: Hierarchy, baseType: TypeId, lists: map<TypeId, nat>, supers: seq<seq<nat>>, t: TypeId, c: seq<nat>)
    requires ListsLinked(h, baseType, lists, supers) && t !in lists && IsAssignableFrom(h, baseType, t)
    requires forall k :: 0 <= k < |ListSupertypes(h, baseType, t)| ==> ListSupertypes(h, baseType, t)[k] in lists
    requires c == Lookup(lists, ListSupertypes(h, baseType, t))
    ensures ListsLinked(h, baseType, lists[t := |supers|], supers + [c])
  {
    var lists', supers' := lists[t := |supers|], supers + [c];
    forall s | s in lists'
      ensures LinkedAt(h, baseType, lists', supers', s)
    {
      var ls := ListSupertypes(h, baseType, s);
      if s == t {
        assert Lookup(lists', ls) == Lookup(lists, ls);
      } else {
        assert LinkedAt(h, baseType, lists, supers, s);
        assert supers'[lists'[s]] == supers[lists[s]];
        assert Lookup(lists', ls) == Lookup(lists, ls);
      }
    }
  }

  /** A key mapped to a fresh index keeps a map injective. */
  lemma InjectiveExtend(lists: map<TypeId, nat>, t: TypeId, n: nat)
    requires Injective(lists) && t !in lists
    requires forall s :: s in lists ==> lists[s] < n
    ensures Injective(lists[t := n])
  {
  }

  /** From (`lists0`, `listeners0`) to (`lists1`, `listeners1`) the lists only grew: old
      nodes keep their listeners, new nodes are empty, old types keep their nodes, and each
      new type is below `bound` and has a new node. */
  ghost predicate Grown(lists0: map<TypeId, nat>, listeners0: seq<seq<Listener>>,
                        lists1: map<TypeId, nat>, listeners1: seq<seq<Listener>>, bound: TypeId) {
    && |listeners0| <= |listeners1|
    && (forall i :: 0 <= i < |listeners0| ==> listeners1[i] == listeners0[i])
    && (forall i :: |listeners0| <= i < |listeners1| ==> listeners1[i] == [])
    && (forall s :: s in lists0 ==> s in lists1 && lists1[s] == lists0[s])
    && (forall s :: s in lists1 && s !in lists0 ==> s < bound && lists1[s] >= |listeners0|)
  }

  lemma GrownTrans(lists0: map<TypeId, nat>, listeners0: seq<seq<Listener>>,
                   lists1: map<TypeId, nat>, listeners1: seq<seq<Listener>>,
                   lists2: map<TypeId, nat>, listeners2: seq<seq<Listener>>, b1: TypeId, b2: TypeId)
    requires Grown(lists0, listeners0, lists1, listeners1, b2)
    requires Grown(lists1, listeners1, lists2, listeners2, b1) && b1 <= b2
    ensures Grown(lists0, listeners0, lists2, listeners2, b2)
  {
  }

  /** One step of collecting the lists of `ds`: the list obtained for `ds[i]` joins the
      ones collected so far, which the growth kept. */
  lemma DirectStep(lists0: map<TypeId, nat>, listeners0: seq<seq<Listener>>,
                   lists1: map<TypeId, nat>, listeners1: seq<seq<Listener>>,
                   lists2: map<TypeId, nat>, listeners2: seq<seq<Listener>>,
                   bound: TypeId, ds: seq<TypeId>, i: nat, direct: seq<nat>, d: nat)
    requires i < |ds| && ds[i] < bound && |direct| == i
    requires Grown(lists0, listeners0, lists1, listeners1, bound)
    requires Grown(lists1, listeners1, lists2, listeners2, ds[i] + 1)
    requires forall k :: 0 <= k < i ==> ds[k] in lists1 && direct[k] == lists1[ds[k]]
    requires ds[i] in lists2 && d == lists2[ds[i]]
    ensures Grown(lists0, listeners0, lists2, listeners2, bound)
    ensures forall k :: 0 <= k < i + 1 ==> ds[k] in lists2 && (direct + [d])[k] == lists2[ds[k]]
  {
    GrownTrans(lists0, listeners0, lists1, listeners1, lists2, listeners2, ds[i] + 1, bound);
  }

  /** Every type that has a list in `lists1` but had none in `lists0` is a supertype of `t`:
      materialising the list of `t` creates lists for `t` and its supertypes only. */
  ghost predicate NewKeysAbove(h: Hierarchy, lists0: map<TypeId, nat>, lists1: map<TypeId, nat>, t: TypeId) {
    forall s :: s in lists1 && s !in lists0 ==> IsSubtype(h, t, s)
  }

  /** A direct list supertype of `t` is a supertype of `t`. */
  lemma ListDirectIsSubtype(h: Hierarchy, baseType: TypeId, t: TypeId, k: nat)
    requires k < |ListDirectSupertypes(h, baseType, t)|
    ensures IsSubtype(h, t, ListDirectSupertypes(h, baseType, t)[k])
  {
    var ds, r := DirectSupertypes(h, t), ListDirectSupertypes(h, baseType, t);
    FilterMembers<TypeId>(ds, AssignableTo(h, baseType));
    assert r[k] in ds;
    var j :| 0 <= j < |ds| && ds[j] == r[k];
    assert IsSubtype(h, ds[j], r[k]);
  }

  /** One step of collecting the direct list supertypes of `t`: what the list of the `k`-th
      one created is above it, hence above `t`. */
  lemma NewKeysStep(h: Hierarchy, baseType: TypeId, t: TypeId, k: nat,
                    lists0: map<TypeId, nat>, lists1: map<TypeId, nat>, lists2: map<TypeId, nat>)
    requires k < |ListDirectSupertypes(h, baseType, t)|
    requires NewKeysAbove(h, lists0, lists1, t)
    requires NewKeysAbove(h, lists1, lists2, ListDirectSupertypes(h, baseType, t)[k])
    ensures NewKeysAbove(h, lists0, lists2, t)
  {
    var d := ListDirectSupertypes(h, baseType, t)[k];
    ListDirectIsSubtype(h, baseType, t, k);
    forall s | s in lists2 && s !in lists0
      ensures IsSubtype(h, t, s)
    {
      if s !in lists1 {
        SubtypeTransitive(h, t, d, s);
      }
    }
  }

  /** Storing the list of `t` itself keeps every new key above `t`. */
  lemma NewKeysStore(h: Hierarchy, t: TypeId, n: nat, lists0: map<TypeId, nat>, lists1: map<TypeId, nat>)
    requires NewKeysAbove(h, lists0, lists1, t)
    ensures NewKeysAbove(h, lists0, lists1[t := n], t)
  {
    assert IsSubtype(h, t, t);
  }

  /** Growing the lists changes no type's own listeners. */
  lemma GrownKeepsOwn(lists0: map<TypeId, nat>, listeners0: seq<seq<Listener>>,
                      lists1: map<TypeId, nat>, listeners1: seq<seq<Listener>>, bound: TypeId)
    requires Grown(lists0, listeners0, lists1, listeners1, bound)
    ensures OwnGrew(lists0, listeners0, lists1, listeners1, [])
  {
    forall s
      ensures OwnGrewAt(lists0, listeners0, lists1, listeners1, [], s)
    {
      assert OwnListeners(lists1, listeners1, s) == OwnListeners(lists0, listeners0, s);
    }
  }

  /** From (`lists0`, `listeners0`) to (`lists1`, `listeners1`) each type's own listeners
      gained exactly the listeners of `adds` that went to it, in order. */
  ghost predicate OwnGrew(lists0: map<TypeId, nat>, listeners0: seq<seq<Listener>>,
                          lists1: map<TypeId, nat>, listeners1: seq<seq<Listener>>, adds: seq<Addition>) {
    forall t {:trigger OwnGrewAt(lists0, listeners0, lists1, listeners1, adds, t)} ::
      OwnGrewAt(lists0, listeners0, lists1, listeners1, adds, t)
  }

  ghost predicate OwnGrewAt(lists0: map<TypeId, nat>, listeners0: seq<seq<Listener>>,
                            lists1: map<TypeId, nat>, listeners1: seq<seq<Listener>>, adds: seq<Addition>, t: TypeId) {
    OwnListeners(lists1, listeners1, t) == OwnListeners(lists0, listeners0, t) + ListenersFor(adds, t)
  }

  /** `OwnGrew`, type by type. */
  lemma OwnGrewAll(lists0: map<TypeId, nat>, listeners0: seq<seq<Listener>>,
                   lists1: map<TypeId, nat>, listeners1: seq<seq<Listener>>, adds: seq<Addition>)
    requires OwnGrew(lists0, listeners0, lists1, listeners1, adds)
    ensures forall t :: OwnListeners(lists1, listeners1, t) == OwnListeners(lists0, listeners0, t) + ListenersFor(adds, t)
  {
    forall t
      ensures OwnListeners(lists1, listeners1, t) == OwnListeners(lists0, listeners0, t) + ListenersFor(adds, t)
    {
      assert OwnGrewAt(lists0, listeners0, lists1, listeners1, adds, t);
    }
  }

  lemma OwnGrewStep(lists0: map<TypeId, nat>, listeners0: seq<seq<Listener>>,
                    lists1: map<TypeId, nat>, listeners1: seq<seq<Listener>>,
                    lists2: map<TypeId, nat>, listeners2: seq<seq<Listener>>, adds: seq<Addition>, step: seq<Addition>)
    requires OwnGrew(lists0, listeners0, lists1, listeners1, adds)
    requires OwnGrew(lists1, listeners1, lists2, listeners2, step)
    ensures OwnGrew(lists0, listeners0, lists2, listeners2, adds + step)
  {
    forall t
      ensures OwnGrewAt(lists0, listeners0, lists2, listeners2, adds + step, t)
    {
      var own0, own1, own2 := OwnListeners(lists0, listeners0, t), OwnListeners(lists1, listeners1, t), OwnListeners(lists2, listeners2, t);
      assert OwnGrewAt(lists0, listeners0, lists1, listeners1, adds, t);
      assert OwnGrewAt(lists1, listeners1, lists2, listeners2, step, t);
      ListenersForAppend(adds, step, t);
      ConcatAssociates(own0, ListenersFor(adds, t), ListenersFor(step, t), own1, own2);
    }
  }

  lemma ConcatAssociates(own0: seq<Listener>, a: seq<Listener>, b: seq<Listener>, own1: seq<Listener>, own2: seq<Listener>)
    requires own1 == own0 + a && own2 == own1 + b
    ensures own2 == own0 + (a + b)
  {
  }

  /** The listeners going to `t` from two runs of additions are those of each, in order. */
  lemma {:induction false} ListenersForAppend(a: seq<Addition>, b: seq<Addition>, t: TypeId)
    ensures ListenersFor(a + b, t) == ListenersFor(a, t) + ListenersFor(b, t)
  {
    if b == [] {
      assert a + b == a;
    } else {
      var b' := b[..|b| - 1];
      ListenersForAppend(a, b', t);
      assert (a + b)[..|a + b| - 1] == a + b';
    }
  }

  /** Adding a listener to the node of `t` adds it to the own listeners of `t` only. */
  lemma AppendOwn(lists: map<TypeId, nat>, listeners: seq<seq<Listener>>, t: TypeId, l: Listener)
    requires Injective(lists) && t in lists && lists[t] < |listeners|
    ensures OwnGrew(lists, listeners, lists, listeners[lists[t] := listeners[lists[t]] + [l]], [(t, l)])
  {
    var after := listeners[lists[t] := listeners[lists[t]] + [l]];
    forall s
      ensures OwnGrewAt(lists, listeners, lists, after, [(t, l)], s)
    {
      assert [(t, l)][..0] == [];
      assert ListenersFor([(t, l)], s) == if s == t then [l] else [];
      if s in lists && s != t {
        assert lists[s] != lists[t];
      }
    }
  }

  /** The listeners of the node of `t`, if it has one. */
  function OwnListeners(lists: map<TypeId, nat>, listeners: seq<seq<Listener>>, t: TypeId): seq<Listener> {
    if t in lists && lists[t] < |listeners| then listeners[lists[t]] else []
  }

  /** The own listeners of each of `ts`, concatenated in order. */
  function OwnListenersOfAll(lists: map<TypeId, nat>, listeners: seq<seq<Listener>>, ts: seq<TypeId>): seq<Listener> {
    if ts == [] then []
    else OwnListenersOfAll(lists, listeners, ts[..|ts| - 1]) + OwnListeners(lists, listeners, ts[|ts| - 1])
  }

  /** Gathering the nodes of `ts` gathers the own listeners of `ts`. */
  lemma {:induction false} GatherOwn(lists: map<TypeId, nat>, listeners: seq<seq<Listener>>, ts: seq<TypeId>)
    requires forall k :: 0 <= k < |ts| ==> ts[k] in lists && lists[ts[k]] < |listeners|
    ensures forall k :: 0 <= k < |Lookup(lists, ts)| ==> Lookup(lists, ts)[k] < |listeners|
    ensures Gather(listeners, Lookup(lists, ts)) == OwnListenersOfAll(lists, listeners, ts)
  {
    if ts != [] {
      var ts' := ts[..|ts| - 1];
      GatherOwn(lists, listeners, ts');
      assert Lookup(lists, ts)[..|ts| - 1] == Lookup(lists, ts');
    }
  }

  /** Types whose own listeners did not change keep the concatenation of their own listeners. */
  lemma {:induction false} OwnAllAgree(lists0: map<TypeId, nat>, listeners0: seq<seq<Listener>>,
                                       lists1: map<TypeId, nat>, listeners1: seq<seq<Listener>>, ts: seq<TypeId>)
    requires OwnGrew(lists0, listeners0, lists1, listeners1, [])
    ensures OwnListenersOfAll(lists1, listeners1, ts) == OwnListenersOfAll(lists0, listeners0, ts)
  {
    if ts != [] {
      OwnAllAgree(lists0, listeners0, lists1, listeners1, ts[..|ts| - 1]);
      assert OwnGrewAt(lists0, listeners0, lists1, listeners1, [], ts[|ts| - 1]);
    }
  }

  /** Filtering every materialised node filters the own listeners of every type. */
  lemma SweepFiltersOwn(lists: map<TypeId, nat>, before: seq<seq<Listener>>, after: seq<seq<Listener>>, keep: Listener -> bool)
    requires |after| == |before|
    requires forall i :: 0 <= i < |after| ==> after[i] == if i in lists.Values then Filter(before[i], keep) else before[i]
    ensures forall t :: OwnListeners(lists, after, t) == Filter(OwnListeners(lists, before, t), keep)
  {
    forall t
      ensures OwnListeners(lists, after, t) == Filter(OwnListeners(lists, before, t), keep)
    {
      if t in lists && lists[t] < |after| {
        assert lists[t] in lists.Values;
      }
    }
  }

  /** The listeners matched by `unregister`'s filter: those in the target's record. */
  function ContainedIn(record: seq<Listener>): Listener -> bool {
    l => l in record
  }

  /** The methods a registration processes: the method itself, the class's public methods,
      or the public methods of the object's class. */
  function MethodsOfTarget(h: Hierarchy, target: Target): seq<Method> {
    match target
    case NullTarget => []
    case MethodTarget(m) => [m]
    case ClassTarget(c) => MethodsOf(h, c)
    case ObjectTarget(_, c) => MethodsOf(h, c)
  }

  function ModeOf(target: Target): Mode {
    if target.ObjectTarget? then BoundMode(target) else StaticMode
  }

  /** Once a failure stops the processing, later methods change nothing. */
  lemma {:induction false} FailureStops(cfg: Config, mode: Mode, ms: seq<Method>, j: nat)
    requires j <= |ms| && Contributions(cfg, mode, ms[..j]).failure.Some?
    ensures Contributions(cfg, mode, ms) == Contributions(cfg, mode, ms[..j])
    decreases |ms| - j
  {
    if j < |ms| {
      assert ms[..j + 1][..j] == ms[..j];
      FailureStops(cfg, mode, ms, j + 1);
    } else {
      assert ms[..j] == ms;
    }
  }

  /** The addition a method's contribution makes, if any. */
  function StepAdds(r: Result<Option<Addition>>): seq<Addition> {
    if r.Ok? && r.value.Some? then [r.value.value] else []
  }

  /** One step of registering `ms`: the contribution of `ms[i]` extends the registration of
      the methods before it, or ends it with its failure, and the lists grew accordingly. */
  lemma ProcessStep(cfg: Config, mode: Mode, ms: seq<Method>, i: nat, adds: seq<Addition>, record: seq<Listener>,
                    r: Result<Option<Addition>>,
                    lists0: map<TypeId, nat>, listeners0: seq<seq<Listener>>,
                    lists1: map<TypeId, nat>, listeners1: seq<seq<Listener>>,
                    lists2: map<TypeId, nat>, listeners2: seq<seq<Listener>>)
    requires i < |ms| && r == Contribution(cfg, mode, ms[i])
    requires Contributions(cfg, mode, ms[..i]) == Registration(adds, None)
    requires record == ListenersOf(adds)
    requires OwnGrew(lists0, listeners0, lists1, listeners1, adds)
    requires OwnGrew(lists1, listeners1, lists2, listeners2, StepAdds(r))
    ensures OwnGrew(lists0, listeners0, lists2, listeners2, adds + StepAdds(r))
    ensures r.Ok? ==> Contributions(cfg, mode, ms[..i + 1]) == Registration(adds + StepAdds(r), None)
    ensures r.Ok? ==> ListenersOf(adds + StepAdds(r)) == record + (if r.value.Some? then [r.value.value.1] else [])
    ensures r.Err? ==> adds + StepAdds(r) == adds && Contributions(cfg, mode, ms) == Registration(adds, Some(r.error))
  {
    assert ms[..i + 1][..i] == ms[..i];
    OwnGrewStep(lists0, listeners0, lists1, listeners1, lists2, listeners2, adds, StepAdds(r));
    if r.Err? {
      assert adds + StepAdds(r) == adds;
      FailureStops(cfg, mode, ms, i + 1);
    } else if r.value.Some? {
      assert (adds + StepAdds(r))[..|adds|] == adds;
    } else {
      assert adds + StepAdds(r) == adds;
    }
  }

  class EventBusImpl {
    const world: Hierarchy
    const baseType: TypeId
    const listenerWrapper: ListenerWrapper
    const cacheProcessor: Processor
    const factoryLoader: AbstractFactoryLoader
    /** The listener lists of this bus, one node per materialised event type. */
    const nodes: ListenerLists
    var factories: map<Method, ListenerFactory>
    var lists: map<TypeId, nat>
    var registered: map<Target, seq<Listener>>

    function Cfg(): Config {
      Config(world, baseType, listenerWrapper, factoryLoader.strategy)
    }

    ghost predicate Valid()
      reads this, nodes, factoryLoader
    {
      && nodes.Valid()
      && factoryLoader.Valid()
      && nodes.cacheProcessor == cacheProcessor
      && (forall m :: m in factories ==> Build(factoryLoader.strategy, m) == Ok(factories[m]))
      && Injective(lists)
      && ListsLinked(world, baseType, lists, nodes.supers)
    }

    /** The listeners registered directly for type `t` (none if it has no list yet). */
    ghost function OwnOf(t: TypeId): seq<Listener>
      reads this, nodes
    {
      OwnListeners(lists, nodes.listeners, t)
    }

    /** What firing an event as type `t` runs, or the exception the cache processor throws
        when the snapshot is built. */
    ghost function Snapshot(t: TypeId): Result<seq<Listener>>
      reads this, nodes
    {
      cacheProcessor(OwnOf(t) + OwnListenersOfAll(lists, nodes.listeners, ListSupertypes(world, baseType, t)))
    }

    /** The snapshot node `lists[t]` must hold is the snapshot of `t`: its own listeners,
        then those of each list supertype, in order. */
    lemma MergedIsSnapshot(t: TypeId)
      requires Valid() && t in lists
      ensures lists[t] < nodes.Count()
      ensures cacheProcessor(nodes.Merged(lists[t])) == Snapshot(t)
    {
      assert LinkedAt(world, baseType, lists, nodes.supers, t);
      GatherOwn(lists, nodes.listeners, ListSupertypes(world, baseType, t));
    }

    constructor (world: Hierarchy, baseType: TypeId, listenerWrapper: ListenerWrapper,
                 cacheProcessor: Processor, factoryLoader: AbstractFactoryLoader)
      requires factoryLoader.Valid()
      ensures Valid() && fresh(nodes)
      ensures this.world == world && this.baseType == baseType && this.listenerWrapper == listenerWrapper
      ensures this.cacheProcessor == cacheProcessor && this.factoryLoader == factoryLoader
      ensures factories == map[] && lists == map[] && registered == map[]
    {
      this.world := world;
      this.baseType := baseType;
      this.listenerWrapper := listenerWrapper;
      this.cacheProcessor := cacheProcessor;
      this.factoryLoader := factoryLoader;
      nodes := new ListenerLists(cacheProcessor);
      factories := map[];
      lists := map[];
      registered := map[];
    }

    /** `getList` (`lists.computeIfAbsent(clazz, buildList)`): the list of a type seen before
        is returned as it is; otherwise the lists of its direct supertypes assignable to the
        base type are obtained first, in order, and a node is built from them. Lists only
        grow: existing types keep their nodes and listeners, and the new types are `t` and
        supertypes of it, with new, empty nodes. */
    method GetList(t: TypeId) returns (n: nat)
      requires Valid() && IsAssignableFrom(world, baseType, t)
      modifies this, nodes
      ensures Valid()
      ensures t in lists && n == lists[t] && n < nodes.Count()
      ensures t in old(lists) ==> lists == old(lists) && unchanged(nodes)
      ensures Grown(old(lists), old(nodes.listeners), lists, nodes.listeners, t + 1)
      ensures NewKeysAbove(world, old(lists), lists, t)
      ensures registered == old(registered) && factories == old(factories)
      decreases t, 1
    {
      if t in lists {
        return lists[t];
      }
      var direct := DirectLists(t);
      ghost var lists1, listeners1 := lists, nodes.listeners;
      n := StoreList(t, direct);
      NewKeysStore(world, t, n, old(lists), lists1);
      GrownTrans(old(lists), old(nodes.listeners), lists1, listeners1, lists, nodes.listeners, t + 1, t + 1);
    }

    /** The first step of `buildList`: the lists of the direct supertypes of `t` that are
        assignable to the base type, in order. */
    method DirectLists(t: TypeId) returns (direct: seq<nat>)
      requires Valid() && t !in lists
      modifies this, nodes
      ensures Valid()
      ensures |direct| == |ListDirectSupertypes(world, baseType, t)|
      ensures forall k :: 0 <= k < |direct| ==>
                            ListDirectSupertypes(world, baseType, t)[k] in lists &&
                            direct[k] == lists[ListDirectSupertypes(world, baseType, t)[k]]
      ensures Grown(old(lists), old(nodes.listeners), lists, nodes.listeners, t)
      ensures NewKeysAbove(world, old(lists), lists, t)
      ensures registered == old(registered) && factories == old(factories)
      decreases t, 0
    {
      var ds := ListDirectSupertypes(world, baseType, t);
      direct := [];
      var i := 0;
      while i < |ds|
        invariant 0 <= i <= |ds|
        invariant Valid()
        invariant |direct| == i
        invariant forall k :: 0 <= k < i ==> ds[k] in lists && direct[k] == lists[ds[k]]
        invariant Grown(old(lists), old(nodes.listeners), lists, nodes.listeners, t)
        invariant NewKeysAbove(world, old(lists), lists, t)
        invariant registered == old(registered) && factories == old(factories)
      {
        ghost var lists0, listeners0 := lists, nodes.listeners;
        var d := GetList(ds[i]);
        NewKeysStep(world, baseType, t, i, old(lists), lists0, lists);
        DirectStep(old(lists), old(nodes.listeners), lists0, listeners0, lists, nodes.listeners, t, ds, i, direct, d);
        direct := direct + [d];
        i := i + 1;
      }
    }

    /** The last step of `buildList`: a node built from the nodes of the direct list
        supertypes of a new type becomes that type's list. */
    method StoreList(t: TypeId, direct: seq<nat>) returns (n: nat)
      requires Valid() && IsAssignableFrom(world, baseType, t) && t !in lists
      requires forall k :: 0 <= k < |ListDirectSupertypes(world, baseType, t)| ==>
        ListDirectSupertypes(world, baseType, t)[k] in lists
      requires |direct| == |ListDirectSupertypes(world, baseType, t)|
      requires forall k :: 0 <= k < |direct| ==> direct[k] == lists[ListDirectSupertypes(world, baseType, t)[k]]
      modifies this, nodes
      ensures Valid()
      ensures lists == old(lists)[t := n] && n == old(nodes.Count()) && nodes.Count() == n + 1
      ensures nodes.listeners == old(nodes.listeners) + [[]]
      ensures nodes.cache == old(nodes.cache) + [None]
      ensures registered == old(registered) && factories == old(factories)
    {
      assert direct == Lookup(lists, ListDirectSupertypes(world, baseType, t));
      NewListSupers(world, baseType, lists, nodes.supers, t);
      ghost var c := Lookup(lists, ListSupertypes(world, baseType, t));
      LinkedExtend(world, baseType, lists, nodes.supers, t, c);
      InjectiveExtend(lists, t, nodes.Count());
      n := nodes.NewNode(direct);
      assert nodes.supers == old(nodes.supers) + [c];
      lists := lists[t := n];
    }

    /** `getFactory` (`factories.computeIfAbsent(method, factoryLoader::get)`): the bus's own
        memo in front of the loader's; a failed build is stored in neither. */
    method GetFactory(m: Method) returns (r: Result<ListenerFactory>)
      requires Valid()
      modifies this, factoryLoader
      ensures Valid()
      ensures r == Build(factoryLoader.strategy, m)
      ensures factories == if m in old(factories) || r.Err? then old(factories) else old(factories)[m := r.value]
      ensures lists == old(lists) && registered == old(registered)
    {
      if m in factories {
        return Ok(factories[m]);
      }
      r := factoryLoader.Get(m);
      if r.Ok? {
        factories := factories[m := r.value];
      }
    }

    /** The per-method stage of `buildStaticListeners` / `buildObjectListeners`: skip a
        method of the other kind or with no listener type; otherwise get its factory and a
        listener from it, let the wrapper wrap it and, if it does, add the result to the list
        of the listener type. */
    method ProcessMethod(mode: Mode, m: Method) returns (r: Result<Option<Addition>>)
      requires Valid()
      modifies this, nodes, factoryLoader
      ensures Valid()
      ensures r == Contribution(Cfg(), mode, m)
      ensures OwnGrew(old(lists), old(nodes.listeners), lists, nodes.listeners, StepAdds(r))
      ensures registered == old(registered)
    {
      if !Processes(mode, m) {
        return Ok(None);
      }
      var listenerType := ListenerType(world, baseType, m);
      if listenerType.None? {
        return Ok(None);
      }
      var t := listenerType.value;
      var factory := GetFactory(m);
      if factory.Err? {
        return Err(factory.error);
      }
      var receiver := if mode.StaticMode? then None else Some(mode.receiver);
      var listener := Get(factory.value, factoryLoader.strategy.instantiate, receiver);
      if listener.Err? {
        return Err(listener.error);
      }
      var wrapped :=
        if mode.StaticMode? then listenerWrapper.wrapStatic(t, listener.value, m)
        else listenerWrapper.wrapObject(t, listener.value, m, mode.receiver, Supermethods(world, m));
      if wrapped.Err? {
        return Err(wrapped.error);
      }
      if wrapped.value.None? {
        return Ok(None);
      }
      AddListener(t, wrapped.value.value);
      r := Ok(Some((t, wrapped.value.value)));
    }

    /** `getList(type).add(listener)`. */
    method AddListener(t: TypeId, l: Listener)
      requires Valid() && IsAssignableFrom(world, baseType, t)
      modifies this, nodes
      ensures Valid()
      ensures OwnGrew(old(lists), old(nodes.listeners), lists, nodes.listeners, [(t, l)])
      ensures registered == old(registered) && factories == old(factories)
    {
      var n := GetList(t);
      GrownKeepsOwn(old(lists), old(nodes.listeners), lists, nodes.listeners, t + 1);
      ghost var listeners1 := nodes.listeners;
      nodes.Add(n, l);
      AppendOwn(lists, listeners1, t, l);
      OwnGrewStep(old(lists), old(nodes.listeners), lists, listeners1, lists, nodes.listeners, [], [(t, l)]);
      assert [] + [(t, l)] == [(t, l)];
    }

    /** Processes `ms` in order, stopping at the first failure. */
    method ProcessMethods(mode: Mode, ms: seq<Method>) returns (record: seq<Listener>, failure: Option<Error>)
      requires Valid()
      modifies this, nodes, factoryLoader
      ensures Valid()
      ensures record == ListenersOf(Contributions(Cfg(), mode, ms).adds)
      ensures failure == Contributions(Cfg(), mode, ms).failure
      ensures OwnGrew(old(lists), old(nodes.listeners), lists, nodes.listeners, Contributions(Cfg(), mode, ms).adds)
      ensures registered == old(registered)
    {
      record, failure := [], None;
      ghost var adds: seq<Addition> := [];
      ghost var lists0, listeners0 := lists, nodes.listeners;
      var i := 0;
      while i < |ms|
        invariant 0 <= i <= |ms|
        invariant Valid()
        invariant Contributions(Cfg(), mode, ms[..i]) == Registration(adds, None)
        invariant record == ListenersOf(adds)
        invariant OwnGrew(lists0, listeners0, lists, nodes.listeners, adds)
        invariant registered == old(registered)
      {
        ghost var lists1, listeners1 := lists, nodes.listeners;
        var r := ProcessMethod(mode, ms[i]);
        ProcessStep(Cfg(), mode, ms, i, adds, record, r, lists0, listeners0, lists1, listeners1, lists, nodes.listeners);
        if r.Err? {
          failure := Some(r.error);
          return;
        }
        if r.value.Some? {
          record := record + [r.value.value.1];
        }
        adds := adds + StepAdds(r);
        i := i + 1;
      }
      assert ms[..i] == ms;
    }

    /** `buildStaticListeners`: the static methods among `ms`. */
    method BuildStaticListeners(ms: seq<Method>) returns (record: seq<Listener>, failure: Option<Error>)
      requires Valid()
      modifies this, nodes, factoryLoader
      ensures Valid()
      ensures record == ListenersOf(Contributions(Cfg(), StaticMode, ms).adds)
      ensures failure == Contributions(Cfg(), StaticMode, ms).failure
      ensures forall s :: OwnOf(s) == old(OwnOf(s)) + ListenersFor(Contributions(Cfg(), StaticMode, ms).adds, s)
      ensures registered == old(registered)
    {
      record, failure := ProcessMethods(StaticMode, ms);
      OwnGrewAll(old(lists), old(nodes.listeners), lists, nodes.listeners, Contributions(Cfg(), StaticMode, ms).adds);
    }

    /** `buildObjectListeners`: the instance methods among `ms`, bound to `target`. */
    method BuildObjectListeners(ms: seq<Method>, target: Target) returns (record: seq<Listener>, failure: Option<Error>)
      requires Valid()
      modifies this, nodes, factoryLoader
      ensures Valid()
      ensures record == ListenersOf(Contributions(Cfg(), BoundMode(target), ms).adds)
      ensures failure == Contributions(Cfg(), BoundMode(target), ms).failure
      ensures forall s :: OwnOf(s) == old(OwnOf(s)) + ListenersFor(Contributions(Cfg(), BoundMode(target), ms).adds, s)
      ensures registered == old(registered)
    {
      record, failure := ProcessMethods(BoundMode(target), ms);
      OwnGrewAll(old(lists), old(nodes.listeners), lists, nodes.listeners, Contributions(Cfg(), BoundMode(target), ms).adds);
    }

    /** `register` (`registered.computeIfAbsent(target, registerObject)`). A null target is
        rejected; a target equal to a registered one changes nothing; otherwise its methods
        are processed and, unless that failed, its record is stored. Listeners added before
        a failure stay in their lists. */
    method Register(target: Target) returns (r: Outcome)
      requires Valid()
      modifies this, nodes, factoryLoader
      ensures Valid()
      ensures target.NullTarget? ==>
        r == Fail(NullPointer) && registered == old(registered) && forall s :: OwnOf(s) == old(OwnOf(s))
      ensures target.NullTarget? || target in old(registered) ==>
        lists == old(lists) && factories == old(factories) && unchanged(nodes, factoryLoader)
      ensures !target.NullTarget? && target in old(registered) ==>
        r == Pass && registered == old(registered) && forall s :: OwnOf(s) == old(OwnOf(s))
      ensures !target.NullTarget? && target !in old(registered) ==>
        var reg := Contributions(Cfg(), ModeOf(target), MethodsOfTarget(world, target));
        && (forall s :: OwnOf(s) == old(OwnOf(s)) + ListenersFor(reg.adds, s))
        && (reg.failure.None? ==> r == Pass && registered == old(registered)[target := ListenersOf(reg.adds)])
        && (reg.failure.Some? ==> r == Fail(reg.failure.value) && registered == old(registered))
    {
      if target.NullTarget? {
        return Fail(NullPointer);
      }
      if target in registered {
        return Pass;
      }
      var record, failure;
      match target {
        case MethodTarget(m) =>
          record, failure := BuildStaticListeners([m]);
        case ClassTarget(c) =>
          record, failure := BuildStaticListeners(MethodsOf(world, c));
        case ObjectTarget(_, c) =>
          record, failure := BuildObjectListeners(MethodsOf(world, c), target);
      }
      if failure.Some? {
        return Fail(failure.value);
      }
      registered := registered[target := record];
      r := Pass;
    }

    /** `lists.values().forEach(it -> it.removeIf(filter))`: every materialised list drops
        the listeners `filter` matches. */
    method RemoveFromAll(filter: Listener -> bool)
      requires Valid()
      modifies nodes
      ensures Valid()
      ensures |nodes.listeners| == |old(nodes.listeners)|
      ensures forall i :: 0 <= i < |nodes.listeners| ==>
                            nodes.listeners[i] ==
                            if i in lists.Values then Filter(old(nodes.listeners[i]), Negate(filter)) else old(nodes.listeners[i])
    {
      var keep := Negate(filter);
      var todo := lists.Values;
      while todo != {}
        invariant Valid()
        invariant todo <= lists.Values
        invariant |nodes.listeners| == |old(nodes.listeners)|
        invariant forall i :: 0 <= i < |nodes.listeners| ==>
                                nodes.listeners[i] ==
                                if i in lists.Values && i !in todo then Filter(old(nodes.listeners[i]), keep) else old(nodes.listeners[i])
        decreases todo
      {
        var n :| n in todo;
        var _ := nodes.RemoveIf(n, filter);
        todo := todo - {n};
      }
    }

    /** `unregister`: a null target is rejected and an unknown one changes nothing;
        otherwise its record is removed and every materialised list drops each listener in
        that record. */
    method Unregister(target: Target) returns (r: Outcome)
      requires Valid()
      modifies this, nodes
      ensures Valid()
      ensures lists == old(lists) && factories == old(factories)
      ensures target.NullTarget? ==>
        r == Fail(NullPointer) && registered == old(registered) && unchanged(nodes)
      ensures !target.NullTarget? && target !in old(registered) ==>
        r == Pass && registered == old(registered) && unchanged(nodes)
      ensures !target.NullTarget? && target in old(registered) ==>
        && r == Pass
        && registered == old(registered) - {target}
        && forall s :: OwnOf(s) == Filter(old(OwnOf(s)), Negate(ContainedIn(old(registered[target]))))
    {
      if target.NullTarget? {
        return Fail(NullPointer);
      }
      if target !in registered {
        return Pass;
      }
      var filter := ContainedIn(registered[target]);
      registered := registered - {target};
      RemoveFromAll(filter);
      SweepFiltersOwn(lists, old(nodes.listeners), nodes.listeners, Negate(filter));
      r := Pass;
    }
  }
}
