# EventLib event bus, modelled in Dafny

EventLib (`net.llvg.eventlib`) is an in-process event bus for the JVM. A bus is made by a
builder from a base event type, a listener wrapper, a cache processor and a factory loader.
`register(target)` turns the public methods of a target into listeners:
- a static `Method`;
- the static methods of a `Class`;
- the instance methods of any other object, bound to it.

Each listener goes into the listener list of its event type, and `unregister(target)` sweeps
them out again. `fire(type, event)` runs a snapshot of the listeners of `type` and of its
supertypes that are assignable to the base type.

This project models the bookkeeping of that bus: which listeners exist, which list holds
them, which snapshot each list serves, and the order in which listeners run.

- `Runtime` (`runtime.dfy`) models the reflective world as plain values:
  - classes are numbered so that supertypes come first, which gives a finite hierarchy without cycles;
  - methods are records (declaring class, name, parameter types, static flag);
  - targets are a method, a class, an object or null;
  - listeners are opaque values.
- `Common` holds `Option`, `Result`, `Outcome` and the exceptions. It also holds the sequence
  operations the source builds on:
  - the ordered, de-duplicating set builder (`Distinct`);
  - order-keeping filtering (`Filter`);
  - index gathering (`Gather`);
  - map lookup (`Lookup`).
- `ListenerList` is an arena of listener-list nodes. Each node holds its own listeners, its
  ordered ancestor set (`supers`), its reverse edges (`knownExtenders`) and a lazy snapshot.
  The class invariant says two things:
  - `knownExtenders` is exactly the reverse of `supers`;
  - every present snapshot is the processed merge of the current listeners.
- `EventBusImpl` is the bus. Its lists, factories and registrations are fields that the
  methods update. The class invariant ties every materialised type to a node whose `supers`
  are the nodes of that type's list supertypes. The pure parts are functions with lemmas:
  - the supertype and supermethod loaders;
  - `getListenerType`;
  - what each method contributes to a registration.
- `EventBus` holds `fire` (with the dispatch loop) and `builder`. `EventBusBuilder` is the
  builder's setter state machine.
- `AbstractFactoryLoader`, `ListenerFactories`, `ListenerWrapper` and `Utility`
  model the factory memo, the two factory kinds, the function wrapper, `findSAM`,
  `methodTypeFromMethod` and `emptyConsumer`.

The source uses `ConcurrentHashMap.computeIfAbsent`, `synchronized` blocks and a `volatile`
cache. The model runs every operation as one atomic step.

## Model

| member | source | states |
|---|---|---|
| ListenerList.ClosureMembers | lib/src/main/java/net/llvg/eventlib/ListenerList.java:35-41 | a new node's `supers` holds exactly its direct supers and the `supers` of each, without repeats |
| ListenerList.AncestryGrows | lib/src/main/java/net/llvg/eventlib/ListenerList.java:35-41 | adding a node whose `supers` is that closure keeps the ancestry well formed: ancestors are older nodes, no repeats, and closed under taking ancestors |
| ListenerList.ReverseGrows | lib/src/main/java/net/llvg/eventlib/ListenerList.java:43-47 | registering the new node as a known extender of each node of its `supers`, and of nothing else, keeps `knownExtenders` exactly the reverse of `supers` |
| ListenerList.ListenerLists.CollectSupers | lib/src/main/java/net/llvg/eventlib/ListenerList.java:35-41 | the builder loop yields the direct supers followed by each one's `supers`, first occurrences kept |
| ListenerList.ListenerLists.NewNode | lib/src/main/java/net/llvg/eventlib/ListenerList.java:31-50 | the constructor adds one node with that closure as `supers`, no listeners and no snapshot; it adds the node to the `knownExtenders` of exactly its `supers`; no existing listener list or snapshot changes; the invariant is kept |
| ListenerList.ListenerLists.DeprecateCaches | lib/src/main/java/net/llvg/eventlib/ListenerList.java:52-62 | the snapshots of the node and of every known extender are cleared; all others are kept; the invariant is restored |
| ListenerList.ListenerLists.Add | lib/src/main/java/net/llvg/eventlib/ListenerList.java:69-75 | the listener is appended to this node's own list only; the snapshots of this node and its known extenders are cleared and every other snapshot is kept |
| ListenerList.ListenerLists.RemoveIf | lib/src/main/java/net/llvg/eventlib/ListenerList.java:85-94 | the node keeps exactly the unmatched listeners in order; the result is true iff some listener matched; nothing removed means every snapshot is kept; otherwise snapshots are cleared as by `add` |
| ListenerList.ListenerLists.GetCache | lib/src/main/java/net/llvg/eventlib/ListenerList.java:101-123 | the result is the processed merge (own listeners, then each super's in `supers` order), or the processor's exception; a present snapshot is returned unchanged; a new snapshot is stored only when the processor returns normally; no listener list changes |
| ListenerList.MergedMembers | lib/src/main/java/net/llvg/eventlib/ListenerList.java:105-118 | a listener is in a node's merge iff it is one of the node's own listeners or one of an ancestor's |
| EventBusImpl.SupertypeMember | lib/src/main/java/net/llvg/eventlib/EventBusImpl.java:26-43 | the supertype loader returns exactly the proper supertypes of a class, i.e. those reachable by superclass and interface edges |
| EventBusImpl.SupertypesOfAllMember | lib/src/main/java/net/llvg/eventlib/EventBusImpl.java:39-41 | the loaded supertypes of the direct supertypes are exactly the proper supertypes of one of them |
| EventBusImpl.KeepAllDirectSupertypes | lib/src/main/java/net/llvg/eventlib/EventBusImpl.java:33-38 | the supertype loader starts from the non-null superclass, then the interfaces, unfiltered |
| EventBusImpl.SupermethodMember | lib/src/main/java/net/llvg/eventlib/EventBusImpl.java:45-60 | a supermethod is exactly a method listed by a proper supertype of the declaring class that has the same name, parameter types and static-ness; each appears once |
| EventBusImpl.ListenerType | lib/src/main/java/net/llvg/eventlib/EventBusImpl.java:98-104 | a method has a listener type iff it has exactly one parameter and that parameter is assignable to the base type; the type is that parameter |
| EventBusImpl.ListDirectSupertypes | lib/src/main/java/net/llvg/eventlib/EventBusImpl.java:81-86 | the direct supertypes a new list is built from are older classes, each assignable to the base type |
| EventBusImpl.NoAssignableAbove | lib/src/main/java/net/llvg/eventlib/EventBusImpl.java:85 | a supertype that fails the base-type filter has no supertype that passes it |
| EventBusImpl.ListSupertypesAreAssignableSupertypes | lib/src/main/java/net/llvg/eventlib/EventBusImpl.java:81-89 | building lists level by level from assignable direct supertypes reaches exactly the supertypes assignable to the base type, in supertype-loader order |
| EventBusImpl.NewListSupers | lib/src/main/java/net/llvg/eventlib/EventBusImpl.java:81-89 | when all direct list supertypes have lists, the closure computed by the new list's constructor is the nodes of all its list supertypes, each already materialised |
| EventBusImpl.ListenersForMember | lib/src/main/java/net/llvg/eventlib/EventBusImpl.java:119-121 | a listener goes to the list of `t` iff it was produced with listener type `t`; the target's record holds exactly the listeners added |
| EventBusImpl.OnlyProcessedMethodsCount | lib/src/main/java/net/llvg/eventlib/EventBusImpl.java:106-144 | a method of the other kind (instance for `Method`/`Class` targets, static for objects) contributes nothing |
| EventBusImpl.AdditionsAreListenerTypes | lib/src/main/java/net/llvg/eventlib/EventBusImpl.java:110-116 | every addition goes to a type assignable to the base type, the sole parameter type of a processed method |
| EventBusImpl.FailureStops | lib/src/main/java/net/llvg/eventlib/EventBusImpl.java:106-123 | once making a factory or listener, or wrapping it, fails, the remaining methods contribute nothing |
| EventBusImpl.GrownKeepsOwn | lib/src/main/java/net/llvg/eventlib/EventBusImpl.java:151-153 | creating lists changes no type's own listeners |
| EventBusImpl.SweepFiltersOwn | lib/src/main/java/net/llvg/eventlib/EventBusImpl.java:164 | filtering every materialised node filters every type's own listeners by the same predicate |
| EventBusImpl.EventBusImpl.MergedIsSnapshot | lib/src/main/java/net/llvg/eventlib/EventBusImpl.java:81-89 | the processed merge of a type's node is that type's own listeners followed by those of each list supertype, in order |
| EventBusImpl.EventBusImpl.GetList | lib/src/main/java/net/llvg/eventlib/EventBusImpl.java:151-153 | the type gets a node; a type already seen gets its existing node and nothing changes; otherwise new, empty nodes are added, and every newly materialised type is the type itself or one of its supertypes; old types keep their nodes and listeners; the invariant is kept |
| EventBusImpl.EventBusImpl.DirectLists | lib/src/main/java/net/llvg/eventlib/EventBusImpl.java:81-87 | each assignable direct supertype is materialised through `getList`, in order, and the result is their nodes |
| EventBusImpl.EventBusImpl.StoreList | lib/src/main/java/net/llvg/eventlib/EventBusImpl.java:81-89 | the new list's node is appended and mapped to the type, with the invariant (nodes mirror list supertypes) kept |
| EventBusImpl.EventBusImpl.GetFactory | lib/src/main/java/net/llvg/eventlib/EventBusImpl.java:146-148 | the result is the loader's build for the method; a successful build is stored once and a stored one is reused |
| EventBusImpl.EventBusImpl.ProcessMethod | lib/src/main/java/net/llvg/eventlib/EventBusImpl.java:108-119 | one method's stage: the result is its contribution, which is a failure when making the factory, the listener or the wrapped listener throws; exactly the contributed listener, if any, is appended to its type's own listeners |
| EventBusImpl.EventBusImpl.AddListener | lib/src/main/java/net/llvg/eventlib/EventBusImpl.java:119 | `getList(t).add(l)` appends `l` to the own listeners of `t` and of no other type |
| EventBusImpl.EventBusImpl.ProcessMethods | lib/src/main/java/net/llvg/eventlib/EventBusImpl.java:106-123 | methods are processed in order up to the first failure; the record is the added listeners in method order; each type's own listeners gain exactly the listeners for it |
| EventBusImpl.EventBusImpl.BuildStaticListeners | lib/src/main/java/net/llvg/eventlib/EventBusImpl.java:106-123 | the static methods' listeners are added to their types' lists and returned in method order |
| EventBusImpl.EventBusImpl.BuildObjectListeners | lib/src/main/java/net/llvg/eventlib/EventBusImpl.java:125-144 | the instance methods' listeners, bound to the target, are added to their types' lists and returned in method order |
| EventBusImpl.EventBusImpl.Register | lib/src/main/java/net/llvg/eventlib/EventBusImpl.java:156-158 | null is rejected and an equal, already registered target is a no-op, both leaving lists, nodes and factories as they were; otherwise the target's methods are processed by kind, each type's own listeners gain exactly the listeners for it, and the record is stored on success only |
| EventBusImpl.EventBusImpl.RemoveFromAll | lib/src/main/java/net/llvg/eventlib/EventBusImpl.java:164 | every materialised node drops the matched listeners and keeps the rest in order; other nodes are untouched |
| EventBusImpl.EventBusImpl.Unregister | lib/src/main/java/net/llvg/eventlib/EventBusImpl.java:161-165 | null is rejected and an unknown target is a no-op, both leaving the nodes as they were; otherwise its record is deleted and every type's own listeners lose exactly the listeners in that record; lists and factories never change |
| EventBus.Dispatch | lib/src/main/java/net/llvg/eventlib/EventBus.java:70 | listeners run in snapshot order up to and including the first that throws; its exception propagates and no later listener runs |
| EventBus.DispatchPasses | lib/src/main/java/net/llvg/eventlib/EventBus.java:70 | dispatch completes iff no listener of the snapshot throws |
| EventBus.DispatchDeterministic | lib/src/main/java/net/llvg/eventlib/EventBus.java:69-70 | the listeners run and the outcome are determined by the snapshot and the listeners' behaviour |
| EventBus.Fire | lib/src/main/java/net/llvg/eventlib/EventBus.java:66-71 | an event that is not an instance of the type (null included) is an argument error and nothing runs; a cache processor that throws while building the snapshot makes `fire` fail with its exception before any listener runs; otherwise the listeners run are the type's snapshot as it was before the call; no listener is added or removed |
| EventBus.Builder | lib/src/main/java/net/llvg/eventlib/EventBus.java:85-87 | a null base type is a null pointer; otherwise a new builder with that base type and nothing set |
| EventBusBuilder.EventBusBuilder.GetBaseType | lib/src/main/java/net/llvg/eventlib/EventBusBuilder.java:29-31 | the base type given at creation |
| EventBusBuilder.EventBusBuilder.SetListenerWrapper | lib/src/main/java/net/llvg/eventlib/EventBusBuilder.java:46-53 | a second call is a state error; null is a null pointer and leaves the wrapper unset; otherwise the wrapper is set; nothing else changes |
| EventBusBuilder.EventBusBuilder.GetListenerWrapper | lib/src/main/java/net/llvg/eventlib/EventBusBuilder.java:55-58 | a state error iff no wrapper is set |
| EventBusBuilder.EventBusBuilder.SetCacheProcessor | lib/src/main/java/net/llvg/eventlib/EventBusBuilder.java:70-74 | a state error unless a wrapper is set; null is a null pointer; otherwise the processor is replaced; the invariant "default processor until a wrapper is set" is kept |
| EventBusBuilder.EventBusBuilder.GetCacheProcessor | lib/src/main/java/net/llvg/eventlib/EventBusBuilder.java:76-78 | the processor set, which is the no-op consumer while no wrapper is set |
| EventBusBuilder.EventBusBuilder.SetFactoryLoader | lib/src/main/java/net/llvg/eventlib/EventBusBuilder.java:89-92 | null is a null pointer and keeps the old loader; any other value replaces it, any number of times |
| EventBusBuilder.EventBusBuilder.GetFactoryLoader | lib/src/main/java/net/llvg/eventlib/EventBusBuilder.java:94-97 | a state error iff no loader is set |
| EventBusBuilder.CheckValue | lib/src/main/java/net/llvg/eventlib/EventBusBuilder.java:112-114 | null is a null pointer; any other value passes unchanged |
| EventBusBuilder.Build | lib/src/main/java/net/llvg/eventlib/EventBusBuilder.java:108-110 | a missing wrapper or loader is a state error; otherwise a fresh, valid bus with the builder's settings and no lists, factories or registrations |
| AbstractFactoryLoader.Build | lib/src/main/java/net/llvg/eventlib/AbstractFactoryLoader.java:19-34 | a static method whose handle builds and whose listener constructs gets a constant factory holding that listener; a construction that throws is a state error and one that yields null is a null pointer (from `ListenerFactory.constant`); a handle failure propagates; an instance method gets a receiver-binding factory over its handle, or the handle failure |
| AbstractFactoryLoader.StaticFactoryIsConstant | lib/src/main/java/net/llvg/eventlib/AbstractFactoryLoader.java:20-30 | a static method's factory hands every receiver the one listener constructed at build time |
| AbstractFactoryLoader.AbstractFactoryLoader.Get | lib/src/main/java/net/llvg/eventlib/AbstractFactoryLoader.java:36-39 | the result is the method's build; a cached method is not built again; a successful build is cached; a method is rebuilt only after a failed build |
| ListenerFactories.Get | lib/src/main/java/net/llvg/eventlib/AbstractFactoryLoader.java:54-61 | a constant factory returns its value for any receiver; a binding factory invokes its handle on each call and turns a failure into a runtime error |
| ListenerFactories.ConstantGetIsStable | lib/src/main/java/net/llvg/eventlib/ListenerFactoryFromConstant.java:15-17 | repeated `get` calls on a constant factory, null included, return the same stored value |
| ListenerFactories.Constant | lib/src/main/java/net/llvg/eventlib/ListenerFactory.java:34-36 | a null value is rejected; otherwise a constant factory holding the value |
| ListenerWrapper.FromFunction | lib/src/main/java/net/llvg/eventlib/ListenerWrapperFromFunction.java:19-36 | both wrap operations give the mapper's listener as a present result; the mapper's exception propagates; a null from the mapper is a null pointer |
| ListenerWrapper.From | lib/src/main/java/net/llvg/eventlib/ListenerWrapper.java:64-66 | a null mapper is rejected; otherwise the function wrapper |
| ListenerWrapper.FunctionWrapperIgnoresMetadata | lib/src/main/java/net/llvg/eventlib/ListenerWrapperFromFunction.java:19-36 | both wrap operations give the same result for a listener, whatever type, method, object and supermethods they are given, and it is never an empty (declined) result |
| Utility.FindSam | lib/src/main/java/net/llvg/eventlib/Utility.java:17-29 | a non-interface is an argument error; otherwise the single abstract method, or a state error when there are none or several; non-abstract methods are ignored |
| Utility.MethodTypeFromMethod | lib/src/main/java/net/llvg/eventlib/Utility.java:31-33 | the method's return type with its parameter types, unchanged |
| Utility.MethodTypeIdentifiesSignature | lib/src/main/java/net/llvg/eventlib/Utility.java:31-33 | two methods have the same method type iff their return and parameter types agree |
| Utility.EmptyConsumer | lib/src/main/java/net/llvg/eventlib/Utility.java:36 | the default cache processor leaves the buffer as it is and never throws |

## Left out

- Concurrency. `synchronized` blocks, the `volatile` snapshot, lock ordering and the atomicity of `computeIfAbsent` are not modelled; every operation is one sequential step.
- Recursive `computeIfAbsent`. `getList` runs inside `lists.computeIfAbsent` and calls `getList` again. The model treats this as plain recursion. The JDK's recursive-update detection depends on hash bins, so it is not modelled.
- Weak keys. The static supertype and supermethod caches are pure functions of the class world, so garbage collection of their keys is left out.
- Factory strategies. Bytecode generation and the lambda metafactory are not part of this model. A strategy is a record of functions (`buildStatic`, `newStatic`, `buildObject`, `instantiate`) that may fail.
- EventBusBuilder.EventBusBuilder.SetFactoryLoader: accepts only loaders of the `AbstractFactoryLoader` kind. Such a loader caches its factories and gives static methods constant factories. The source accepts any implementation of the public `FactoryLoader` interface, for example a user lambda that gives a static method a receiver-using factory or caches nothing. A bus built with such a loader is not modelled.
- Other classes and methods. `Configuration`, `ForwardingEventBus`, `ForwardingListenerWrapper`, `Pair`, `package-info` and every `toString` are not part of this model.
- Listener behaviour. Invoking a listener is a parameter (`Accept`): for each listener it says whether the listener returns or throws. Listener side effects, and the receiver checks in generated code, are not modelled.
- Interface assignability to Object. `IsAssignableFrom` is reachability over superclass and interface edges. Java's rule that `Object` is assignable from every interface is missing. It matters only when the base type is `Object` and the event type is an interface.
- Listener equality. Listeners, targets and methods are values compared by value. This stands in for `equals`, which `registered` and the unregister filter use.
- EventBusImpl.EventBusImpl.Unregister: compares listeners by value, and a wrapper gives equal listeners for equal inputs. The function wrapper in the source returns what its mapper returns, and a typical mapper (such as `u -> e -> u.accept(e)`) makes a new object on every call; the unregister filter compares with `equals`, which is identity for such objects. So two registrations that wrap the same static method get two listeners in the source, and unregistering one target removes only its own. In the model it removes both. Examples:
  - `register(A.class)` and `register(B.class)`, where `B` inherits a public static listener from `A`;
  - `register(m)` and `register(A.class)`, where `m` is a static listener method of `A`.

  The other target then stays registered with no listener left in the lists.
- EventBusImpl.EventBusImpl.Register: an object target is its `equals` key together with its runtime class. Two objects that are equal but of different classes are two targets here; the source's `registered` map treats them as one.
- Null values inside the bus are not modelled:
  - `ListenerList.add(null)` is accepted by the source and makes the next `getCache` throw in `ImmutableList.copyOf`; listeners in the model are never null.
  - A cache processor that leaves null in the buffer makes `ImmutableList.copyOf` throw; a processor in the model returns a buffer of listeners or throws.
  - `fire(null, event)` throws a null-pointer exception in the source; the event type of `EventBus.Fire` is never null.
- Cache processor. The source's consumer edits the buffer in place; here it is a function from the gathered buffer to the stored snapshot, or to the exception it throws.
- Sweep order. `unregister` visits the materialised lists in hash order; the model visits them in an arbitrary order, and the result does not depend on it.
- EventBus.Fire: requires the event type to be assignable to the base type. The source's `Class<? extends E>` signature enforces this at compile time. Raw-typed callers are not modelled.
- EventBusImpl.EventBusImpl.Register: on a failed registration, listeners added before the failure stay in their lists. This is the source's behaviour, and the contract states it. The exception itself is returned as `Fail`.
- EventBusImpl.EventBusImpl.GetList: does not state that existing snapshots survive the creation of new lists. `ListenerList.ListenerLists.NewNode` states this for each node it adds.
