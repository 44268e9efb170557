# EasyDispatch, modelled in Dafny

EasyDispatch is a small Java event-dispatch library. Handler objects are
registered with a `HandlerRegistry`. The registry reads each object's
handle declarations through a meta factory, optionally cached, and files
a `Handler` wrapper in one bucket per event class it handles. Dispatching
an event offers it to every Handle registered for the event's exact
runtime class, Handler by Handler and in declared order. For each Handle
a `DispatchStrategy` is chosen: the one the Handle names, or a fallback,
or one strategy for all of them. The strategy produces a
`DispatchResult`. The result's flow control (CONTINUE or STOP) decides
whether the dispatch goes on. The `EasyDispatch` facade ties a registry
and a `Dispatcher` together.

The modules:

- `Lang`: Java-level values (classes, objects, throwables, futures).
  Java's null appears as `Option.None`; exceptions that escape appear as
  `Uncaught`.
- `Meta`: handle metas, reflective access flags and the map-backed meta
  cache.
- `Handling`: Handlers and Handles.
- `Invocation`: `Handle.invoke`.
- `Flow`: list cursors and the two built-in flow controls.
- `Results`: `DispatchResult` and the unwrapping of future results.
- `Strategies`: strategies and the strategy registry.
- `Buckets`: the registry's class-to-Handlers index, as values.
- `Registry`: the `HandlerRegistry` class.
- `Dispatching`: the specification of a dispatch (`Run`, `Dispatched`),
  the dispatcher's nested loops proved against it, and the `Dispatcher`
  class.
- `Facade`: the `EasyDispatch` class.

A dispatch is specified by the function `Dispatching.Run`. The imperative
loops of `Dispatcher.dispatch` and `dispatchWith` (`Dispatching.Drive`)
are proved to produce exactly what `Run` describes. The properties of a
dispatch (order, flow control, how it can fail) are proved as lemmas
about `Run`.

Strategies are abstract. A `Behaviour` says how each strategy's
`dispatch` ends for a Handle, the event and the results so far: it
returns a result, returns null or throws. A null return makes the
dispatch raise a NullPointerException when the result's flow control is
read; an exception a strategy throws escapes the dispatch. Claims that
depend on what strategies do carry it as a hypothesis:
`ReturnsNormally` (every call returns a non-null result) for "cannot
fail", and `BuildsFromHandle` (every result names the Handle's Handler
and the event, as the built-in strategies' `new DispatchResult(handle,
object, ...)` does) for claims about what the results name.

## Model

| member | source | states |
|---|---|---|
| Meta.AccessFlags.SetAccessible | src/main/java/com/lrezek/easydispatch/handle/Handle.java:79-81 | the method's access flag becomes exactly the value asked for; every other method's flag is unchanged |
| Meta.HandleMetaCache.constructor | src/main/java/com/lrezek/easydispatch/handle/meta/cache/ConcurrentMapHandleMetaCache.java:39 | a new cache has no entries |
| Meta.HandleMetaCache.Contains | src/main/java/com/lrezek/easydispatch/handle/meta/cache/ConcurrentMapHandleMetaCache.java:48-51 | true exactly when `Get` finds an entry for the class |
| Meta.HandleMetaCache.Get | src/main/java/com/lrezek/easydispatch/handle/meta/cache/ConcurrentMapHandleMetaCache.java:60-63 | the cached metas of the class, or None (null) exactly when there is no entry |
| Meta.HandleMetaCache.Put | src/main/java/com/lrezek/easydispatch/handle/meta/cache/ConcurrentMapHandleMetaCache.java:73-76 | afterwards the class maps to the given metas; every other class keeps its entry |
| Meta.HandleMetaCache.Clear | src/main/java/com/lrezek/easydispatch/handle/meta/cache/ConcurrentMapHandleMetaCache.java:82-85 | afterwards no class has an entry |
| Handling.Matching | src/main/java/com/lrezek/easydispatch/dispatch/Dispatcher.java:81 | holds exactly the metas that handle the given class, in declared order |
| Handling.Handler.GetHandles | src/main/java/com/lrezek/easydispatch/dispatch/Dispatcher.java:81 | one Handle per matching meta, in order, each owned by this Handler and handling exactly the event's class |
| Handling.HandledIffHandles | src/main/java/com/lrezek/easydispatch/dispatch/Dispatcher.java:81 | a Handler offers Handles for an event exactly when the event's class is one of its handled classes |
| Handling.Handle.GetHandler | src/main/java/com/lrezek/easydispatch/handle/Handle.java:144-147 | the Handler the Handle belongs to; for every Handle a Handler offers (`Handler.GetHandles`), that Handler itself |
| Handling.Handle.GetMeta | src/main/java/com/lrezek/easydispatch/handle/Handle.java:104-107 | the Handle's meta; for an offered Handle, the Handler's matching meta at the same position |
| Handling.Handle.GetMethod | src/main/java/com/lrezek/easydispatch/handle/Handle.java:114-117 | the method the meta targets |
| Handling.Handle.GetDispatchStrategy | src/main/java/com/lrezek/easydispatch/handle/Handle.java:124-127 | the strategy class the meta names, the sentinel when it names none; `Dispatching.PickResolves` states how the dispatcher uses it |
| Handling.Handle.GetHandledClass | src/main/java/com/lrezek/easydispatch/handle/Handle.java:134-137 | the class the meta handles; for every offered Handle, exactly the event's class (`Handler.GetHandles`) |
| Handling.NewHandler | src/main/java/com/lrezek/easydispatch/handle/HandlerRegistry.java:85 | a Handler is built exactly when the class declares at least one meta; it wraps the object and handles at least one class; otherwise the failure names the object's class |
| Invocation.CapturedValue | src/main/java/com/lrezek/easydispatch/handle/Handle.java:84-93 | a normal return is stored as it is; an InvocationTargetException stores its cause; an IllegalAccessException stores an EasyDispatchException with the message `Failed to access <name>` |
| Invocation.CapturedFailureIsFinal | src/main/java/com/lrezek/easydispatch/dispatch/result/DispatchResult.java:125-141 | a captured failure is a throwable, never a future, so `getResult` hands it back unchanged |
| Invocation.Invoke | src/main/java/com/lrezek/easydispatch/handle/Handle.java:64-97 | a fresh CONTINUE result naming the Handle's Handler and the event, holding the captured value; an inaccessible method is made accessible for the call and reset only when the call returns normally |
| Flow.Cursor.constructor | src/main/java/com/lrezek/easydispatch/dispatch/Dispatcher.java:72 | a cursor over the list, before its first element |
| Flow.Cursor.HasNext | src/main/java/com/lrezek/easydispatch/dispatch/Dispatcher.java:75 | true exactly when elements remain |
| Flow.Cursor.Next | src/main/java/com/lrezek/easydispatch/dispatch/Dispatcher.java:78 | returns the element at the cursor and moves one step forward |
| Flow.Cursor.ExhaustRemaining | src/main/java/com/lrezek/easydispatch/dispatch/flow/DispatchFlowControls.java:48-49 | moves to the end, never backwards, so no element remains |
| Flow.Execute | src/main/java/com/lrezek/easydispatch/dispatch/flow/DispatchFlowControls.java:39-50 | CONTINUE leaves both cursors where they are; STOP leaves nothing in either; neither moves a cursor backwards |
| Results.Unwrap | src/main/java/com/lrezek/easydispatch/dispatch/result/DispatchResult.java:125-141 | a non-future is returned as it is; a future yielding a DispatchResult is replaced by that result's own result; a failed, interrupted or mistyped future is returned raw; a null yield or a cancellation escapes; what is returned is never a future that could be opened |
| Results.Innermost | src/main/java/com/lrezek/easydispatch/dispatch/result/DispatchResult.java:132 | the object reached by opening every nested DispatchResult-yielding future cannot be opened further |
| Results.UnwrapIsUnwrapOfInnermost | src/main/java/com/lrezek/easydispatch/dispatch/result/DispatchResult.java:132 | unwrapping through any depth of nested futures equals unwrapping the innermost object |
| Results.DispatchResult.FromHandler | src/main/java/com/lrezek/easydispatch/dispatch/result/DispatchResult.java:59-64 | stores the Handler, the event and the result; the flow control starts as CONTINUE |
| Results.DispatchResult.FromHandle | src/main/java/com/lrezek/easydispatch/dispatch/result/DispatchResult.java:73-78 | stores the Handle's Handler, the event and the result; the flow control starts as CONTINUE |
| Results.DispatchResult.SetDispatchFlowControl | src/main/java/com/lrezek/easydispatch/dispatch/result/DispatchResult.java:95-98 | only the flow control changes, to the value given |
| Results.DispatchResult.GetDispatchFlowControl | src/main/java/com/lrezek/easydispatch/dispatch/result/DispatchResult.java:85-88 | the current flow control: CONTINUE after construction, then the last one set (`SetDispatchFlowControl`) |
| Results.DispatchResult.GetHandler | src/main/java/com/lrezek/easydispatch/dispatch/result/DispatchResult.java:105-108 | the Handler recorded at construction; setting the flow control leaves it alone |
| Results.DispatchResult.GetDispatched | src/main/java/com/lrezek/easydispatch/dispatch/result/DispatchResult.java:115-118 | the dispatched object recorded at construction; setting the flow control leaves it alone |
| Results.DispatchResult.GetResult | src/main/java/com/lrezek/easydispatch/dispatch/result/DispatchResult.java:125-141 | a non-future result is returned as stored; an unwrapped value is never an openable future |
| Strategies.DispatchVia | src/main/java/com/lrezek/easydispatch/dispatch/Dispatcher.java:93 | the strategy's call: a fresh result with the Handler, object, value and flow control it returned; null when it returned null; its exception when it threw |
| Strategies.PutAll | src/main/java/com/lrezek/easydispatch/dispatch/strategy/DispatchStrategyRegistry.java:48-61 | the keys become the old keys plus the strategies' classes; keys not named keep their entry; the last strategy given is stored under its class |
| Strategies.PutAllLastWins | src/main/java/com/lrezek/easydispatch/dispatch/strategy/DispatchStrategyRegistry.java:53-56 | of several strategies of one class, the last one given is the one stored |
| Strategies.Lookup | src/main/java/com/lrezek/easydispatch/dispatch/strategy/DispatchStrategyRegistry.java:154-167 | the entry for the class when the class is non-null, not the sentinel and present; otherwise exactly the fallback |
| Strategies.LookupFindsRequestedClass | src/main/java/com/lrezek/easydispatch/dispatch/strategy/DispatchStrategyRegistry.java:157-162 | in a well-keyed table, a lookup that does not fall back yields a strategy of the class asked for |
| Strategies.PutAllKeepsWellKeyed | src/main/java/com/lrezek/easydispatch/dispatch/strategy/DispatchStrategyRegistry.java:55 | putting strategies under their own classes keeps every key holding a strategy of that class, and leaves the default entry alone |
| Strategies.DispatchStrategyRegistry.constructor | src/main/java/com/lrezek/easydispatch/dispatch/strategy/DispatchStrategyRegistry.java:40 | an empty registry, with no default |
| Strategies.DispatchStrategyRegistry.Add | src/main/java/com/lrezek/easydispatch/dispatch/strategy/DispatchStrategyRegistry.java:48-61 | the table becomes `PutAll` of the old table; the default is unchanged |
| Strategies.DispatchStrategyRegistry.Remove | src/main/java/com/lrezek/easydispatch/dispatch/strategy/DispatchStrategyRegistry.java:69-82 | exactly the given keys are deleted; the default survives unless the sentinel key itself is named |
| Strategies.DispatchStrategyRegistry.SetDefaultClass | src/main/java/com/lrezek/easydispatch/dispatch/strategy/DispatchStrategyRegistry.java:108-124 | succeeds exactly when the class is non-null and registered, and then copies its strategy to the default key; otherwise IllegalArgumentException with the source's message and nothing changes |
| Strategies.DispatchStrategyRegistry.SetDefault | src/main/java/com/lrezek/easydispatch/dispatch/strategy/DispatchStrategyRegistry.java:90-100 | registers the strategy under its class and makes it the default; a null strategy raises a NullPointerException and changes nothing |
| Strategies.DispatchStrategyRegistry.GetDefault | src/main/java/com/lrezek/easydispatch/dispatch/strategy/DispatchStrategyRegistry.java:131-134 | the entry under the sentinel key, or None exactly when there is none |
| Strategies.DispatchStrategyRegistry.Get | src/main/java/com/lrezek/easydispatch/dispatch/strategy/DispatchStrategyRegistry.java:154-167 | the registered strategy when the class is non-null, not the sentinel and present, and then of that class; in every other case the fallback |
| Strategies.DispatchStrategyRegistry.GetOrDefault | src/main/java/com/lrezek/easydispatch/dispatch/strategy/DispatchStrategyRegistry.java:142-145 | `Get` with the registry's own default as the fallback |
| Buckets.Bucket | src/main/java/com/lrezek/easydispatch/handle/HandlerRegistry.java:159-169 | the list registered for the class, or the empty list when there is none |
| Buckets.Registered | src/main/java/com/lrezek/easydispatch/handle/HandlerRegistry.java:176-185 | exactly the Handlers found in some bucket |
| Buckets.BucketHoldsItsHandlers | src/main/java/com/lrezek/easydispatch/handle/HandlerRegistry.java:159-169 | in the index the registry keeps, a class's bucket holds exactly the registered Handlers that handle that class |
| Buckets.AppendTo | src/main/java/com/lrezek/easydispatch/handle/HandlerRegistry.java:89-96 | one Handler appended to the bucket of each of the given classes, each missing bucket created first; `BucketOfAppendTo` states the buckets |
| Buckets.BucketOfAppendTo | src/main/java/com/lrezek/easydispatch/handle/HandlerRegistry.java:89-98 | appending to a set of classes grows exactly their buckets, each by the one Handler |
| Buckets.AppendToEach | src/main/java/com/lrezek/easydispatch/handle/HandlerRegistry.java:89-98 | the loop that creates missing buckets and appends computes `AppendTo` for the given classes |
| Buckets.HandlingClass | src/main/java/com/lrezek/easydispatch/handle/HandlerRegistry.java:89-98 | holds exactly the Handlers of the list that handle the class, in list order |
| Buckets.IndexAll | src/main/java/com/lrezek/easydispatch/handle/HandlerRegistry.java:89-98 | the Handlers indexed one after another, in list order; `BucketOfIndexAll` and `KeysOfIndexAll` state the result |
| Buckets.BucketOfIndexAll | src/main/java/com/lrezek/easydispatch/handle/HandlerRegistry.java:89-98 | after indexing a list, each bucket is its old contents followed by the Handlers of the list that handle its class, in list order |
| Buckets.KeysOfIndexAll | src/main/java/com/lrezek/easydispatch/handle/HandlerRegistry.java:91-94 | indexing never deletes a bucket and creates exactly the buckets of the classes the new Handlers handle |
| Buckets.IndexAllBucket | src/main/java/com/lrezek/easydispatch/handle/HandlerRegistry.java:89-98 | after indexing fresh Handlers, every bucket is free of duplicates and holds only Handlers of its class |
| Buckets.IndexAllEveryHandledBucket | src/main/java/com/lrezek/easydispatch/handle/HandlerRegistry.java:89-98 | after indexing, every registered Handler sits in the bucket of every class it handles |
| Buckets.IndexAllWellFormed | src/main/java/com/lrezek/easydispatch/handle/HandlerRegistry.java:89-98 | indexing Handlers numbered from the next serial keeps the index well formed, with the serial bound moved past them |
| Buckets.Without | src/main/java/com/lrezek/easydispatch/handle/HandlerRegistry.java:245 | holds exactly the elements not removed, in order |
| Buckets.RemoveFirst | src/main/java/com/lrezek/easydispatch/handle/HandlerRegistry.java:245 | `List.remove` drops one element when present and changes nothing otherwise |
| Buckets.RemoveFirstIsWithout | src/main/java/com/lrezek/easydispatch/handle/HandlerRegistry.java:245 | in a bucket without duplicates, removing the first occurrence removes the Handler altogether |
| Buckets.DropAll | src/main/java/com/lrezek/easydispatch/handle/HandlerRegistry.java:242-247 | every bucket is kept, and loses exactly the removed Handlers |
| Buckets.DropAllWellFormed | src/main/java/com/lrezek/easydispatch/handle/HandlerRegistry.java:242-247 | removing Handlers keeps the index well formed |
| Buckets.DropAllKeepsShape | src/main/java/com/lrezek/easydispatch/handle/HandlerRegistry.java:242-247 | removing Handlers keeps buckets free of duplicates and of Handlers for other classes |
| Buckets.RegisteredAfterDropAll | src/main/java/com/lrezek/easydispatch/handle/HandlerRegistry.java:116-121 | the registered Handlers after a removal are exactly the previous ones minus those removed |
| Buckets.DropFrom | src/main/java/com/lrezek/easydispatch/handle/HandlerRegistry.java:244-247 | the Handler removed from the buckets of the given classes only; every other bucket unchanged |
| Buckets.RemoveFromEach | src/main/java/com/lrezek/easydispatch/handle/HandlerRegistry.java:244-246 | the loop over the Handler's classes computes the drop from exactly those buckets |
| Buckets.DropFromHandled | src/main/java/com/lrezek/easydispatch/handle/HandlerRegistry.java:244-246 | since a Handler sits only in buckets of its own classes, removing it from those removes it from the index |
| Buckets.DropAllNone | src/main/java/com/lrezek/easydispatch/handle/HandlerRegistry.java:242-247 | removing no Handler leaves the index unchanged |
| Buckets.DropAllDropAll | src/main/java/com/lrezek/easydispatch/handle/HandlerRegistry.java:116-122 | removing one set of Handlers and then another is removing both at once |
| Buckets.Distinct | src/main/java/com/lrezek/easydispatch/handle/HandlerRegistry.java:184 | `distinct()` keeps every element, each once |
| Registry.Build | src/main/java/com/lrezek/easydispatch/handle/HandlerRegistry.java:85 | a Handler is built exactly when the factory succeeds with at least one meta; a reflection error is passed on as it is; a class declaring nothing is refused |
| Registry.BuildAll | src/main/java/com/lrezek/easydispatch/handle/HandlerRegistry.java:83-86 | `Build` for each object in order, with serials from `n`, stopping at the first failure; `BuildAllSucceedsIff` and `BuildAllFailsAtFirst` state its outcome |
| Registry.BuildAllSucceedsIff | src/main/java/com/lrezek/easydispatch/handle/HandlerRegistry.java:83-86 | building all objects succeeds exactly when each object can be built, and then holds each object's Handler, in order, with consecutive serials |
| Registry.BuildAllFailsAtFirst | src/main/java/com/lrezek/easydispatch/handle/HandlerRegistry.java:83-86 | a failing build reports the error of the first object that cannot be built; every earlier object could be |
| Registry.BuildAllStopsAtFirstFailure | src/main/java/com/lrezek/easydispatch/handle/HandlerRegistry.java:83-86 | once a prefix is built, the first failing object decides the outcome of the whole build |
| Registry.Select | src/main/java/com/lrezek/easydispatch/handle/HandlerRegistry.java:119-120 | holds exactly the Handlers that pass the filter |
| Registry.MatchedByMembers | src/main/java/com/lrezek/easydispatch/handle/HandlerRegistry.java:116-121 | a Handler is removed exactly when it is registered and some argument matches it |
| Registry.MatchedByAny | src/main/java/com/lrezek/easydispatch/handle/HandlerRegistry.java:116-121 | the Handlers removed over all arguments are those registered that some argument matches |
| Registry.ClassRemovalAsWrittenMissesUserClasses | src/main/java/com/lrezek/easydispatch/handle/HandlerRegistry.java:144 | as written, naming only handler-object classes selects no Handler, and the index is unchanged |
| Registry.ClassRemovalAsIntendedRemovesInstances | src/main/java/com/lrezek/easydispatch/handle/HandlerRegistry.java:129-145 | as documented, the Handlers left are exactly those whose object is an instance of none of the classes |
| Registry.HandlerRegistry.constructor | src/main/java/com/lrezek/easydispatch/handle/HandlerRegistry.java:46-55 | an empty registry with caching off and no cache |
| Registry.HandlerRegistry.GetMetaInfo | src/main/java/com/lrezek/easydispatch/handle/HandlerRegistry.java:255-274 | with caching off the factory runs; with caching on and a null cache it fails with the NullPointerException of `contains`; otherwise a cached entry is returned as it is, else the factory runs and a successful result is cached; a failing run caches nothing; the index is untouched; while the classes the factory ran for under the cache are all still cached, they stay cached and none is run twice, and a cache cleared by its holder is simply refilled |
| Registry.HandlerRegistry.AddToHandledBuckets | src/main/java/com/lrezek/easydispatch/handle/HandlerRegistry.java:89-98 | the Handler is appended to the bucket of every class it handles |
| Registry.HandlerRegistry.BuildNext | src/main/java/com/lrezek/easydispatch/handle/HandlerRegistry.java:85 | the next object's Handler is built through `getMetaInfo`, numbered next and appended to those built so far; it wraps the object and has at least one meta; caching on with a null cache fails; with a faithful cache this is one step of `BuildAll` (or its final failure); the cache either is unchanged or gains exactly the object's class, which was not cached, with the factory's metas, and the run log grows by that class alone (`CacheStep`); on success with caching on the object's class is cached |
| Registry.HandlerRegistry.BuildHandlers | src/main/java/com/lrezek/easydispatch/handle/HandlerRegistry.java:80-86 | every object gets its Handler, in order, with consecutive serials; the index is untouched; caching on with a null cache fails at the first object; with a faithful cache the outcome is `BuildAll`; the cache keeps every entry as it was, new entries hold the factory's metas, the factory ran only for the objects' classes that were not cached, and on success with caching on every object's class is cached (`CacheGrows`) |
| Registry.CacheGrowsTrans | src/main/java/com/lrezek/easydispatch/handle/HandlerRegistry.java:75-103 | two cache growths in a row, such as two `add` calls, are one growth over both calls' classes: entries kept, the run log extended, new runs only for classes uncached at the start, new entries the factory's |
| Registry.CacheGrowsStep | src/main/java/com/lrezek/easydispatch/handle/HandlerRegistry.java:83-86 | a growth followed by one more `getMetaInfo` for one of the objects' classes is still a growth |
| Registry.HandlerRegistry.IndexHandlers | src/main/java/com/lrezek/easydispatch/handle/HandlerRegistry.java:89-98 | the index becomes `IndexAll` of the old index and the Handlers, stays well formed, and the serials move past them |
| Registry.HandlerRegistry.Add | src/main/java/com/lrezek/easydispatch/handle/HandlerRegistry.java:75-103 | on success each object's Handler is indexed, in order; on failure the index is unchanged; no objects change nothing, neither the index nor the meta cache; caching on with a null cache fails for any object; the index stays well formed; the meta cache grows as for `BuildHandlers`, also when a later object fails, and on success with caching on every object's class is cached |
| Registry.HandlerRegistry.RemoveHandler | src/main/java/com/lrezek/easydispatch/handle/HandlerRegistry.java:242-247 | the Handler leaves every bucket; other Handlers stay, in order |
| Registry.HandlerRegistry.RemoveFromBuckets | src/main/java/com/lrezek/easydispatch/handle/HandlerRegistry.java:244-246 | `List.remove` on the bucket of each class named |
| Registry.HandlerRegistry.RemoveEach | src/main/java/com/lrezek/easydispatch/handle/HandlerRegistry.java:121 | every listed Handler leaves every bucket |
| Registry.HandlerRegistry.RemoveMatching | src/main/java/com/lrezek/easydispatch/handle/HandlerRegistry.java:117-121 | one argument's removal extends the removal of the earlier arguments' matches to this one's |
| Registry.HandlerRegistry.RemoveWhere | src/main/java/com/lrezek/easydispatch/handle/HandlerRegistry.java:116-122 | the Handlers some argument matches leave every bucket, the rest stay in order, and the index stays well formed |
| Registry.HandlerRegistry.Remove | src/main/java/com/lrezek/easydispatch/handle/HandlerRegistry.java:111-127 | exactly the Handlers whose object equals one of the arguments leave every bucket; the index stays well formed |
| Registry.HandlerRegistry.RemoveClasses | src/main/java/com/lrezek/easydispatch/handle/HandlerRegistry.java:135-151 | as written: exactly the Handlers whose wrapper is an instance of one of the classes leave every bucket |
| Registry.HandlerRegistry.RemoveInstancesOf | src/main/java/com/lrezek/easydispatch/handle/HandlerRegistry.java:129-145 | as documented: exactly the Handlers whose object is an instance of one of the classes leave every bucket |
| Registry.HandlerRegistry.Get | src/main/java/com/lrezek/easydispatch/handle/HandlerRegistry.java:159-169 | exactly the registered Handlers that handle the event's exact class, each once; the empty list when the class has no bucket |
| Registry.HandlerRegistry.GetAll | src/main/java/com/lrezek/easydispatch/handle/HandlerRegistry.java:176-185 | every registered Handler exactly once |
| Registry.HandlerRegistry.DisableMetaCaching | src/main/java/com/lrezek/easydispatch/handle/HandlerRegistry.java:192-206 | an installed cache is cleared and dropped; caching is off; the index is untouched |
| Registry.HandlerRegistry.EnableMetaCaching | src/main/java/com/lrezek/easydispatch/handle/HandlerRegistry.java:224-235 | the old cache is cleared; the given cache, possibly null, is installed, with its entries unchanged, and caching is on |
| Registry.HandlerRegistry.EnableDefaultMetaCaching | src/main/java/com/lrezek/easydispatch/handle/HandlerRegistry.java:213-216 | a fresh, empty map-backed cache is installed and caching is on |
| Dispatching.VisitsFrom | src/main/java/com/lrezek/easydispatch/dispatch/Dispatcher.java:75-84 | from one Handler on, the dispatch visits that Handler's Handles, then those of the rest |
| Dispatching.VisitsInHandlerOrder | src/main/java/com/lrezek/easydispatch/dispatch/Dispatcher.java:75-84 | a Handler's Handles come after those of every earlier Handler and before those of every later one |
| Dispatching.VisitsConcat | src/main/java/com/lrezek/easydispatch/dispatch/Dispatcher.java:75-84 | visiting two lists of Handlers in turn visits their concatenation |
| Dispatching.VisitsMatch | src/main/java/com/lrezek/easydispatch/dispatch/Dispatcher.java:81 | every visited Handle belongs to one of the Handlers and handles exactly the event's class; one visit per matching meta |
| Dispatching.Pick | src/main/java/com/lrezek/easydispatch/dispatch/Dispatcher.java:90 | under `dispatch`, the registry's `get(the Handle's strategy class, fallback)`; under `dispatchWith`, the one given strategy; None stands for null |
| Dispatching.PickResolves | src/main/java/com/lrezek/easydispatch/dispatch/Dispatcher.java:90 | under `dispatch` a Handle's declared class wins when it is not the sentinel and is registered, otherwise the fallback; under `dispatchWith` the Handle plays no part |
| Dispatching.StepAt | src/main/java/com/lrezek/easydispatch/dispatch/Dispatcher.java:90-100 | one Handle: a null strategy or a null result is a NullPointerException, an exception the strategy throws escapes, otherwise the returned result is added |
| Dispatching.Run | src/main/java/com/lrezek/easydispatch/dispatch/Dispatcher.java:78-103 | the specification of a dispatch: `StepAt` for each Handle in order, each strategy seeing the results before it; a STOP result ends it after that result, a failing step ends it with its exception; its properties are the lemmas below |
| Dispatching.Dispatched | src/main/java/com/lrezek/easydispatch/dispatch/Dispatcher.java:66-108 | `Run` over the Handles of the given Handlers for the event, in order, from no results |
| Dispatching.RunExtends | src/main/java/com/lrezek/easydispatch/dispatch/Dispatcher.java:93-96 | the results grow only by appending, at most one per Handle |
| Dispatching.RunStepAt | src/main/java/com/lrezek/easydispatch/dispatch/Dispatcher.java:87-96 | the k-th result is what the k-th Handle's step added: its chosen strategy was not null and returned it normally, having seen exactly the results before it |
| Dispatching.RunStopsOnlyAtEnd | src/main/java/com/lrezek/easydispatch/dispatch/Dispatcher.java:98-102 | every result but the last says CONTINUE |
| Dispatching.AllContinueVisitsAll | src/main/java/com/lrezek/easydispatch/dispatch/flow/DispatchFlowControls.java:39 | a successful dispatch in which no result says STOP has exactly one result per visited Handle |
| Dispatching.StopEndsDispatch | src/main/java/com/lrezek/easydispatch/dispatch/flow/DispatchFlowControls.java:44-45 | a STOP result is the last one: no Handle after it is dispatched to |
| Dispatching.ResultsComeFromHandlers | src/main/java/com/lrezek/easydispatch/dispatch/Dispatcher.java:93 | there are at most as many results as matching Handles; when strategies build their results from the Handle, each names a given Handler and the event |
| Dispatching.StopAsWrittenRaises | src/main/java/com/lrezek/easydispatch/dispatch/flow/DispatchFlowControls.java:47-50 | as written, every dispatch whose last result says STOP raises a NullPointerException; every other dispatch is unaffected |
| Dispatching.StopAsWrittenExample | src/main/java/com/lrezek/easydispatch/dispatch/flow/DispatchFlowControls.java:48 | one Handle whose strategy says STOP: documented, one result; as written, a NullPointerException |
| Dispatching.StepAtFromHandle | src/main/java/com/lrezek/easydispatch/dispatch/Dispatcher.java:93 | a step that adds a result, under strategies that build it from the Handle, adds one naming the Handle's Handler and the event |
| Dispatching.RunFailures | src/main/java/com/lrezek/easydispatch/dispatch/Dispatcher.java:90-99 | a dispatch fails with a NullPointerException or with an exception some visited Handle's strategy threw; with strategies that return normally, only with a NullPointerException and only when some visited Handle's chosen strategy is null; a non-null fallback or forced strategy then always succeeds |
| Dispatching.RunStep | src/main/java/com/lrezek/easydispatch/dispatch/Dispatcher.java:87-102 | one Handle: a null strategy, a null result or a thrown exception fails the dispatch; otherwise the result is appended and STOP ends the dispatch |
| Dispatching.Drive | src/main/java/com/lrezek/easydispatch/dispatch/Dispatcher.java:66-108 | the nested loops over the Handler cursor and the Handle cursor produce exactly `Dispatched`: the results and their order, or the failure |
| Dispatching.DriveHandler | src/main/java/com/lrezek/easydispatch/dispatch/Dispatcher.java:78-103 | takes the next Handler and walks its Handles, continuing `Run` from where the earlier Handlers left it; the Handler cursor moves forward |
| Dispatching.DriveHandles | src/main/java/com/lrezek/easydispatch/dispatch/Dispatcher.java:84-103 | the inner loop continues `Run` over the rest of the current Handler's Handles; it ends on a failure, on a STOP that leaves nothing in either cursor, or at the next Handler |
| Dispatching.VisitNext | src/main/java/com/lrezek/easydispatch/dispatch/Dispatcher.java:87-102 | one Handle: picks the strategy, fails on null, otherwise dispatches, appends and runs the flow control, or fails as the strategy's call did, as `Run` prescribes |
| Dispatching.DispatchOne | src/main/java/com/lrezek/easydispatch/dispatch/Dispatcher.java:93-102 | a returned result, which saw the earlier results, is appended and its flow control runs on both cursors; a null result fails with a NullPointerException; a thrown exception escapes |
| Dispatching.Dispatcher.constructor | src/main/java/com/lrezek/easydispatch/dispatch/Dispatcher.java:50-56 | the registry holds the synchronous and the asynchronous strategy, and the synchronous one is the default |
| Dispatching.Dispatcher.Dispatch | src/main/java/com/lrezek/easydispatch/dispatch/Dispatcher.java:66-108 | the results are `Dispatched` with declared strategies and the given fallback; a failure is a NullPointerException or a strategy's exception; with a non-null fallback and strategies that return normally it cannot fail |
| Dispatching.Dispatcher.DispatchDefault | src/main/java/com/lrezek/easydispatch/dispatch/Dispatcher.java:166-170 | as `Dispatch` with the registry's default; with strategies that return normally it cannot fail while a default is set |
| Dispatching.Dispatcher.DispatchClass | src/main/java/com/lrezek/easydispatch/dispatch/Dispatcher.java:180-183 | as `Dispatch` with the class's strategy, or the default, as fallback; with strategies that return normally it cannot fail while a default is set |
| Dispatching.Dispatcher.DispatchWith | src/main/java/com/lrezek/easydispatch/dispatch/Dispatcher.java:118-157 | the results are `Dispatched` with the one strategy for every Handle; a null strategy with some Handle visited raises a NullPointerException; with strategies that return normally that is the only way it fails |
| Dispatching.Dispatcher.DispatchWithClass | src/main/java/com/lrezek/easydispatch/dispatch/Dispatcher.java:193-196 | as `DispatchWith` with the class's strategy or the default; both null with some Handle visited raises a NullPointerException; with strategies that return normally that is the only way it fails |
| Facade.EasyDispatch.constructor | src/main/java/com/lrezek/easydispatch/EasyDispatch.java:41-44 | an empty Handler registry with caching off and a dispatcher whose default is the synchronous strategy |
| Facade.EasyDispatch.DispatchStrategies | src/main/java/com/lrezek/easydispatch/EasyDispatch.java:146-149 | the dispatcher's own strategy registry |
| Facade.EasyDispatch.DispatchReaches | src/main/java/com/lrezek/easydispatch/EasyDispatch.java:58 | a dispatch over `get(object)` yields no more results than matching handle methods; when strategies build their results from the Handle, each names a registered Handler of the event's exact class and the event |
| Facade.EasyDispatch.Dispatch | src/main/java/com/lrezek/easydispatch/EasyDispatch.java:55-59 | dispatches to the Handlers registered for the event's class with the default strategy; with strategies that return normally it cannot fail while a default is set |
| Facade.EasyDispatch.DispatchClass | src/main/java/com/lrezek/easydispatch/EasyDispatch.java:72-75 | as `Dispatch`, falling back to the class's strategy or the default |
| Facade.EasyDispatch.DispatchFallback | src/main/java/com/lrezek/easydispatch/EasyDispatch.java:88-91 | as `Dispatch`, falling back to the given strategy; with strategies that return normally a non-null one cannot fail |
| Facade.EasyDispatch.DispatchWithClass | src/main/java/com/lrezek/easydispatch/EasyDispatch.java:104-107 | every Handle goes to the class's strategy or the default; both null with some Handle visited raises a NullPointerException; with strategies that return normally that is the only way it fails |
| Facade.EasyDispatch.DispatchWith | src/main/java/com/lrezek/easydispatch/EasyDispatch.java:120-123 | every Handle goes to the given strategy; a null one with some Handle visited raises a NullPointerException; with strategies that return normally that is the only way it fails |
| Facade.EasyDispatch.SynchronousDispatch | src/main/java/com/lrezek/easydispatch/EasyDispatch.java:131-134 | while the synchronous strategy is registered, every Handle goes to it, and with strategies that return normally the dispatch succeeds |

## Left out

- The reflective meta factory (`HandleMetaFactory`, annotation scanning, `setDefaultMethodName` at HandlerRegistry.java:63-66). It is the parameter `MetaFactory`: a function from a class to its metas or a reflection error.
- The construction of a `Handler` from its object and metas. The `Handler` class that HandlerRegistry.java and Dispatcher.java call (`getHandles`, `getHandledClasses`, `getObject`) is modelled abstractly. A Handler is refused when its class declares no handle at all, as the other handler classes do (HandlerObject.java:77-80).
- Threads, executors and the asynchronous, thread-pool and queued strategies' concurrency. Strategies are the abstract `Behaviour`. A future is described only by how its `get()` ends, and `InterruptedException` is a value.
- Flow controls other than CONTINUE and STOP. A result whose flow control is null is kept, and no flow control runs for it (Dispatcher.java:96-100); the model has no null flow control.
- Varargs arrays that are null, and null elements in them. `add`, `remove` and the strategy registry's `add`/`remove` take sequences, so the `!= null` guards have no counterpart. An `add` with a null element, which throws NullPointerException, is not modelled.
- Strategies see the results so far as a snapshot of values (`seq<ResultView>`), where the source hands them the live results list. A strategy that adds to or changes that list or the earlier results, or that returns a result object already in the list, is not modelled.
- A null dispatched object: `get(null)` and so `dispatch(null)` raise a NullPointerException at HandlerRegistry.java:161. An `Obj` is never null here.
- Registry.HandlerRegistry.GetAll: does not fix the order of its result, because it depends on `HashMap` iteration order.
- Registry.HandlerRegistry.Get: returns the bucket as a value. In the source it is the live list inside the index, so a caller's changes to it would reach the registry; that aliasing is not modelled.
- DispatchResults is a sequence of `DispatchResult` objects, not a class of its own.
- Registry.HandlerRegistry.BuildHandlers and Registry.HandlerRegistry.Add: relate the outcome to the factory only while every cache entry is what the factory produces (`CacheFaithful`). A cache installed with foreign entries is followed entry by entry by `GetMetaInfo`, but `BuildAll` then does not describe the outcome.
- Registry.HandlerRegistry.Add and Registry.HandlerRegistry.BuildHandlers: on failure do not say which earlier objects' classes were cached. `add` is all-or-nothing for the index but not for the meta cache: a failing `add` may already have cached the metas of earlier objects, and those entries stay. The contracts state only that the cache grows (`CacheGrows`).
- The getters `Dispatcher.dispatchStrategies()`, `EasyDispatch.dispatcher()` and `EasyDispatch.handlers()` are the `const` fields `strategies`, `dispatcher` and `handlers`.
- The `EasyDispatch` constructor takes the meta factory as a parameter; the source creates its own.
- `dispatchWith` passes the results so far to the strategy (Dispatcher.java:142).
- STOP is modelled as its documentation describes it: both cursors move to their end. The code as written raises instead; see Findings.
- `remove(Class...)` is modelled both as written (`RemoveClasses`) and as documented (`RemoveInstancesOf`); see Findings.

## Findings

| source | as written | input that shows it | evidently intended | confidence | as-written member | corrected member |
|---|---|---|---|---|---|---|
| src/main/java/com/lrezek/easydispatch/dispatch/flow/DispatchFlowControls.java:47-50 | STOP calls `forEachRemaining(null)` on both iterators; a list iterator rejects a null action with a NullPointerException | one registered Handle whose strategy sets STOP: the dispatch raises NullPointerException instead of returning its one result | both iterators move to their end and the dispatch returns the results so far | high, not executed | Dispatching.StopAsWrittenRaises | Flow.Execute |
| src/main/java/com/lrezek/easydispatch/handle/HandlerRegistry.java:144 | the class filter asks `isInstance` of the `Handler` wrapper, not of the handler object | `remove(MyHandler.class)` after `add(new MyHandler())`: nothing is removed; `remove(Object.class)` removes every Handler | remove the Handlers whose wrapped object is an instance of one of the classes, as the method's documentation says | high, not executed | Registry.ClassRemovalAsWrittenMissesUserClasses | Registry.ClassRemovalAsIntendedRemovesInstances |
