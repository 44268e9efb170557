/**
 * The library's entry point: a Handler registry and a dispatcher, with
 * every dispatch going to the Handlers registered for the event's class.
 */
module Facade {
  import opened Lang
  import opened Meta
  import opened Handling
  import opened Results
  import opened Strategies
  import opened Buckets
  import opened Registry
  import opened Dispatching

  class EasyDispatch {
    const handlers: HandlerRegistry
    const dispatcher: Dispatcher

    ghost predicate Valid()
      reads this, handlers, handlers.metaCache, dispatcher, dispatcher.strategies
    {
      handlers.Valid() && dispatcher.Valid()
    }

    /**
     * A facade over an empty registry (caching off) and a dispatcher whose
     * default strategy is the synchronous one.
     */
    constructor (metaFactory: MetaFactory)
      ensures Valid() && fresh(handlers) && fresh(dispatcher) && fresh(dispatcher.strategies)
      ensures handlers.handlers == map[] && handlers.metaFactory == metaFactory && !handlers.useMetaCache
      ensures dispatcher.strategies.GetDefault() == Some(Synchronous)
    {
      handlers := new HandlerRegistry(metaFactory);
      dispatcher := new Dispatcher();
    }

    /** The strategies a dispatch through the facade reaches: the dispatcher's registry. */
    function DispatchStrategies(): (r: DispatchStrategyRegistry)
      reads this
      ensures r == dispatcher.strategies
    {
      dispatcher.strategies
    }

    /**
     * What every dispatch through the facade has in common: exactly the
     * Handlers registered for the event's class are offered the event, and
     * each result names one of them and the event.
     */
    ghost predicate Reaches(r: Result<seq<DispatchResult>, Uncaught>, event: Obj)
      reads this, handlers, handlers.metaCache
      reads if r.Success? then set x | x in r.value else {}
      requires handlers.Valid()
    {
      r.Success? ==>
        forall k :: 0 <= k < |r.value| ==>
          && r.value[k].dispatched == event
          && r.value[k].handler in Registered(handlers.handlers)
          && event.cls in r.value[k].handler.HandledClasses()
    }

    /**
     * From the shape of a successful dispatch over the registered Handlers:
     * no more results than matching handle methods and, when every strategy
     * builds its result from the Handle it is given, `Reaches`.
     */
    lemma DispatchReaches(r: Result<seq<DispatchResult>, Uncaught>, event: Obj, sel: Selection, behaviour: Behaviour)
      requires handlers.Valid()
      requires Produces(r, Dispatched(handlers.Get(event), event, sel, behaviour))
      ensures r.Success? ==> |r.value| <= TotalHandles(handlers.Get(event), event)
      ensures BuildsFromHandle(behaviour) ==> Reaches(r, event)
    {
      if r.Success? {
        ResultsComeFromHandlers(handlers.Get(event), event, sel, behaviour);
      }
    }

    /** `dispatch(object)`: through the default strategy, or the one each Handle names. */
    method Dispatch(event: Obj, behaviour: Behaviour) returns (r: Result<seq<DispatchResult>, Uncaught>)
      requires Valid()
      ensures Produces(r, Dispatched(handlers.Get(event), event,
                                     Declared(dispatcher.strategies.strategies, dispatcher.strategies.GetDefault()), behaviour))
      ensures BuildsFromHandle(behaviour) ==> Reaches(r, event)
      ensures Sentinel in dispatcher.strategies.strategies && ReturnsNormally(behaviour) ==> r.Success?
    {
      r := dispatcher.DispatchDefault(event, handlers.Get(event), behaviour);
      DispatchReaches(r, event, Declared(dispatcher.strategies.strategies, dispatcher.strategies.GetDefault()), behaviour);
    }

    /** `dispatch(object, defaultStrategyClass)`. */
    method DispatchClass(event: Obj, cls: Option<ClassId>, behaviour: Behaviour) returns (r: Result<seq<DispatchResult>, Uncaught>)
      requires Valid()
      ensures Produces(r, Dispatched(handlers.Get(event), event,
                                     Declared(dispatcher.strategies.strategies, dispatcher.strategies.GetOrDefault(cls)), behaviour))
      ensures BuildsFromHandle(behaviour) ==> Reaches(r, event)
      ensures Sentinel in dispatcher.strategies.strategies && ReturnsNormally(behaviour) ==> r.Success?
    {
      r := dispatcher.DispatchClass(event, handlers.Get(event), cls, behaviour);
      DispatchReaches(r, event, Declared(dispatcher.strategies.strategies, dispatcher.strategies.GetOrDefault(cls)), behaviour);
    }

    /** `dispatch(object, defaultStrategy)`. */
    method DispatchFallback(event: Obj, fallback: Option<Strategy>, behaviour: Behaviour) returns (r: Result<seq<DispatchResult>, Uncaught>)
      requires Valid()
      ensures Produces(r, Dispatched(handlers.Get(event), event, Declared(dispatcher.strategies.strategies, fallback), behaviour))
      ensures BuildsFromHandle(behaviour) ==> Reaches(r, event)
      ensures fallback.Some? && ReturnsNormally(behaviour) ==> r.Success?
    {
      r := dispatcher.Dispatch(event, handlers.Get(event), fallback, behaviour);
      DispatchReaches(r, event, Declared(dispatcher.strategies.strategies, fallback), behaviour);
    }

    /** `dispatchWith(object, strategyClass)`. */
    method DispatchWithClass(event: Obj, cls: Option<ClassId>, behaviour: Behaviour) returns (r: Result<seq<DispatchResult>, Uncaught>)
      requires Valid()
      ensures Produces(r, Dispatched(handlers.Get(event), event, Forced(dispatcher.strategies.GetOrDefault(cls)), behaviour))
      ensures BuildsFromHandle(behaviour) ==> Reaches(r, event)
      ensures dispatcher.strategies.GetOrDefault(cls).None? && Visits(handlers.Get(event), event) != [] ==> r == Failure(NullPointer)
      ensures ReturnsNormally(behaviour) ==> (r.Failure? <==> dispatcher.strategies.GetOrDefault(cls).None? && Visits(handlers.Get(event), event) != [])
    {
      r := dispatcher.DispatchWithClass(event, handlers.Get(event), cls, behaviour);
      DispatchReaches(r, event, Forced(dispatcher.strategies.GetOrDefault(cls)), behaviour);
    }

    /** `dispatchWith(object, strategy)`. */
    method DispatchWith(event: Obj, strategy: Option<Strategy>, behaviour: Behaviour) returns (r: Result<seq<DispatchResult>, Uncaught>)
      requires Valid()
      ensures Produces(r, Dispatched(handlers.Get(event), event, Forced(strategy), behaviour))
      ensures BuildsFromHandle(behaviour) ==> Reaches(r, event)
      ensures strategy.None? && Visits(handlers.Get(event), event) != [] ==> r == Failure(NullPointer)
      ensures ReturnsNormally(behaviour) ==> (r.Failure? <==> strategy.None? && Visits(handlers.Get(event), event) != [])
    {
      r := dispatcher.DispatchWith(event, handlers.Get(event), strategy, behaviour);
      DispatchReaches(r, event, Forced(strategy), behaviour);
    }

    /**
     * `synchronousDispatch(object)`: `dispatchWith` the synchronous strategy
     * class; while that class is registered every Handle goes to it.
     */
    method SynchronousDispatch(event: Obj, behaviour: Behaviour) returns (r: Result<seq<DispatchResult>, Uncaught>)
      requires Valid()
      ensures Produces(r, Dispatched(handlers.Get(event), event,
                                     Forced(dispatcher.strategies.GetOrDefault(Some(SynchronousStrategyClass))), behaviour))
      ensures BuildsFromHandle(behaviour) ==> Reaches(r, event)
      ensures SynchronousStrategyClass in dispatcher.strategies.strategies ==>
                dispatcher.strategies.GetOrDefault(Some(SynchronousStrategyClass)).Some?
                && dispatcher.strategies.GetOrDefault(Some(SynchronousStrategyClass)).value.cls == SynchronousStrategyClass
      ensures SynchronousStrategyClass in dispatcher.strategies.strategies && ReturnsNormally(behaviour) ==> r.Success?
    {
      r := DispatchWithClass(event, Some(SynchronousStrategyClass), behaviour);
    }
  }
}
