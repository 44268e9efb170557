/**
 * Handlers (a wrapped handler object with its handle metas) and Handles
 * (one invokable binding of a Handler to one meta).
 */
module Handling {
  import opened Lang
  import opened Meta

  /** Why registering a handler object failed. */
  datatype RegistrationError =
    | ReflectionFailure(message: string)   // raised by the meta factory
    | NoHandles(cls: ClassId)              // the object's class declares no handle at all
    | MissingMetaCache                    // caching is on with a null cache: `contains` raises a NullPointerException

  /** The metas of `metas` that handle exactly `cls`, in their declared order. */
  function Matching(metas: seq<HandleMeta>, cls: ClassId): (r: seq<HandleMeta>)
    ensures forall m :: m in r <==> m in metas && m.handledClass == cls
    ensures |r| <= |metas|
  {
    if metas == [] then []
    else (if metas[0].handledClass == cls then [metas[0]] else []) + Matching(metas[1..], cls)
  }

  /**
   * A registered handler object. `serial` stands for the wrapper's object
   * identity: two Handlers built from the same object are still distinct.
   */
  datatype Handler = Handler(serial: nat, wrapped: Obj, metas: seq<HandleMeta>) {

    /** Every event class some meta of this Handler handles. */
    function HandledClasses(): set<ClassId>
    {
      set m | m in metas :: m.handledClass
    }

    /** The Handles this Handler offers for `event`, in declared order. */
    function GetHandles(event: Obj): (r: seq<Handle>)
      ensures |r| == |Matching(metas, event.cls)|
      ensures forall k :: 0 <= k < |r| ==> r[k].handler == this && r[k].meta == Matching(metas, event.cls)[k]
      ensures forall k :: 0 <= k < |r| ==> r[k].GetHandledClass() == event.cls
    {
      var ms := Matching(metas, event.cls);
      seq(|ms|, k requires 0 <= k < |ms| => Handle(this, ms[k]))
    }
  }

  /** A Handler has Handles for `cls` exactly when `cls` is one of its handled classes. */
  lemma HandledIffHandles(h: Handler, event: Obj)
    ensures event.cls in h.HandledClasses() <==> |h.GetHandles(event)| > 0
  {
    var ms := Matching(h.metas, event.cls);
    if |ms| > 0 {
      assert ms[0] in ms;
      assert ms[0].handledClass in h.HandledClasses();
    }
    if event.cls in h.HandledClasses() {
      var m :| m in h.metas && m.handledClass == event.cls;
      assert m in ms;
    }
  }

  /** Builds a Handler from an object and its metas; an object that declares nothing is refused. */
  function NewHandler(serial: nat, wrapped: Obj, metas: seq<HandleMeta>): (r: Result<Handler, RegistrationError>)
    ensures r.Success? <==> |metas| > 0
    ensures r.Success? ==> r.value.wrapped == wrapped && r.value.metas == metas && r.value.serial == serial
    ensures r.Success? ==> r.value.HandledClasses() != {}
    ensures r.Failure? ==> r.error == NoHandles(wrapped.cls)
  {
    if |metas| == 0 then Failure(NoHandles(wrapped.cls))
    else
      var h := Handler(serial, wrapped, metas);
      assert metas[0].handledClass in h.HandledClasses();
      Success(h)
  }

  /** One binding of a Handler to one of its metas. Immutable. */
  datatype Handle = Handle(handler: Handler, meta: HandleMeta) {

    function GetHandler(): Handler { handler }

    function GetMeta(): HandleMeta { meta }

    function GetMethod(): MethodRef { meta.target }

    /** The strategy class the meta asks for (the sentinel when none was given). */
    function GetDispatchStrategy(): ClassId { meta.dispatchStrategy }

    function GetHandledClass(): ClassId { meta.handledClass }
  }
}
