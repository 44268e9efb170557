/**
 * The Java-level values the dispatch engine handles: class identities,
 * plain objects, throwables, futures, and the wrapper datatypes used for
 * the source's null returns and exceptions.
 */
module Lang {

  datatype Option<+T> = None | Some(value: T)

  datatype Result<+T, +E> = Success(value: T) | Failure(error: E)

  /** No element occurs twice. */
  predicate NoDuplicates<T(==)>(s: seq<T>)
  {
    forall i, j :: 0 <= i < j < |s| ==> s[i] != s[j]
  }

  /**
   * Identity of a Java class or interface. The engine only ever compares
   * classes for equality (dispatch keys are exact runtime classes).
   */
  datatype ClassId =
    | ObjectClass                 // java.lang.Object
    | HandlerClass                // the registry's own Handler wrapper class
    | DispatchStrategyInterface   // DispatchStrategy.class: "no strategy given"
    | SynchronousStrategyClass
    | AsynchronousStrategyClass
    | UserClass(name: string)

  /**
   * A non-null object: its runtime class, the further classes and
   * interfaces it is an instance of, and a serial number standing for
   * object identity. Two objects are `equals` exactly when equal here.
   */
  datatype Obj = Obj(cls: ClassId, supertypes: set<ClassId>, serial: nat)

  /** `c.isInstance(o)` */
  predicate InstanceOf(o: Obj, c: ClassId)
  {
    c == o.cls || c == ObjectClass || c in o.supertypes
  }

  datatype Throwable = Throwable(cls: ClassId, message: string, serial: nat)

  /** Any object a handle method can return or a strategy can store as a result. */
  datatype JObject =
    | Null
    | Instance(obj: Obj)
    | Thrown(throwable: Throwable)
    | EasyDispatchError(message: string, cause: Throwable)
    | Pending(future: Future)

  /** A `java.util.concurrent.Future`, described by how its `get()` ends. */
  datatype Future = Future(serial: nat, settles: Settlement)

  datatype Settlement =
      /** `get()` returns a DispatchResult whose own stored result is `inner`. */
    | YieldsResult(inner: JObject)
      /** `get()` returns an object that is not a DispatchResult (possibly null). */
    | YieldsOther(value: JObject)
      /** `get()` throws ExecutionException. */
    | FailsExecution(cause: Throwable)
      /** `get()` throws InterruptedException. */
    | Interrupted
      /** `get()` throws CancellationException. */
    | Cancelled

  /** Exceptions that escape an operation instead of being turned into values. */
  datatype Uncaught =
    | NullPointer
    | Cancellation
      /** An exception thrown by code the engine calls (a strategy's `dispatch`). */
    | Raised(cause: Throwable)
}
