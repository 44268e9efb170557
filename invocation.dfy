/**
 * Invoking a Handle: calling its target method on the wrapped object and
 * turning every failure of the call into a result value.
 */
module Invocation {
  import opened Lang
  import opened Meta
  import opened Handling
  import opened Flow
  import opened Results

  /** How a reflective `Method.invoke` ends. */
  datatype CallOutcome =
    | Returns(value: JObject)       // the method returned normally
    | Throws(cause: Throwable)      // InvocationTargetException with this cause
    | AccessDenied(error: Throwable) // IllegalAccessException

  /** The target methods' behaviour: method, receiver, argument. Not modelled beyond its outcome. */
  type TargetCall = (MethodRef, Obj, Obj) -> CallOutcome

  /** The message of the EasyDispatchException built for an access failure. */
  function AccessFailureMessage(name: string): string
  {
    "Failed to access " + name
  }

  /** The value `invoke` stores for a call outcome. */
  function CapturedValue(c: CallOutcome, methodName: string): (v: JObject)
    ensures c.Returns? ==> v == c.value
    ensures c.Throws? ==> v == Thrown(c.cause)
    ensures c.AccessDenied? ==> v == EasyDispatchError(AccessFailureMessage(methodName), c.error)
  {
    match c
    case Returns(value) => value
    case Throws(cause) => Thrown(cause)
    case AccessDenied(error) => EasyDispatchError(AccessFailureMessage(methodName), error)
  }

  /** A failing call never looks like a pending result: `getResult` hands its failure back unchanged. */
  lemma CapturedFailureIsFinal(c: CallOutcome, methodName: string)
    requires !c.Returns?
    ensures Unwrap(CapturedValue(c, methodName)) == Yields(CapturedValue(c, methodName))
    ensures CapturedValue(c, methodName).Thrown? || CapturedValue(c, methodName).EasyDispatchError?
  {
  }

  /**
   * `Handle.invoke`: calls the target method with the access flag on,
   * captures a thrown cause or an access failure as the result value, and
   * returns a fresh result naming the Handle's Handler and the dispatched
   * object. A method that was not accessible is made accessible for the
   * call and reset afterwards only when the call returns normally.
   */
  method Invoke(handle: Handle, toDispatch: Obj, call: TargetCall, flags: AccessFlags) returns (r: DispatchResult)
    modifies flags
    ensures fresh(r)
    ensures r.handler == handle.handler && r.dispatched == toDispatch && r.flowControl == Continue
    ensures r.result == CapturedValue(call(handle.GetMethod(), handle.handler.wrapped, toDispatch), handle.GetMethod().name)
    ensures var m := handle.GetMethod();
            flags.accessible == if old(flags.IsAccessible(m)) || !call(m, handle.handler.wrapped, toDispatch).Returns?
                                then old(flags.accessible) + {m} else old(flags.accessible)
  {
    var m := handle.GetMethod();
    var outcome: CallOutcome;
    if flags.IsAccessible(m) {
      outcome := call(m, handle.handler.wrapped, toDispatch);
    } else {
      flags.SetAccessible(m, true);
      outcome := call(m, handle.handler.wrapped, toDispatch);
      if outcome.Returns? {
        flags.SetAccessible(m, false);
      }
    }
    r := new DispatchResult.FromHandler(handle.handler, toDispatch, CapturedValue(outcome, m.name));
  }
}
