/**
 * The result of one handle invocation, and the unwrapping of pending
 * (future) results.
 */
module Results {
  import opened Lang
  import opened Handling
  import opened Flow

  /** What `getResult()` ends with: a value, or an exception that escapes it. */
  datatype Unwrapped = Yields(value: JObject) | Raises(exception: Uncaught)

  /** True for a future whose `get()` yields a DispatchResult, which `getResult` would open. */
  predicate Openable(o: JObject)
  {
    o.Pending? && o.future.settles.YieldsResult?
  }

  /**
   * Unwraps a stored result as `getResult` does: a non-future is returned as
   * it is; a future yielding a DispatchResult is replaced by that result's
   * own unwrapped result; a future that fails, is interrupted or yields a
   * non-DispatchResult is returned raw; a null yield or a cancellation
   * escapes as an exception.
   */
  function Unwrap(o: JObject): (r: Unwrapped)
    ensures !o.Pending? ==> r == Yields(o)
    ensures r.Yields? ==> !Openable(r.value)
    ensures r.Yields? && r.value != o ==> Openable(o)
  {
    if !o.Pending? then Yields(o)
    else
      match o.future.settles
      case YieldsResult(inner) => Unwrap(inner)
      case YieldsOther(v) => if v == Null then Raises(NullPointer) else Yields(o)
      case FailsExecution(_) => Yields(o)
      case Interrupted => Yields(o)
      case Cancelled => Raises(Cancellation)
  }

  /**
   * The number of nested DispatchResult-yielding futures `Unwrap` opens
   * before it reaches something else.
   */
  function Depth(o: JObject): nat
  {
    if Openable(o) then 1 + Depth(o.future.settles.inner) else 0
  }

  /** The innermost object reached by opening every DispatchResult-yielding future. */
  function Innermost(o: JObject): (r: JObject)
    ensures !Openable(r)
  {
    if Openable(o) then Innermost(o.future.settles.inner) else o
  }

  /**
   * Unwrapping through any depth of nesting is the same as unwrapping the
   * innermost object directly: opening a completed future is transparent.
   */
  lemma {:induction false} UnwrapIsUnwrapOfInnermost(o: JObject)
    ensures Unwrap(o) == Unwrap(Innermost(o))
    decreases Depth(o)
  {
    if Openable(o) {
      UnwrapIsUnwrapOfInnermost(o.future.settles.inner);
    }
  }

  /** A snapshot of a DispatchResult, as a value. */
  datatype ResultView = ResultView(handler: Handler, dispatched: Obj, result: JObject, flowControl: FlowControl)

  /** The result of one dispatch to one handle. Only the flow control can change. */
  class DispatchResult {
    const handler: Handler
    const dispatched: Obj
    const result: JObject
    var flowControl: FlowControl

    /** Built from the Handler the method was invoked in. */
    constructor FromHandler(handler: Handler, dispatched: Obj, result: JObject)
      ensures this.handler == handler && this.dispatched == dispatched && this.result == result
      ensures flowControl == Continue
    {
      this.handler := handler;
      this.dispatched := dispatched;
      this.result := result;
      flowControl := Continue;
    }

    /** Built from the Handle that was invoked: records the Handle's owning Handler. */
    constructor FromHandle(handle: Handle, dispatched: Obj, result: JObject)
      ensures this.handler == handle.handler && this.dispatched == dispatched && this.result == result
      ensures flowControl == Continue
    {
      this.handler := handle.GetHandler();
      this.dispatched := dispatched;
      this.result := result;
      flowControl := Continue;
    }

    function GetDispatchFlowControl(): FlowControl
      reads this
    {
      flowControl
    }

    /** Replaces the flow control; handler, dispatched object and result stay as they were. */
    method SetDispatchFlowControl(f: FlowControl)
      modifies this
      ensures GetDispatchFlowControl() == f
      ensures View() == old(View()).(flowControl := f)
    {
      flowControl := f;
    }

    function GetHandler(): Handler { handler }

    function GetDispatched(): Obj { dispatched }

    /** `getResult()`: the stored result with pending futures unwrapped. */
    function GetResult(): (r: Unwrapped)
      ensures !result.Pending? ==> r == Yields(result)
      ensures r.Yields? ==> !Openable(r.value)
    {
      Unwrap(result)
    }

    function View(): ResultView
      reads this
    {
      ResultView(handler, dispatched, result, flowControl)
    }
  }

  /** Snapshots of a sequence of results, in order. */
  function Views(rs: seq<DispatchResult>): (vs: seq<ResultView>)
    reads rs
    ensures |vs| == |rs|
    ensures forall k :: 0 <= k < |rs| ==> vs[k] == rs[k].View()
  {
    if rs == [] then [] else Views(rs[..|rs| - 1]) + [rs[|rs| - 1].View()]
  }

  /** Appending a result appends its snapshot. */
  lemma ViewsAppend(rs: seq<DispatchResult>, r: DispatchResult)
    ensures Views(rs + [r]) == Views(rs) + [r.View()]
  {
    assert (rs + [r])[..|rs|] == rs;
  }
}
