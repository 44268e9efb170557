/**
 * The dispatcher: walks the Handlers registered for an event and each
 * Handler's matching Handles, resolves a strategy per Handle, collects the
 * results in submission order and obeys the flow control of each result.
 */
module Dispatching {
  import opened Lang
  import opened Meta
  import opened Flow
  import opened Handling
  import opened Results
  import opened Strategies

  // ---------------------------------------------------------------------
  // The handles one dispatch visits

  /** The Handles a dispatch over `hs` offers the event, Handler by Handler, each in declared order. */
  function Visits(hs: seq<Handler>, event: Obj): seq<Handle>
  {
    if hs == [] then [] else hs[0].GetHandles(event) + Visits(hs[1..], event)
  }

  /** The number of metas of the Handlers of `hs` that handle the event's class. */
  function TotalHandles(hs: seq<Handler>, event: Obj): nat
  {
    if hs == [] then 0 else |Matching(hs[0].metas, event.cls)| + TotalHandles(hs[1..], event)
  }

  /** One Handler further: the visits from Handler `i` on are its Handles, then those of the rest. */
  lemma VisitsFrom(hs: seq<Handler>, event: Obj, i: nat)
    requires i < |hs|
    ensures Visits(hs[i..], event) == hs[i].GetHandles(event) + Visits(hs[i + 1..], event)
  {
    assert hs[i..][1..] == hs[i + 1..];
  }

  /**
   * The visits run in Handler order: everything Handler `i` offers comes
   * after all Handles of the Handlers before it and before all Handles of
   * the Handlers after it.
   */
  lemma VisitsInHandlerOrder(hs: seq<Handler>, event: Obj, i: nat)
    requires i < |hs|
    ensures Visits(hs, event) == Visits(hs[..i], event) + hs[i].GetHandles(event) + Visits(hs[i + 1..], event)
  {
    assert hs == hs[..i] + hs[i..];
    VisitsConcat(hs[..i], hs[i..], event);
    VisitsFrom(hs, event, i);
  }

  /** Visiting two lists of Handlers one after the other visits their concatenation. */
  lemma {:induction false} VisitsConcat(a: seq<Handler>, b: seq<Handler>, event: Obj)
    ensures Visits(a + b, event) == Visits(a, event) + Visits(b, event)
  {
    if a == [] {
      assert a + b == b;
    } else {
      var ab := a + b;
      assert ab[0] == a[0] && ab[1..] == a[1..] + b;
      VisitsConcat(a[1..], b, event);
      var h := a[0].GetHandles(event);
      assert Visits(ab, event) == h + Visits(ab[1..], event);
      assert Visits(a, event) == h + Visits(a[1..], event);
    }
  }

  /** Every visited Handle belongs to one of the Handlers and handles exactly the event's class. */
  lemma {:induction false} VisitsMatch(hs: seq<Handler>, event: Obj)
    ensures |Visits(hs, event)| == TotalHandles(hs, event)
    ensures forall k :: 0 <= k < |Visits(hs, event)| ==>
              Visits(hs, event)[k].handler in hs && Visits(hs, event)[k].GetHandledClass() == event.cls
  {
    if hs != [] {
      VisitsMatch(hs[1..], event);
      var first: seq<Handle> := hs[0].GetHandles(event);
      var rest: seq<Handle> := Visits(hs[1..], event);
      forall k: int | 0 <= k < |first + rest|
        ensures (first + rest)[k].handler in hs
      {
        if k >= |first| {
          assert (first + rest)[k] == rest[k - |first|];
          assert rest[k - |first|].handler in hs[1..];
        }
      }
    }
  }

  // ---------------------------------------------------------------------
  // Choosing a strategy

  /** How the strategy of each Handle is chosen. */
  datatype Selection =
      /**
       * `dispatch`: the strategy registered in `table` for the class the
       * Handle declares, or `fallback` when the Handle declares none (the
       * sentinel) or one that is not registered. None is Java's null.
       */
    | Declared(table: map<ClassId, Strategy>, fallback: Option<Strategy>)
      /** `dispatchWith`: the same strategy for every Handle, whatever it declares. */
    | Forced(strategy: Option<Strategy>)

  /** The strategy chosen for `handle`; None (null) makes the dispatch fail. */
  function Pick(sel: Selection, handle: Handle): Option<Strategy>
  {
    match sel
    case Declared(table, fallback) => Lookup(table, Some(handle.GetDispatchStrategy()), fallback)
    case Forced(strategy) => strategy
  }

  /**
   * Under `dispatch`, a Handle's declared strategy class wins when it is set
   * and registered; otherwise the fallback is used. Under `dispatchWith`
   * the declared class plays no part.
   */
  lemma PickResolves(sel: Selection, handle: Handle)
    ensures sel.Declared? ==>
              var cls := handle.GetDispatchStrategy();
              Pick(sel, handle) == if cls != Sentinel && cls in sel.table then Some(sel.table[cls]) else sel.fallback
    ensures sel.Forced? ==> forall other :: Pick(sel, other) == Pick(sel, handle)
  {
  }

  // ---------------------------------------------------------------------
  // What one dispatch produces

  /** What a dispatch does at one Handle: fail with an exception, or add one result. */
  datatype Step = Fails(error: Uncaught) | Adds(view: ResultView)

  /**
   * One Handle, after the results `prior`: a null strategy raises a
   * NullPointerException when it is called; so does a strategy that returns
   * null, when the result's flow control is read; an exception the strategy
   * throws escapes; otherwise the strategy's result is added.
   */
  function StepAt(sel: Selection, behaviour: Behaviour, handle: Handle, event: Obj, prior: seq<ResultView>): Step
  {
    match Pick(sel, handle)
    case None => Fails(NullPointer)
    case Some(s) =>
      match behaviour(s, handle, event, prior)
      case Returned(v) => Adds(v)
      case ReturnedNull => Fails(NullPointer)
      case Threw(t) => Fails(Raised(t))
  }

  /** A step that adds a result, under strategies that build it from the Handle, adds one naming the Handle's Handler and the event. */
  lemma StepAtFromHandle(sel: Selection, behaviour: Behaviour, handle: Handle, event: Obj, prior: seq<ResultView>)
    requires BuildsFromHandle(behaviour)
    requires StepAt(sel, behaviour, handle, event, prior).Adds?
    ensures StepAt(sel, behaviour, handle, event, prior).view.handler == handle.handler
    ensures StepAt(sel, behaviour, handle, event, prior).view.dispatched == event
  {
    var s := Pick(sel, handle).value;
    assert behaviour(s, handle, event, prior).Returned?;
  }

  /**
   * The results a dispatch over the Handles `todo` adds after the results
   * `done`: one result per Handle, in order, each strategy seeing the
   * results before it; a STOP result ends the dispatch after it; a failing
   * step ends it with its exception.
   */
  function Run(todo: seq<Handle>, event: Obj, sel: Selection, behaviour: Behaviour, done: seq<ResultView>)
    : Result<seq<ResultView>, Uncaught>
    decreases |todo|
  {
    if todo == [] then Success(done)
    else
      match StepAt(sel, behaviour, todo[0], event, done)
      case Fails(e) => Failure(e)
      case Adds(v) =>
        if v.flowControl == Stop then Success(done + [v])
        else Run(todo[1..], event, sel, behaviour, done + [v])
  }

  /** The whole dispatch of `event` to the Handlers `hs`. */
  function Dispatched(hs: seq<Handler>, event: Obj, sel: Selection, behaviour: Behaviour): Result<seq<ResultView>, Uncaught>
  {
    Run(Visits(hs, event), event, sel, behaviour, [])
  }

  /** A successful dispatch keeps the earlier results and adds at most one result per Handle. */
  lemma {:induction false} RunExtends(todo: seq<Handle>, event: Obj, sel: Selection, behaviour: Behaviour, done: seq<ResultView>)
    requires Run(todo, event, sel, behaviour, done).Success?
    ensures var vs := Run(todo, event, sel, behaviour, done).value;
            |done| <= |vs| <= |done| + |todo| && vs[..|done|] == done
    decreases |todo|
  {
    if todo != [] {
      var vs := Run(todo, event, sel, behaviour, done).value;
      var v := StepAt(sel, behaviour, todo[0], event, done).view;
      var done' := done + [v];
      if v.flowControl == Stop {
        assert vs == done';
      } else {
        RunExtends(todo[1..], event, sel, behaviour, done');
        assert vs[..|done'|] == done';
        assert vs[..|done|] == vs[..|done'|][..|done|];
      }
    }
  }

  /**
   * The k-th new result is what the k-th Handle's step added: its strategy
   * was not null, returned normally, and was called with exactly the
   * results before it.
   */
  lemma {:induction false} RunStepAt(todo: seq<Handle>, event: Obj, sel: Selection, behaviour: Behaviour, done: seq<ResultView>, k: nat)
    requires Run(todo, event, sel, behaviour, done).Success?
    requires |done| <= k < |Run(todo, event, sel, behaviour, done).value|
    ensures var vs := Run(todo, event, sel, behaviour, done).value;
            && k - |done| < |todo|
            && StepAt(sel, behaviour, todo[k - |done|], event, vs[..k]) == Adds(vs[k])
    decreases |todo|
  {
    var vs := Run(todo, event, sel, behaviour, done).value;
    var v := StepAt(sel, behaviour, todo[0], event, done).view;
    var done' := done + [v];
    if v.flowControl == Stop {
      assert vs == done';
      assert vs[..k] == done;
    } else {
      RunExtends(todo[1..], event, sel, behaviour, done');
      if k == |done| {
        assert vs[k] == vs[..|done'|][k];
        assert vs[..k] == vs[..|done'|][..k];
      } else {
        RunStepAt(todo[1..], event, sel, behaviour, done', k);
        assert todo[1..][k - |done'|] == todo[k - |done|];
      }
    }
  }

  /**
   * Every new result but the last says CONTINUE, and fewer results than
   * Handles means the last one said STOP.
   */
  lemma {:induction false} RunStopsOnlyAtEnd(todo: seq<Handle>, event: Obj, sel: Selection, behaviour: Behaviour, done: seq<ResultView>)
    requires Run(todo, event, sel, behaviour, done).Success?
    ensures var vs := Run(todo, event, sel, behaviour, done).value;
            && (forall k :: |done| <= k < |vs| - 1 ==> vs[k].flowControl == Continue)
            && (|vs| < |done| + |todo| ==> |vs| > |done| && vs[|vs| - 1].flowControl == Stop)
    decreases |todo|
  {
    if todo != [] {
      var vs := Run(todo, event, sel, behaviour, done).value;
      var v := StepAt(sel, behaviour, todo[0], event, done).view;
      var done' := done + [v];
      if v.flowControl == Stop {
        assert vs == done';
      } else {
        RunStopsOnlyAtEnd(todo[1..], event, sel, behaviour, done');
        RunExtends(todo[1..], event, sel, behaviour, done');
        assert vs[|done|] == vs[..|done'|][|done|];
      }
    }
  }

  /** When no result says STOP, there is one result per visited Handle. */
  lemma AllContinueVisitsAll(todo: seq<Handle>, event: Obj, sel: Selection, behaviour: Behaviour, done: seq<ResultView>)
    requires Run(todo, event, sel, behaviour, done).Success?
    requires forall k :: |done| <= k < |Run(todo, event, sel, behaviour, done).value| ==>
               Run(todo, event, sel, behaviour, done).value[k].flowControl == Continue
    ensures |Run(todo, event, sel, behaviour, done).value| == |done| + |todo|
  {
    RunExtends(todo, event, sel, behaviour, done);
    RunStopsOnlyAtEnd(todo, event, sel, behaviour, done);
  }

  /** A STOP on the k-th new result ends the dispatch there: there are exactly k results and no strategy call follows. */
  lemma StopEndsDispatch(todo: seq<Handle>, event: Obj, sel: Selection, behaviour: Behaviour, done: seq<ResultView>, k: nat)
    requires Run(todo, event, sel, behaviour, done).Success?
    requires |done| <= k < |Run(todo, event, sel, behaviour, done).value|
    requires Run(todo, event, sel, behaviour, done).value[k].flowControl == Stop
    ensures |Run(todo, event, sel, behaviour, done).value| == k + 1
  {
    RunStopsOnlyAtEnd(todo, event, sel, behaviour, done);
  }

  /**
   * A successful dispatch has no more results than matching handle
   * methods. When every strategy builds its result from the Handle, each
   * result names one of the Handlers it was given and the dispatched object.
   */
  lemma ResultsComeFromHandlers(hs: seq<Handler>, event: Obj, sel: Selection, behaviour: Behaviour)
    requires Dispatched(hs, event, sel, behaviour).Success?
    ensures |Dispatched(hs, event, sel, behaviour).value| <= TotalHandles(hs, event)
    ensures BuildsFromHandle(behaviour) ==>
              var vs := Dispatched(hs, event, sel, behaviour).value;
              forall k :: 0 <= k < |vs| ==> vs[k].handler in hs && vs[k].dispatched == event
  {
    var todo := Visits(hs, event);
    var vs := Dispatched(hs, event, sel, behaviour).value;
    RunExtends(todo, event, sel, behaviour, []);
    VisitsMatch(hs, event);
    if BuildsFromHandle(behaviour) {
      forall k | 0 <= k < |vs|
        ensures vs[k].handler in hs && vs[k].dispatched == event
      {
        RunStepAt(todo, event, sel, behaviour, [], k);
        StepAtFromHandle(sel, behaviour, todo[k], event, vs[..k]);
      }
    }
  }

  /**
   * The dispatch as the STOP flow control is written: it calls
   * `forEachRemaining(null)` on the handle cursor, and every standard list
   * iterator rejects a null action with a NullPointerException before
   * looking at the remaining elements. So a STOP result is added and then
   * the whole dispatch raises.
   */
  function RunAsWritten(todo: seq<Handle>, event: Obj, sel: Selection, behaviour: Behaviour, done: seq<ResultView>)
    : Result<seq<ResultView>, Uncaught>
    decreases |todo|
  {
    if todo == [] then Success(done)
    else
      match StepAt(sel, behaviour, todo[0], event, done)
      case Fails(e) => Failure(e)
      case Adds(v) =>
        if v.flowControl == Stop then Failure(NullPointer)
        else RunAsWritten(todo[1..], event, sel, behaviour, done + [v])
  }

  /**
   * As written, a dispatch agrees with the documented one except that
   * every dispatch the documented STOP would end raises a
   * NullPointerException instead of returning its results.
   */
  lemma {:induction false} StopAsWrittenRaises(todo: seq<Handle>, event: Obj, sel: Selection, behaviour: Behaviour, done: seq<ResultView>)
    ensures var r := Run(todo, event, sel, behaviour, done);
            RunAsWritten(todo, event, sel, behaviour, done)
            == if r.Success? && |r.value| > |done| && r.value[|r.value| - 1].flowControl == Stop then Failure(NullPointer) else r
    decreases |todo|
  {
    if todo != [] && StepAt(sel, behaviour, todo[0], event, done).Adds? {
      var v := StepAt(sel, behaviour, todo[0], event, done).view;
      if v.flowControl == Stop {
        assert Run(todo, event, sel, behaviour, done) == Success(done + [v]);
      } else {
        StopAsWrittenRaises(todo[1..], event, sel, behaviour, done + [v]);
        var r := Run(todo[1..], event, sel, behaviour, done + [v]);
        if r.Success? {
          RunExtends(todo[1..], event, sel, behaviour, done + [v]);
          if |r.value| == |done| + 1 {
            assert r.value == done + [v];
          }
        }
      }
    }
  }

  /**
   * The smallest witness: one Handle whose strategy returns a STOP result.
   * The documented dispatch returns that one result; as written it raises.
   */
  lemma StopAsWrittenExample(h: Handle, event: Obj, s: Strategy, behaviour: Behaviour)
    requires behaviour(s, h, event, []).Returned? && behaviour(s, h, event, []).view.flowControl == Stop
    ensures Run([h], event, Forced(Some(s)), behaviour, []) == Success([behaviour(s, h, event, []).view])
    ensures RunAsWritten([h], event, Forced(Some(s)), behaviour, []) == Failure(NullPointer)
  {
    var v := behaviour(s, h, event, []).view;
    assert StepAt(Forced(Some(s)), behaviour, [h][0], event, []) == Adds(v);
    assert [] + [v] == [v];
  }

  /** Whether a null strategy can be chosen. */
  predicate NeverNull(sel: Selection)
  {
    match sel
    case Declared(_, fallback) => fallback.Some?
    case Forced(strategy) => strategy.Some?
  }

  /**
   * How a dispatch can fail: with a NullPointerException (a null strategy,
   * or one that returned null), or with an exception a strategy threw. With
   * strategies that return normally, only a null strategy makes it fail,
   * so a non-null fallback (or forced strategy) makes it succeed.
   */
  lemma {:induction false} RunFailures(todo: seq<Handle>, event: Obj, sel: Selection, behaviour: Behaviour, done: seq<ResultView>)
    ensures var r := Run(todo, event, sel, behaviour, done);
            r.Failure? ==> r.error == NullPointer || r.error.Raised?
    ensures var r := Run(todo, event, sel, behaviour, done);
            r.Failure? && r.error.Raised? ==>
              exists k, s, prior :: 0 <= k < |todo| && Pick(sel, todo[k]) == Some(s)
                                    && behaviour(s, todo[k], event, prior) == Threw(r.error.cause)
    ensures var r := Run(todo, event, sel, behaviour, done);
            r.Failure? && ReturnsNormally(behaviour) ==>
              r.error == NullPointer && exists k :: 0 <= k < |todo| && Pick(sel, todo[k]).None?
    ensures NeverNull(sel) && ReturnsNormally(behaviour) ==> Run(todo, event, sel, behaviour, done).Success?
    decreases |todo|
  {
    if todo != [] {
      var step := StepAt(sel, behaviour, todo[0], event, done);
      if step.Fails? {
        if Pick(sel, todo[0]).Some? {
          var s := Pick(sel, todo[0]).value;
          assert step.error.Raised? ==> behaviour(s, todo[0], event, done) == Threw(step.error.cause);
        }
      } else if step.view.flowControl == Continue {
        var r := Run(todo, event, sel, behaviour, done);
        RunFailures(todo[1..], event, sel, behaviour, done + [step.view]);
        if r.Failure? {
          if r.error.Raised? {
            var k, s, prior :| 0 <= k < |todo[1..]| && Pick(sel, todo[1..][k]) == Some(s)
                               && behaviour(s, todo[1..][k], event, prior) == Threw(r.error.cause);
            assert todo[1..][k] == todo[k + 1];
          }
          if ReturnsNormally(behaviour) {
            var k :| 0 <= k < |todo[1..]| && Pick(sel, todo[1..][k]).None?;
            assert todo[1..][k] == todo[k + 1];
          }
        }
      }
    }
  }

  // ---------------------------------------------------------------------
  // The loops

  /** One step of a dispatch: a failing step fails it, any other adds one result. */
  lemma RunStep(todo: seq<Handle>, event: Obj, sel: Selection, behaviour: Behaviour, done: seq<ResultView>)
    requires todo != []
    ensures StepAt(sel, behaviour, todo[0], event, done).Fails? ==>
              Run(todo, event, sel, behaviour, done) == Failure(StepAt(sel, behaviour, todo[0], event, done).error)
    ensures StepAt(sel, behaviour, todo[0], event, done).Adds? ==>
            var v := StepAt(sel, behaviour, todo[0], event, done).view;
            Run(todo, event, sel, behaviour, done)
            == if v.flowControl == Stop then Success(done + [v]) else Run(todo[1..], event, sel, behaviour, done + [v])
  {
  }

  /** A dispatch's results, read as values, are those the specification gives. */
  predicate Produces(r: Result<seq<DispatchResult>, Uncaught>, spec: Result<seq<ResultView>, Uncaught>)
    reads if r.Success? then set x | x in r.value else {}
  {
    match r
    case Success(rs) => spec.Success? && Views(rs) == spec.value
    case Failure(e) => spec == Failure(e)
  }

  /**
   * The Handles a dispatch still has to visit: those of the current
   * Handler from position `j` on, then those of the Handlers from `i` on.
   */
  ghost function Ahead(hs: seq<Handler>, i: nat, handles: seq<Handle>, j: nat, event: Obj): seq<Handle>
    requires i <= |hs| && j <= |handles|
  {
    handles[j..] + Visits(hs[i..], event)
  }

  /** Taking the next Handle of the current Handler. */
  lemma AheadNextHandle(hs: seq<Handler>, i: nat, handles: seq<Handle>, j: nat, event: Obj)
    requires i <= |hs| && j < |handles|
    ensures Ahead(hs, i, handles, j, event) != []
    ensures Ahead(hs, i, handles, j, event)[0] == handles[j]
    ensures Ahead(hs, i, handles, j, event)[1..] == Ahead(hs, i, handles, j + 1, event)
  {
    assert handles[j..][1..] == handles[j + 1..];
  }

  /** Moving on to the next Handler, before any of its Handles. */
  lemma AheadNextHandler(hs: seq<Handler>, i: nat, event: Obj)
    requires i < |hs|
    ensures Visits(hs[i..], event) == Ahead(hs, i + 1, hs[i].GetHandles(event), 0, event)
  {
    VisitsFrom(hs, event, i);
    assert hs[i].GetHandles(event)[0..] == hs[i].GetHandles(event);
  }

  /**
   * The two nested loops of `dispatch` and `dispatchWith`: a cursor over
   * the Handlers and, for each, a cursor over its Handles for the event;
   * each Handle's result is appended and its flow control is run against
   * both cursors.
   */
  method Drive(event: Obj, hs: seq<Handler>, sel: Selection, behaviour: Behaviour)
    returns (r: Result<seq<DispatchResult>, Uncaught>)
    ensures Produces(r, Dispatched(hs, event, sel, behaviour))
  {
    ghost var spec := Dispatched(hs, event, sel, behaviour);
    var results: seq<DispatchResult> := [];
    ghost var stopped := false;
    var handlers := new Cursor(hs);
    assert hs[0..] == hs;
    while handlers.HasNext()
      invariant handlers.Valid() && handlers.items == hs
      invariant !stopped ==> spec == Run(Visits(hs[handlers.index..], event), event, sel, behaviour, Views(results))
      invariant stopped ==> spec == Success(Views(results)) && !handlers.HasNext()
      decreases |hs| - handlers.index
    {
      var outcome;
      outcome, stopped := DriveHandler(event, hs, sel, behaviour, handlers, results, spec);
      if outcome.Failure? {
        return outcome;
      }
      results := outcome.value;
    }
    r := Success(results);
  }

  /**
   * One pass of the outer loop: take the next Handler and walk its Handles
   * for the event. It ends with a failure, with a STOP that exhausted both
   * cursors, or with the Handler's Handles used up and the Handler cursor
   * just past it.
   */
  method DriveHandler(event: Obj, hs: seq<Handler>, sel: Selection, behaviour: Behaviour,
                      handlers: Cursor<Handler>, done: seq<DispatchResult>, ghost spec: Result<seq<ResultView>, Uncaught>)
    returns (r: Result<seq<DispatchResult>, Uncaught>, stopped: bool)
    requires handlers.Valid() && handlers.items == hs && handlers.HasNext()
    requires spec == Run(Visits(hs[handlers.index..], event), event, sel, behaviour, Views(done))
    modifies handlers
    ensures handlers.Valid() && old(handlers.index) < handlers.index
    ensures r.Failure? ==> spec == Failure(r.error)
    ensures r.Success? && stopped ==> spec == Success(Views(r.value)) && !handlers.HasNext()
    ensures r.Success? && !stopped ==>
              spec == Run(Visits(hs[handlers.index..], event), event, sel, behaviour, Views(r.value))
  {
    ghost var views := Views(done);
    AheadNextHandler(hs, handlers.index, event);
    var handler := handlers.Next();
    var handles := new Cursor(handler.GetHandles(event));
    assert Views(done) == views;
    r, stopped := DriveHandles(event, hs, sel, behaviour, handlers, handles, done, spec);
  }

  /**
   * The inner loop: walk the current Handler's Handles from the handle
   * cursor on, continuing the dispatch from the results `done`.
   */
  method DriveHandles(event: Obj, hs: seq<Handler>, sel: Selection, behaviour: Behaviour,
                      handlers: Cursor<Handler>, handles: Cursor<Handle>, done: seq<DispatchResult>,
                      ghost spec: Result<seq<ResultView>, Uncaught>)
    returns (r: Result<seq<DispatchResult>, Uncaught>, stopped: bool)
    requires handlers.Valid() && handles.Valid() && handlers.items == hs
    requires spec == Run(Ahead(hs, handlers.index, handles.items, handles.index, event), event, sel, behaviour, Views(done))
    modifies handlers, handles
    ensures handlers.Valid() && old(handlers.index) <= handlers.index
    ensures r.Failure? ==> spec == Failure(r.error)
    ensures r.Success? && stopped ==> spec == Success(Views(r.value)) && !handlers.HasNext()
    ensures r.Success? && !stopped ==>
              spec == Run(Visits(hs[handlers.index..], event), event, sel, behaviour, Views(r.value))
  {
    ghost var entry := handlers.index;
    var results := done;
    stopped := false;
    while handles.HasNext()
      invariant handlers.Valid() && handles.Valid() && entry <= handlers.index
      invariant !stopped ==> handlers.index == entry
      invariant !stopped ==> spec == Run(Ahead(hs, handlers.index, handles.items, handles.index, event), event, sel, behaviour, Views(results))
      invariant stopped ==> spec == Success(Views(results)) && !handlers.HasNext() && !handles.HasNext()
      decreases |handles.items| - handles.index
    {
      var outcome, flow := VisitNext(event, hs, sel, behaviour, handlers, handles, results);
      if outcome.Failure? {
        return outcome, false;
      }
      results := outcome.value;
      stopped := flow == Stop;
    }
    assert handles.items[handles.index..] == [];
    assert Ahead(hs, handlers.index, handles.items, handles.index, event) == Visits(hs[handlers.index..], event);
    r := Success(results);
  }

  /**
   * One pass of the inner loop: take the next Handle, choose its strategy
   * (a null one raises a NullPointerException), dispatch through it, add
   * the result and run its flow control.
   */
  method VisitNext(event: Obj, hs: seq<Handler>, sel: Selection, behaviour: Behaviour,
                   handlers: Cursor<Handler>, handles: Cursor<Handle>, results: seq<DispatchResult>)
    returns (r: Result<seq<DispatchResult>, Uncaught>, flow: FlowControl)
    requires handlers.Valid() && handles.Valid() && handlers.items == hs && handles.HasNext()
    modifies handlers, handles
    ensures handlers.Valid() && handles.Valid()
    ensures old(handlers.index) <= handlers.index && old(handles.index) < handles.index
    ensures var before := Run(old(Ahead(hs, handlers.index, handles.items, handles.index, event)), event, sel, behaviour, old(Views(results)));
            && (r.Failure? ==> before == Failure(r.error))
            && (r.Success? && flow == Stop ==> before == Success(Views(r.value)) && !handlers.HasNext() && !handles.HasNext())
            && (r.Success? && flow == Continue ==>
                  handlers.index == old(handlers.index)
                  && before == Run(Ahead(hs, handlers.index, handles.items, handles.index, event), event, sel, behaviour, Views(r.value)))
  {
    ghost var todo := Ahead(hs, handlers.index, handles.items, handles.index, event);
    AheadNextHandle(hs, handlers.index, handles.items, handles.index, event);
    ghost var prior := Views(results);
    RunStep(todo, event, sel, behaviour, prior);
    var handle := handles.Next();
    var strategy := Pick(sel, handle);
    if strategy.None? {
      return Failure(NullPointer), Continue;
    }
    r, flow := DispatchOne(behaviour, strategy.value, handle, event, results, handlers, handles);
    if r.Success? && flow == Continue {
      assert Ahead(hs, handlers.index, handles.items, handles.index, event) == todo[1..];
    }
  }

  /**
   * The body of the inner loop, once a non-null strategy is known: dispatch
   * the Handle through it and add the result, then run the result's flow
   * control against the two cursors. A null result is added too, but then
   * reading its flow control raises a NullPointerException; an exception
   * the strategy throws escapes.
   */
  method DispatchOne(behaviour: Behaviour, s: Strategy, handle: Handle, event: Obj, results: seq<DispatchResult>,
                     handlers: Cursor<Handler>, handles: Cursor<Handle>)
    returns (r: Result<seq<DispatchResult>, Uncaught>, flow: FlowControl)
    requires handlers.Valid() && handles.Valid()
    modifies handlers, handles
    ensures handlers.Valid() && handles.Valid()
    ensures old(handlers.index) <= handlers.index && old(handles.index) <= handles.index
    ensures var call := behaviour(s, handle, event, old(Views(results)));
            && (call.Threw? ==> r == Failure(Raised(call.cause)))
            && (call.ReturnedNull? ==> r == Failure(NullPointer))
            && (call.Returned? ==> r.Success? && Views(r.value) == old(Views(results)) + [call.view] && flow == call.view.flowControl)
    ensures r.Success? && flow == Continue ==> handlers.index == old(handlers.index) && handles.index == old(handles.index)
    ensures r.Success? && flow == Stop ==> !handlers.HasNext() && !handles.HasNext()
  {
    var call := DispatchVia(behaviour, s, handle, event, Views(results));
    if call.Failure? {
      return Failure(Raised(call.error)), Continue;
    }
    var result := call.value;
    if result == null {
      return Failure(NullPointer), Continue;
    }
    ViewsAppend(results, result);
    r := Success(results + [result]);
    flow := result.GetDispatchFlowControl();
    Execute(flow, handlers, handles);
  }

  /**
   * The dispatcher: a strategy registry of its own, preloaded with the two
   * built-in strategies, with the synchronous one as the default.
   */
  class Dispatcher {
    const strategies: DispatchStrategyRegistry

    ghost predicate Valid()
      reads this, strategies
    {
      strategies.Valid()
    }

    /** Registers the synchronous and asynchronous strategies and makes the synchronous one the default. */
    constructor ()
      ensures Valid() && fresh(strategies)
      ensures strategies.strategies
              == map[SynchronousStrategyClass := Synchronous, AsynchronousStrategyClass := Asynchronous, Sentinel := Synchronous]
      ensures strategies.GetDefault() == Some(Synchronous)
    {
      strategies := new DispatchStrategyRegistry();
      new;
      strategies.Add([Synchronous]);
      strategies.Add([Asynchronous]);
      var outcome := strategies.SetDefaultClass(Some(SynchronousStrategyClass));
    }

    /**
     * `dispatch(object, handlers, defaultStrategy)`: each Handle goes to the
     * strategy its annotation names when that one is registered, otherwise
     * to `fallback`. It fails only with a NullPointerException or with an
     * exception a strategy threw; with a non-null fallback and strategies
     * that return normally it cannot fail.
     */
    method Dispatch(event: Obj, hs: seq<Handler>, fallback: Option<Strategy>, behaviour: Behaviour)
      returns (r: Result<seq<DispatchResult>, Uncaught>)
      requires Valid()
      ensures Produces(r, Dispatched(hs, event, Declared(strategies.strategies, fallback), behaviour))
      ensures r.Failure? ==> r.error == NullPointer || r.error.Raised?
      ensures fallback.Some? && ReturnsNormally(behaviour) ==> r.Success?
    {
      r := Drive(event, hs, Declared(strategies.strategies, fallback), behaviour);
      RunFailures(Visits(hs, event), event, Declared(strategies.strategies, fallback), behaviour, []);
    }

    /** `dispatch(object, handlers)`: the registry's default is the fallback. */
    method DispatchDefault(event: Obj, hs: seq<Handler>, behaviour: Behaviour)
      returns (r: Result<seq<DispatchResult>, Uncaught>)
      requires Valid()
      ensures Produces(r, Dispatched(hs, event, Declared(strategies.strategies, strategies.GetDefault()), behaviour))
      ensures Sentinel in strategies.strategies && ReturnsNormally(behaviour) ==> r.Success?
    {
      r := Dispatch(event, hs, strategies.GetDefault(), behaviour);
    }

    /**
     * `dispatch(object, handlers, defaultStrategyClass)`: the fallback is the
     * strategy registered for the class, or the registry's default.
     */
    method DispatchClass(event: Obj, hs: seq<Handler>, cls: Option<ClassId>, behaviour: Behaviour)
      returns (r: Result<seq<DispatchResult>, Uncaught>)
      requires Valid()
      ensures Produces(r, Dispatched(hs, event, Declared(strategies.strategies, strategies.GetOrDefault(cls)), behaviour))
      ensures Sentinel in strategies.strategies && ReturnsNormally(behaviour) ==> r.Success?
    {
      r := Dispatch(event, hs, strategies.GetOrDefault(cls), behaviour);
    }

    /**
     * `dispatchWith(object, handlers, strategy)`: every Handle goes to
     * `strategy`, whatever its annotation says; a null strategy fails on
     * the first Handle, and with strategies that return normally only then.
     */
    method DispatchWith(event: Obj, hs: seq<Handler>, strategy: Option<Strategy>, behaviour: Behaviour)
      returns (r: Result<seq<DispatchResult>, Uncaught>)
      ensures Produces(r, Dispatched(hs, event, Forced(strategy), behaviour))
      ensures strategy.None? && Visits(hs, event) != [] ==> r == Failure(NullPointer)
      ensures ReturnsNormally(behaviour) ==> (r.Failure? <==> strategy.None? && Visits(hs, event) != [])
    {
      r := Drive(event, hs, Forced(strategy), behaviour);
      RunFailures(Visits(hs, event), event, Forced(strategy), behaviour, []);
    }

    /** `dispatchWith(object, handlers, strategyClass)`: the strategy registered for the class, or the default. */
    method DispatchWithClass(event: Obj, hs: seq<Handler>, cls: Option<ClassId>, behaviour: Behaviour)
      returns (r: Result<seq<DispatchResult>, Uncaught>)
      requires Valid()
      ensures Produces(r, Dispatched(hs, event, Forced(strategies.GetOrDefault(cls)), behaviour))
      ensures strategies.GetOrDefault(cls).None? && Visits(hs, event) != [] ==> r == Failure(NullPointer)
      ensures ReturnsNormally(behaviour) ==>
                (r.Failure? <==> strategies.GetOrDefault(cls).None? && Visits(hs, event) != [])
    {
      r := DispatchWith(event, hs, strategies.GetOrDefault(cls), behaviour);
    }
  }
}
