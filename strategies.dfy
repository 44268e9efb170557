/**
 * Dispatch strategies and the registry that maps strategy classes to
 * strategy instances, with the default held under a sentinel key.
 */
module Strategies {
  import opened Lang
  import opened Flow
  import opened Handling
  import opened Results

  /** A strategy instance: its runtime class and an identity. */
  datatype StrategyInstance = StrategyInstance(cls: ClassId, instance: nat)

  /**
   * A strategy object. Its runtime class is a concrete class, never the
   * `DispatchStrategy` interface itself, which serves as the sentinel key.
   */
  type Strategy = s: StrategyInstance | s.cls != DispatchStrategyInterface
    witness StrategyInstance(SynchronousStrategyClass, 0)

  /** The built-in strategy that runs the handle in the calling thread. */
  const Synchronous: Strategy := StrategyInstance(SynchronousStrategyClass, 0)

  /** The built-in strategy that hands the handle to an executor. */
  const Asynchronous: Strategy := StrategyInstance(AsynchronousStrategyClass, 0)

  /** The key under which the default strategy is stored. */
  const Sentinel: ClassId := DispatchStrategyInterface

  /**
   * How one call of a strategy's `dispatch` ends: it returns a result (seen
   * as a snapshot: the Handler and object it names, its value and its flow
   * control), it returns null, or it throws.
   */
  datatype StrategyCall = Returned(view: ResultView) | ReturnedNull | Threw(cause: Throwable)

  /**
   * The behaviour of every strategy: given the strategy, the handle, the
   * dispatched object and the results so far, how its `dispatch` ends.
   */
  type Behaviour = (Strategy, Handle, Obj, seq<ResultView>) -> StrategyCall

  /** Every call returns a non-null result. */
  ghost predicate ReturnsNormally(behaviour: Behaviour)
  {
    forall s, h, e, prior :: behaviour(s, h, e, prior).Returned?
  }

  /**
   * Every result returned names the Handle's own Handler and the dispatched
   * object, as a result built with `new DispatchResult(handle, object, ...)`
   * does.
   */
  ghost predicate BuildsFromHandle(behaviour: Behaviour)
  {
    forall s, h, e, prior :: behaviour(s, h, e, prior).Returned? ==>
      behaviour(s, h, e, prior).view.handler == h.handler && behaviour(s, h, e, prior).view.dispatched == e
  }

  /**
   * `DispatchStrategy.dispatch`: a fresh result carrying what the strategy
   * returned, null, or the exception it threw.
   */
  method DispatchVia(behaviour: Behaviour, s: Strategy, handle: Handle, event: Obj, prior: seq<ResultView>)
    returns (r: Result<DispatchResult?, Throwable>)
    ensures var call := behaviour(s, handle, event, prior);
            && (call.Returned? ==> r.Success? && r.value != null && fresh(r.value) && r.value.View() == call.view)
            && (call.ReturnedNull? ==> r == Success(null))
            && (call.Threw? ==> r == Failure(call.cause))
  {
    var call := behaviour(s, handle, event, prior);
    if call.Threw? {
      r := Failure(call.cause);
    } else if call.ReturnedNull? {
      r := Success(null);
    } else {
      var v := call.view;
      var result := new DispatchResult.FromHandler(v.handler, v.dispatched, v.result);
      result.SetDispatchFlowControl(v.flowControl);
      r := Success(result);
    }
  }

  /** The elements of a sequence of classes, as a set. */
  function ToSet(cs: seq<ClassId>): set<ClassId>
  {
    set c | c in cs
  }

  /** The classes of a sequence of strategies. */
  function Classes(ss: seq<Strategy>): set<ClassId>
  {
    set s | s in ss :: s.cls
  }

  /**
   * The table after putting each strategy under its own class, in order:
   * a class of `ss` ends up mapped to the last strategy of that class, every
   * other key keeps its entry.
   */
  function PutAll(table: map<ClassId, Strategy>, ss: seq<Strategy>): (r: map<ClassId, Strategy>)
    ensures r.Keys == table.Keys + Classes(ss)
    ensures forall c :: c in table && c !in Classes(ss) ==> r[c] == table[c]
    ensures ss != [] ==> r[ss[|ss| - 1].cls] == ss[|ss| - 1]
  {
    if ss == [] then table
    else
      var front := ss[..|ss| - 1];
      var last := ss[|ss| - 1];
      assert Classes(ss) == Classes(front) + {last.cls} by {
        assert forall s :: s in ss <==> s in front || s == last;
      }
      PutAll(table, front)[last.cls := last]
  }

  /** Every class of `ss` ends up mapped to the last strategy of that class in `ss`. */
  lemma {:induction false} PutAllLastWins(table: map<ClassId, Strategy>, ss: seq<Strategy>, k: nat)
    requires k < |ss|
    requires forall j :: k < j < |ss| ==> ss[j].cls != ss[k].cls
    ensures ss[k].cls in PutAll(table, ss) && PutAll(table, ss)[ss[k].cls] == ss[k]
  {
    if k < |ss| - 1 {
      var front := ss[..|ss| - 1];
      PutAllLastWins(table, front, k);
    }
  }

  /**
   * `get(class, fallback)` on a table: the strategy registered for `cls` when
   * `cls` is given (not null), is not the sentinel and is present; otherwise
   * exactly `fallback`.
   */
  function Lookup(table: map<ClassId, Strategy>, cls: Option<ClassId>, fallback: Option<Strategy>): (r: Option<Strategy>)
    ensures cls.Some? && cls.value != Sentinel && cls.value in table ==> r == Some(table[cls.value])
    ensures !(cls.Some? && cls.value != Sentinel && cls.value in table) ==> r == fallback
  {
    if cls.Some? && cls.value != Sentinel && cls.value in table then Some(table[cls.value]) else fallback
  }

  /** A table in which every non-sentinel key holds a strategy of that very class. */
  predicate WellKeyed(table: map<ClassId, Strategy>)
  {
    forall c :: c in table && c != Sentinel ==> table[c].cls == c
  }

  /** On a well-keyed table, a lookup that does not fall back yields a strategy of the class asked for. */
  lemma LookupFindsRequestedClass(table: map<ClassId, Strategy>, cls: Option<ClassId>, fallback: Option<Strategy>)
    requires WellKeyed(table)
    ensures var r := Lookup(table, cls, fallback);
            r != fallback ==> cls.Some? && r.Some? && r.value.cls == cls.value && r.value.cls != Sentinel
  {
  }

  /** Putting strategies under their own classes keeps a table well keyed and leaves the sentinel entry alone. */
  lemma {:induction false} PutAllKeepsWellKeyed(table: map<ClassId, Strategy>, ss: seq<Strategy>)
    requires WellKeyed(table)
    ensures WellKeyed(PutAll(table, ss))
    ensures (Sentinel in PutAll(table, ss)) == (Sentinel in table)
    ensures Sentinel in table ==> PutAll(table, ss)[Sentinel] == table[Sentinel]
  {
    if ss != [] {
      PutAllKeepsWellKeyed(table, ss[..|ss| - 1]);
    }
  }

  /** Why `setDefault(class)` refused. */
  datatype SetDefaultOutcome = DefaultSet | IllegalArgument(message: string)

  const NotRegisteredMessage: string := "Please add the required dispatch strategy before setting it as the default."

  /** The strategy registry: one strategy per class, plus the default under the sentinel key. */
  class DispatchStrategyRegistry {
    var strategies: map<ClassId, Strategy>

    ghost predicate Valid()
      reads this
    {
      WellKeyed(strategies)
    }

    /** An empty registry: no strategies and no default. */
    constructor ()
      ensures Valid() && strategies == map[]
    {
      strategies := map[];
    }

    /** `add(strategies...)`: each strategy under its own class, later ones replacing earlier. */
    method Add(ss: seq<Strategy>)
      requires Valid()
      modifies this
      ensures Valid()
      ensures strategies == PutAll(old(strategies), ss)
      ensures GetDefault() == old(GetDefault())
    {
      var i := 0;
      while i < |ss|
        invariant 0 <= i <= |ss|
        invariant strategies == PutAll(old(strategies), ss[..i])
        invariant Valid()
      {
        assert ss[..i + 1][..i] == ss[..i];
        strategies := strategies[ss[i].cls := ss[i]];
        i := i + 1;
      }
      assert ss[..|ss|] == ss;
      PutAllKeepsWellKeyed(old(strategies), ss);
    }

    /**
     * `remove(classes...)`: deletes exactly the given keys. Naming the
     * sentinel removes the default; naming the default's own class does not.
     */
    method Remove(classes: seq<ClassId>)
      requires Valid()
      modifies this
      ensures Valid()
      ensures strategies == old(strategies) - ToSet(classes)
      ensures Sentinel !in classes ==> GetDefault() == old(GetDefault())
    {
      var i := 0;
      while i < |classes|
        invariant 0 <= i <= |classes|
        invariant strategies == old(strategies) - ToSet(classes[..i])
        invariant Valid()
      {
        assert ToSet(classes[..i + 1]) == ToSet(classes[..i]) + {classes[i]} by {
          assert forall c :: c in classes[..i + 1] <==> c in classes[..i] || c == classes[i];
        }
        strategies := strategies - {classes[i]};
        i := i + 1;
      }
      assert classes[..|classes|] == classes;
    }

    /**
     * `setDefault(class)`: makes the strategy registered under `cls` the
     * default; refuses, changing nothing, when `cls` is null or has no entry.
     */
    method SetDefaultClass(cls: Option<ClassId>) returns (outcome: SetDefaultOutcome)
      requires Valid()
      modifies this
      ensures Valid()
      ensures outcome == DefaultSet <==> cls.Some? && cls.value in old(strategies)
      ensures outcome.IllegalArgument? ==> outcome.message == NotRegisteredMessage && strategies == old(strategies)
      ensures outcome == DefaultSet ==> strategies == old(strategies)[Sentinel := old(strategies)[cls.value]]
    {
      if cls.None? || cls.value !in strategies {
        return IllegalArgument(NotRegisteredMessage);
      }
      strategies := strategies[Sentinel := strategies[cls.value]];
      return DefaultSet;
    }

    /**
     * `setDefault(strategy)`: registers the strategy, then makes it the
     * default. A null strategy raises a NullPointerException in `add`, when
     * its class is asked for, before anything changes.
     */
    method SetDefault(s: Option<Strategy>) returns (outcome: Result<(), Uncaught>)
      requires Valid()
      modifies this
      ensures Valid()
      ensures s.None? ==> outcome == Failure(NullPointer) && strategies == old(strategies)
      ensures s.Some? ==> outcome.Success? && strategies == old(strategies)[s.value.cls := s.value][Sentinel := s.value]
      ensures s.Some? ==> GetDefault() == s
    {
      if s.None? {
        return Failure(NullPointer);
      }
      Add([s.value]);
      var made := SetDefaultClass(Some(s.value.cls));
      assert made == DefaultSet;
      return Success(());
    }

    /** `getDefault()`: the strategy under the sentinel key, or None (null) when there is none. */
    function GetDefault(): (r: Option<Strategy>)
      reads this
      ensures r.Some? <==> Sentinel in strategies
      ensures r.Some? ==> r.value == strategies[Sentinel]
    {
      if Sentinel in strategies then Some(strategies[Sentinel]) else None
    }

    /** `get(class, fallback)`. */
    function Get(cls: Option<ClassId>, fallback: Option<Strategy>): (r: Option<Strategy>)
      reads this
      requires Valid()
      ensures r != fallback ==> cls.Some? && r.Some? && r.value.cls == cls.value && cls.value in strategies
      ensures cls.Some? && cls.value != Sentinel && cls.value in strategies ==> r == Some(strategies[cls.value])
    {
      LookupFindsRequestedClass(strategies, cls, fallback);
      Lookup(strategies, cls, fallback)
    }

    /** `get(class)`: falls back to the configured default. */
    function GetOrDefault(cls: Option<ClassId>): (r: Option<Strategy>)
      reads this
      requires Valid()
      ensures r == Get(cls, GetDefault())
      ensures !(cls.Some? && cls.value != Sentinel && cls.value in strategies) ==> r == GetDefault()
    {
      Get(cls, GetDefault())
    }
  }
}
