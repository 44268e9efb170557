/**
 * List cursors and the two built-in dispatch flow controls.
 */
module Flow {

  /** The built-in flow controls a dispatch result can carry. */
  datatype FlowControl = Continue | Stop

  /**
   * A forward list cursor (the part of a ListIterator the dispatcher uses):
   * the list it walks and the index of the next element.
   */
  class Cursor<T> {
    const items: seq<T>
    var index: nat

    ghost predicate Valid()
      reads this
    {
      index <= |items|
    }

    /** A cursor positioned before the first element. */
    constructor (items: seq<T>)
      ensures Valid() && this.items == items && index == 0
    {
      this.items := items;
      index := 0;
    }

    function HasNext(): (r: bool)
      reads this
      requires Valid()
      ensures r <==> index < |items|
    {
      index < |items|
    }

    /** Returns the next element and moves past it. */
    method Next() returns (x: T)
      requires Valid() && HasNext()
      modifies this
      ensures Valid()
      ensures x == items[old(index)] && index == old(index) + 1
    {
      x := items[index];
      index := index + 1;
    }

    /** Moves past every remaining element. */
    method ExhaustRemaining()
      requires Valid()
      modifies this
      ensures Valid() && !HasNext()
      ensures index == |items| && old(index) <= index
    {
      index := |items|;
    }
  }

  /**
   * Runs a flow control against the handler cursor and the handle cursor.
   * CONTINUE touches neither; STOP moves both to their end, never backwards.
   */
  method Execute<A, B>(f: FlowControl, handlers: Cursor<A>, handles: Cursor<B>)
    requires handlers.Valid() && handles.Valid()
    modifies handlers, handles
    ensures handlers.Valid() && handles.Valid()
    ensures f == Continue ==> handlers.index == old(handlers.index) && handles.index == old(handles.index)
    ensures f == Stop ==> !handlers.HasNext() && !handles.HasNext()
    ensures old(handlers.index) <= handlers.index && old(handles.index) <= handles.index
  {
    match f
    case Continue =>
    case Stop =>
      handles.ExhaustRemaining();
      handlers.ExhaustRemaining();
  }
}
