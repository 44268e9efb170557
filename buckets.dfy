/**
 * The handler index as a value: a map from event class to the ordered list
 * of Handlers registered for it, and the pure effect of the registry's
 * add and remove operations on it.
 */
module Buckets {
  import opened Lang
  import opened Meta
  import opened Handling

  type Index = map<ClassId, seq<Handler>>

  /** The list registered for `c`; a missing entry reads as the empty list. */
  function Bucket(H: Index, c: ClassId): (r: seq<Handler>)
    ensures c in H ==> r == H[c]
    ensures c !in H ==> r == []
  {
    if c in H then H[c] else []
  }

  /** Every Handler in some bucket of `H`. */
  function Registered(H: Index): (r: set<Handler>)
    ensures forall h :: h in r <==> exists c :: c in H && h in H[c]
  {
    set c, h | c in H && h in H[c] :: h
  }

  /** A Handler sits only in buckets of classes it handles. */
  ghost predicate OnlyHandledBuckets(H: Index)
  {
    forall c, h :: c in H && h in H[c] ==> c in h.HandledClasses()
  }

  /** `h` sits in the bucket of every class it handles. */
  ghost predicate InEveryHandledBucket(H: Index, h: Handler)
  {
    forall d :: d in h.HandledClasses() ==> d in H && h in H[d]
  }

  /** A registered Handler sits in the bucket of every class it handles. */
  ghost predicate EveryHandledBucket(H: Index)
  {
    forall c, h :: c in H && h in H[c] ==> InEveryHandledBucket(H, h)
  }

  /** No Handler occurs twice in one bucket. */
  ghost predicate DistinctBuckets(H: Index)
  {
    forall c :: c in H ==> NoDuplicates(H[c])
  }

  /** Every registered Handler has a serial below `n`. */
  ghost predicate SerialsBelow(H: Index, n: nat)
  {
    forall c, h :: c in H && h in H[c] ==> h.serial < n
  }

  /** The shape the registry keeps. */
  ghost predicate WellFormed(H: Index, nextSerial: nat)
  {
    OnlyHandledBuckets(H) && EveryHandledBucket(H) && DistinctBuckets(H) && SerialsBelow(H, nextSerial)
  }

  /** In a well-formed index, the bucket of `c` holds exactly the registered Handlers of `c`. */
  lemma BucketHoldsItsHandlers(H: Index, c: ClassId)
    requires OnlyHandledBuckets(H) && EveryHandledBucket(H)
    ensures forall h :: h in Bucket(H, c) <==> h in Registered(H) && c in h.HandledClasses()
  {
    forall h | h in Registered(H) && c in h.HandledClasses()
      ensures h in Bucket(H, c)
    {
      var c0 :| c0 in H && h in H[c0];
      assert InEveryHandledBucket(H, h);
    }
  }

  // ---------------------------------------------------------------------
  // Adding

  /** Appends `h` to the bucket of each class of `classes`, creating missing buckets. */
  function AppendTo(H: Index, h: Handler, classes: set<ClassId>): Index
  {
    map c | c in H.Keys + classes :: if c in classes then Bucket(H, c) + [h] else H[c]
  }


  /**
   * One more class of `classes` done: its bucket, still the original list,
   * gets `h` appended.
   */
  lemma AppendToOneMore(H: Index, h: Handler, classes: set<ClassId>, todo: set<ClassId>, c: ClassId, index: Index)
    requires c in todo && todo <= classes && index == AppendTo(H, h, classes - todo)
    ensures index[c := Bucket(index, c) + [h]] == AppendTo(H, h, classes - (todo - {c}))
  {
    assert classes - (todo - {c}) == (classes - todo) + {c};
    assert Bucket(index, c) == Bucket(H, c);
  }

  /** The bucket of one class after appending: grown by `h` exactly when the class is one of `classes`. */
  lemma BucketOfAppendTo(H: Index, h: Handler, classes: set<ClassId>, c: ClassId)
    ensures Bucket(AppendTo(H, h, classes), c) == Bucket(H, c) + (if c in classes then [h] else [])
  {
  }

  /** Appends `h` to the bucket of every class it handles, creating missing buckets. */
  function AddToBuckets(H: Index, h: Handler): Index
  {
    AppendTo(H, h, h.HandledClasses())
  }

  /**
   * The loop of `add` for one Handler: for each class it handles, creates
   * the bucket if missing and appends the Handler to it.
   */
  method AppendToEach(H: Index, h: Handler, classes: set<ClassId>) returns (index: Index)
    ensures index == AppendTo(H, h, classes)
  {
    index := H;
    var todo := classes;
    assert index == AppendTo(H, h, classes - todo) by {
      assert classes - todo == {};
      assert AppendTo(H, h, {}) == H;
    }
    while todo != {}
      invariant todo <= classes && index == AppendTo(H, h, classes - todo)
      decreases |todo|
    {
      var c :| c in todo;
      AppendToOneMore(H, h, classes, todo, c, index);
      index := index[c := Bucket(index, c) + [h]];
      todo := todo - {c};
    }
    assert classes - todo == classes;
  }

  /** `AddToBuckets` for each Handler of `hs`, in order. */
  function IndexAll(H: Index, hs: seq<Handler>): Index
  {
    if hs == [] then H else AddToBuckets(IndexAll(H, hs[..|hs| - 1]), hs[|hs| - 1])
  }

  /** The Handlers of `hs` that handle `c`, in their order in `hs`. */
  function HandlingClass(hs: seq<Handler>, c: ClassId): (r: seq<Handler>)
    ensures forall h :: h in r <==> h in hs && c in h.HandledClasses()
    ensures |r| <= |hs|
  {
    if hs == [] then []
    else HandlingClass(hs[..|hs| - 1], c) + (if c in hs[|hs| - 1].HandledClasses() then [hs[|hs| - 1]] else [])
  }

  /**
   * Indexing a list of Handlers appends to each bucket exactly the Handlers
   * of the list that handle its class, in list order, after the entries it
   * already had.
   */
  lemma {:induction false} BucketOfIndexAll(H: Index, hs: seq<Handler>, c: ClassId)
    ensures Bucket(IndexAll(H, hs), c) == Bucket(H, c) + HandlingClass(hs, c)
  {
    if hs != [] {
      var front, last := hs[..|hs| - 1], hs[|hs| - 1];
      var tail := if c in last.HandledClasses() then [last] else [];
      BucketOfIndexAll(H, front, c);
      BucketOfIndexAllLast(H, hs, c);
      assert HandlingClass(hs, c) == HandlingClass(front, c) + tail;
      assert Bucket(H, c) + HandlingClass(hs, c) == (Bucket(H, c) + HandlingClass(front, c)) + tail;
    }
  }

  /** Indexing one Handler more grows each of its classes' buckets by it. */
  lemma BucketOfIndexAllLast(H: Index, hs: seq<Handler>, c: ClassId)
    requires hs != []
    ensures var last := hs[|hs| - 1];
            Bucket(IndexAll(H, hs), c)
            == Bucket(IndexAll(H, hs[..|hs| - 1]), c) + (if c in last.HandledClasses() then [last] else [])
  {
    var X, last := IndexAll(H, hs[..|hs| - 1]), hs[|hs| - 1];
    assert IndexAll(H, hs) == AppendTo(X, last, last.HandledClasses());
    BucketOfAppendTo(X, last, last.HandledClasses(), c);
  }

  /** Indexing never removes a bucket; it adds the buckets of the classes the new Handlers handle. */
  lemma {:induction false} KeysOfIndexAll(H: Index, hs: seq<Handler>)
    ensures forall c :: c in IndexAll(H, hs) <==> c in H || exists h :: h in hs && c in h.HandledClasses()
  {
    if hs != [] {
      var front := hs[..|hs| - 1];
      KeysOfIndexAll(H, front);
      assert forall h :: h in hs <==> h in front || h == hs[|hs| - 1];
    }
  }

  /** No element is in both sequences. */
  predicate Disjoint(a: seq<Handler>, b: seq<Handler>)
  {
    forall x :: x in a ==> x !in b
  }

  lemma NoDuplicatesConcat(a: seq<Handler>, b: seq<Handler>)
    requires NoDuplicates(a) && NoDuplicates(b) && Disjoint(a, b)
    ensures NoDuplicates(a + b)
  {
    var s := a + b;
    forall i, j | 0 <= i < j < |s|
      ensures s[i] != s[j]
    {
      if j >= |a| && i < |a| {
        assert s[i] in a && s[j] == b[j - |a|];
      }
    }
  }

  /** A filtered sequence of distinct elements is itself distinct. */
  lemma {:induction false} HandlingClassNoDuplicates(hs: seq<Handler>, c: ClassId)
    requires NoDuplicates(hs)
    ensures NoDuplicates(HandlingClass(hs, c))
  {
    if hs != [] {
      var front := hs[..|hs| - 1];
      assert NoDuplicates(front);
      HandlingClassNoDuplicates(front, c);
      if c in hs[|hs| - 1].HandledClasses() {
        NoDuplicatesConcat(HandlingClass(front, c), [hs[|hs| - 1]]);
      }
    }
  }

  /** Handlers numbered consecutively from `n`. */
  predicate NumberedFrom(hs: seq<Handler>, n: nat)
  {
    forall k :: 0 <= k < |hs| ==> hs[k].serial == n + k
  }

  lemma NumberedDistinct(hs: seq<Handler>, n: nat)
    requires NumberedFrom(hs, n)
    ensures NoDuplicates(hs)
  {
    forall i, j | 0 <= i < j < |hs|
      ensures hs[i] != hs[j]
    {
      assert hs[i].serial != hs[j].serial;
    }
  }

  /** One bucket after indexing fresh Handlers: its class is handled, serials are bounded, nothing repeats. */
  lemma IndexAllBucket(H: Index, n: nat, hs: seq<Handler>, c: ClassId)
    requires WellFormed(H, n) && NumberedFrom(hs, n)
    ensures var b := Bucket(IndexAll(H, hs), c);
            && NoDuplicates(b)
            && forall h :: h in b ==> c in h.HandledClasses() && h.serial < n + |hs|
  {
    BucketOfIndexAll(H, hs, c);
    NumberedDistinct(hs, n);
    HandlingClassNoDuplicates(hs, c);
    var old_ := Bucket(H, c);
    var added := HandlingClass(hs, c);
    forall h | h in added
      ensures h.serial >= n && h.serial < n + |hs|
    {
      var k :| 0 <= k < |hs| && hs[k] == h;
    }
    assert Disjoint(old_, added) by {
      forall x | x in old_
        ensures x !in added
      {
        assert x.serial < n;
      }
    }
    NoDuplicatesConcat(old_, added);
  }

  /** After indexing, a Handler in one bucket is in the bucket of each class it handles. */
  lemma IndexAllHandledBucket(H: Index, hs: seq<Handler>, c: ClassId, h: Handler, d: ClassId)
    requires EveryHandledBucket(H)
    requires h in Bucket(IndexAll(H, hs), c) && d in h.HandledClasses()
    ensures h in Bucket(IndexAll(H, hs), d)
  {
    BucketOfIndexAll(H, hs, c);
    BucketOfIndexAll(H, hs, d);
    if h in Bucket(H, c) {
      assert InEveryHandledBucket(H, h);
      assert h in Bucket(H, d);
    } else {
      assert h in HandlingClass(hs, d);
    }
  }

  /** Indexing keeps every registered Handler in all the buckets of its classes. */
  lemma IndexAllEveryHandledBucket(H: Index, hs: seq<Handler>)
    requires EveryHandledBucket(H)
    ensures EveryHandledBucket(IndexAll(H, hs))
  {
    var H': Index := IndexAll(H, hs);
    forall c: ClassId, h: Handler | c in H' && h in H'[c]
      ensures InEveryHandledBucket(H', h)
    {
      forall d | d in h.HandledClasses()
        ensures d in H' && h in H'[d]
      {
        assert h in Bucket(H', c);
        IndexAllHandledBucket(H, hs, c, h, d);
        assert h in Bucket(H', d);
      }
    }
  }

  /**
   * Indexing Handlers whose serials are fresh and distinct keeps the index
   * well formed, with the serial bound moved past them.
   */
  lemma IndexAllWellFormed(H: Index, n: nat, hs: seq<Handler>)
    requires WellFormed(H, n) && NumberedFrom(hs, n)
    ensures WellFormed(IndexAll(H, hs), n + |hs|)
  {
    var H': Index := IndexAll(H, hs);
    forall c | c in H'
      ensures NoDuplicates(H'[c])
      ensures forall h: Handler :: h in H'[c] ==> c in h.HandledClasses() && h.serial < n + |hs|
    {
      IndexAllBucket(H, n, hs, c);
    }
    IndexAllEveryHandledBucket(H, hs);
  }

  // ---------------------------------------------------------------------
  // Removing

  /** `s` without the elements of `gone`, the rest in their order. */
  function Without(s: seq<Handler>, gone: set<Handler>): (r: seq<Handler>)
    ensures forall x :: x in r <==> x in s && x !in gone
    ensures |r| <= |s|
  {
    if s == [] then []
    else (if s[0] in gone then [] else [s[0]]) + Without(s[1..], gone)
  }

  /** Removing nothing that occurs leaves a sequence as it was. */
  lemma {:induction false} WithoutAbsent(s: seq<Handler>, gone: set<Handler>)
    requires forall x :: x in s ==> x !in gone
    ensures Without(s, gone) == s
  {
    if s != [] {
      WithoutAbsent(s[1..], gone);
    }
  }

  /** Removing two sets one after the other is removing their union. */
  lemma {:induction false} WithoutWithout(s: seq<Handler>, a: set<Handler>, b: set<Handler>)
    ensures Without(Without(s, a), b) == Without(s, a + b)
  {
    if s != [] {
      WithoutWithout(s[1..], a, b);
      var t := Without(s, a);
      if s[0] !in a {
        assert t == [s[0]] + Without(s[1..], a);
        assert t != [] && t[0] == s[0] && t[1..] == Without(s[1..], a);
      } else {
        assert t == Without(s[1..], a);
      }
    }
  }

  /** Only the elements of `s` matter in `gone`. */
  lemma {:induction false} WithoutRestrict(s: seq<Handler>, gone: set<Handler>, gone': set<Handler>)
    requires forall x :: x in s ==> (x in gone <==> x in gone')
    ensures Without(s, gone) == Without(s, gone')
  {
    if s != [] {
      WithoutRestrict(s[1..], gone, gone');
    }
  }

  lemma {:induction false} WithoutNoDuplicates(s: seq<Handler>, gone: set<Handler>)
    requires NoDuplicates(s)
    ensures NoDuplicates(Without(s, gone))
  {
    if s != [] {
      assert NoDuplicates(s[1..]);
      WithoutNoDuplicates(s[1..], gone);
      if s[0] !in gone {
        assert s[0] !in s[1..];
        NoDuplicatesConcat([s[0]], Without(s[1..], gone));
      }
    }
  }

  /** `List.remove(h)`: drops the first occurrence of `h`, if any. */
  function RemoveFirst(s: seq<Handler>, h: Handler): (r: seq<Handler>)
    ensures h !in s ==> r == s
    ensures h in s ==> |r| == |s| - 1
  {
    if s == [] then []
    else if s[0] == h then s[1..]
    else [s[0]] + RemoveFirst(s[1..], h)
  }

  /** In a list without duplicates, dropping the first occurrence drops every occurrence. */
  lemma {:induction false} RemoveFirstIsWithout(s: seq<Handler>, h: Handler)
    requires NoDuplicates(s)
    ensures RemoveFirst(s, h) == Without(s, {h})
  {
    if s != [] {
      assert NoDuplicates(s[1..]);
      if s[0] == h {
        assert h !in s[1..];
        WithoutAbsent(s[1..], {h});
      } else {
        RemoveFirstIsWithout(s[1..], h);
      }
    }
  }

  /** Removes the Handlers of `gone` from every bucket; every bucket is kept, possibly empty. */
  function DropAll(H: Index, gone: set<Handler>): (r: Index)
    ensures r.Keys == H.Keys
    ensures forall c :: c in H ==> r[c] == Without(H[c], gone)
  {
    map c | c in H :: Without(H[c], gone)
  }

  /** Dropping keeps an index well formed. */
  lemma DropAllWellFormed(H: Index, n: nat, gone: set<Handler>)
    requires WellFormed(H, n)
    ensures WellFormed(DropAll(H, gone), n)
  {
    DropAllKeepsShape(H, gone);
    DropAllEveryHandledBucket(H, gone);
  }

  /** Dropping whole Handlers keeps each survivor in all the buckets of its classes. */
  lemma DropAllEveryHandledBucket(H: Index, gone: set<Handler>)
    requires EveryHandledBucket(H)
    ensures EveryHandledBucket(DropAll(H, gone))
  {
    var H': Index := DropAll(H, gone);
    forall c: ClassId, h: Handler | c in H' && h in H'[c]
      ensures InEveryHandledBucket(H', h)
    {
      forall d | d in h.HandledClasses()
        ensures d in H' && h in H'[d]
      {
        SurvivorStays(H, gone, c, h, d);
      }
    }
  }

  /** A Handler that survives in one bucket survives in the bucket of each class it handles. */
  lemma SurvivorStays(H: Index, gone: set<Handler>, c: ClassId, h: Handler, d: ClassId)
    requires EveryHandledBucket(H)
    requires c in H && h in Without(H[c], gone) && d in h.HandledClasses()
    ensures d in H && h in Without(H[d], gone)
  {
    assert InEveryHandledBucket(H, h);
  }

  /** Dropping keeps buckets free of duplicates and of Handlers for other classes. */
  lemma DropAllKeepsShape(H: Index, gone: set<Handler>)
    requires DistinctBuckets(H) && OnlyHandledBuckets(H)
    ensures DistinctBuckets(DropAll(H, gone)) && OnlyHandledBuckets(DropAll(H, gone))
  {
    forall c | c in H
      ensures NoDuplicates(Without(H[c], gone))
    {
      WithoutNoDuplicates(H[c], gone);
    }
  }

  /** Dropping removes exactly the dropped Handlers from the registered ones. */
  lemma RegisteredAfterDropAll(H: Index, gone: set<Handler>)
    ensures Registered(DropAll(H, gone)) == Registered(H) - gone
  {
    var H': Index := DropAll(H, gone);
    forall h | h in Registered(H) - gone
      ensures h in Registered(H')
    {
      var c :| c in H && h in H[c];
      assert h in H'[c];
    }
  }

  /** Every class a registered Handler handles has a bucket. */
  lemma HandledBucketsExist(H: Index, hs: seq<Handler>)
    requires EveryHandledBucket(H)
    requires forall h :: h in hs ==> h in Registered(H)
    ensures forall h, c :: h in hs && c in h.HandledClasses() ==> c in H
  {
    forall h, c | h in hs && c in h.HandledClasses()
      ensures c in H
    {
      var c0 :| c0 in H && h in H[c0];
      assert InEveryHandledBucket(H, h);
    }
  }

  /** The elements of a list of Handlers, as a set. */
  function Members(hs: seq<Handler>): set<Handler>
  {
    set h | h in hs
  }

  /** Drops `h` from the buckets of `classes` only. */
  function DropFrom(H: Index, h: Handler, classes: set<ClassId>): Index
  {
    map c | c in H :: if c in classes then Without(H[c], {h}) else H[c]
  }

  /** Dropping from one more bucket. */
  lemma DropFromOneMore(H: Index, h: Handler, classes: set<ClassId>, c: ClassId)
    requires c in H && c !in classes
    ensures DropFrom(H, h, classes)[c := Without(H[c], {h})] == DropFrom(H, h, classes + {c})
  {
  }

  /** One step of the removal loop: `List.remove` on one more bucket of `classes`. */
  lemma DropFromStep(H: Index, h: Handler, classes: set<ClassId>, todo: set<ClassId>, c: ClassId, index: Index)
    requires c in todo && todo <= classes && classes <= H.Keys && DistinctBuckets(H)
    requires index == DropFrom(H, h, classes - todo)
    ensures index[c := RemoveFirst(index[c], h)] == DropFrom(H, h, classes - (todo - {c}))
  {
    assert index[c] == H[c];
    RemoveFirstIsWithout(H[c], h);
    DropFromOneMore(H, h, classes - todo, c);
    assert classes - (todo - {c}) == (classes - todo) + {c};
  }

  /**
   * The loop of the private `remove(handler)`: `List.remove` on the bucket
   * of each class of `classes`, every one of which exists.
   */
  method RemoveFromEach(H: Index, h: Handler, classes: set<ClassId>) returns (index: Index)
    requires classes <= H.Keys && DistinctBuckets(H)
    ensures index == DropFrom(H, h, classes)
  {
    index := H;
    var todo := classes;
    assert index == DropFrom(H, h, classes - todo) by {
      assert classes - todo == {};
      assert DropFrom(H, h, {}) == H;
    }
    while todo != {}
      invariant todo <= classes && index == DropFrom(H, h, classes - todo)
      decreases |todo|
    {
      var c :| c in todo;
      DropFromStep(H, h, classes, todo, c, index);
      index := index[c := RemoveFirst(index[c], h)];
      todo := todo - {c};
    }
    assert classes - todo == classes;
  }

  /** A Handler sits only in buckets of its classes, so dropping it from those drops it everywhere. */
  lemma DropFromHandled(H: Index, h: Handler)
    requires OnlyHandledBuckets(H)
    ensures DropFrom(H, h, h.HandledClasses()) == DropAll(H, {h})
  {
    forall c | c in H && c !in h.HandledClasses()
      ensures H[c] == Without(H[c], {h})
    {
      WithoutAbsent(H[c], {h});
    }
  }

  /** Dropping nothing changes nothing. */
  lemma DropAllNone(H: Index)
    ensures DropAll(H, {}) == H
  {
    forall c | c in H
      ensures Without(H[c], {}) == H[c]
    {
      WithoutAbsent(H[c], {});
    }
  }

  /** Dropping one set and then another is dropping both. */
  lemma DropAllDropAll(H: Index, a: set<Handler>, b: set<Handler>)
    ensures DropAll(DropAll(H, a), b) == DropAll(H, a + b)
  {
    forall c | c in H
      ensures DropAll(DropAll(H, a), b)[c] == DropAll(H, a + b)[c]
    {
      WithoutWithout(H[c], a, b);
    }
  }

  /** Only registered Handlers matter in a drop. */
  lemma DropAllRestrict(H: Index, gone: set<Handler>, gone': set<Handler>)
    requires forall h :: h in Registered(H) ==> (h in gone <==> h in gone')
    ensures DropAll(H, gone) == DropAll(H, gone')
  {
    forall c | c in H
      ensures Without(H[c], gone) == Without(H[c], gone')
    {
      WithoutRestrict(H[c], gone, gone');
    }
  }

  // ---------------------------------------------------------------------
  // Listing

  /** `distinct()`: the first occurrence of each element, in order. */
  function Distinct(s: seq<Handler>): (r: seq<Handler>)
    ensures forall x :: x in r <==> x in s
    ensures NoDuplicates(r)
  {
    if s == [] then []
    else
      var front := Distinct(s[..|s| - 1]);
      var last := s[|s| - 1];
      assert forall x :: x in s <==> x in s[..|s| - 1] || x == last;
      if last in front then front
      else
        NoDuplicatesConcat(front, [last]);
        front + [last]
  }
}
