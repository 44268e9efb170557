/**
 * The handler registry: builds Handlers for handler objects, indexes them
 * by the event classes they handle, removes them, and optionally caches
 * the handle metas of each handler class.
 */
module Registry {
  import opened Lang
  import opened Meta
  import opened Handling
  import opened Buckets

  /** Building one Handler for `o`: its class's metas from the factory, then the Handler. */
  function Build(factory: MetaFactory, serial: nat, o: Obj): (r: Result<Handler, RegistrationError>)
    ensures r.Success? <==> factory(o.cls).Success? && |factory(o.cls).value| > 0
    ensures r.Success? ==> r.value == Handler(serial, o, factory(o.cls).value)
    ensures factory(o.cls).Failure? ==> r == Failure(ReflectionFailure(factory(o.cls).error.message))
    ensures factory(o.cls).Success? && r.Failure? ==> r == Failure(NoHandles(o.cls))
  {
    match factory(o.cls)
    case Failure(e) => Failure(ReflectionFailure(e.message))
    case Success(metas) => NewHandler(serial, o, metas)
  }

  /** A factory outcome as `getMetaInfo` passes it on: a reflection error becomes a registration failure. */
  function Reflected(created: Result<seq<HandleMeta>, MetaError>): (r: Result<seq<HandleMeta>, RegistrationError>)
    ensures r.Success? <==> created.Success?
    ensures created.Success? ==> r.value == created.value
    ensures created.Failure? ==> r.error == ReflectionFailure(created.error.message)
  {
    match created
    case Failure(e) => Failure(ReflectionFailure(e.message))
    case Success(metas) => Success(metas)
  }

  /** Building the Handlers for all of `objects`, numbered from `n`, stopping at the first failure. */
  function BuildAll(factory: MetaFactory, n: nat, objects: seq<Obj>): Result<seq<Handler>, RegistrationError>
  {
    if objects == [] then Success([])
    else
      var front := objects[..|objects| - 1];
      var k := |objects| - 1;
      match BuildAll(factory, n, front)
      case Failure(e) => Failure(e)
      case Success(hs) =>
        match Build(factory, n + k, objects[k])
        case Failure(e) => Failure(e)
        case Success(h) => Success(hs + [h])
  }

  /**
   * A build succeeds exactly when every object can be built, and then holds
   * each object's Handler, in order, numbered consecutively from `n`.
   */
  lemma {:induction false} BuildAllSucceedsIff(factory: MetaFactory, n: nat, objects: seq<Obj>)
    ensures var r := BuildAll(factory, n, objects);
            && (r.Success? <==> forall k :: 0 <= k < |objects| ==> Build(factory, n + k, objects[k]).Success?)
            && (r.Success? ==> |r.value| == |objects| && NumberedFrom(r.value, n))
            && (r.Success? ==> forall k :: 0 <= k < |objects| ==> Build(factory, n + k, objects[k]) == Success(r.value[k]))
    decreases |objects|
  {
    if objects != [] {
      var front := objects[..|objects| - 1];
      var last := |objects| - 1;
      BuildAllSucceedsIff(factory, n, front);
      assert forall k :: 0 <= k < |front| ==> front[k] == objects[k];
      var r := BuildAll(factory, n, objects);
      if BuildAll(factory, n, front).Success? && Build(factory, n + last, objects[last]).Success? {
        var hs := BuildAll(factory, n, front).value;
        assert r.value == hs + [Build(factory, n + last, objects[last]).value];
      }
    }
  }

  /**
   * A build that fails reports the error of the first object that cannot
   * be built: every object before it can be.
   */
  lemma {:induction false} BuildAllFailsAtFirst(factory: MetaFactory, n: nat, objects: seq<Obj>)
    requires BuildAll(factory, n, objects).Failure?
    ensures exists k :: 0 <= k < |objects| && Build(factory, n + k, objects[k]) == Failure(BuildAll(factory, n, objects).error)
                        && forall j :: 0 <= j < k ==> Build(factory, n + j, objects[j]).Success?
    decreases |objects|
  {
    var front := objects[..|objects| - 1];
    var last := |objects| - 1;
    assert forall k :: 0 <= k < |front| ==> front[k] == objects[k];
    if BuildAll(factory, n, front).Failure? {
      BuildAllFailsAtFirst(factory, n, front);
      var k :| 0 <= k < |front| && Build(factory, n + k, front[k]) == Failure(BuildAll(factory, n, front).error)
               && forall j :: 0 <= j < k ==> Build(factory, n + j, front[j]).Success?;
      assert Build(factory, n + k, objects[k]) == Failure(BuildAll(factory, n, objects).error);
    } else {
      BuildAllSucceedsIff(factory, n, front);
      assert Build(factory, n + last, objects[last]) == Failure(BuildAll(factory, n, objects).error);
    }
  }

  /** Once a prefix has been built, the first failing object decides the whole build. */
  lemma {:induction false} BuildAllStopsAtFirstFailure(factory: MetaFactory, n: nat, objects: seq<Obj>, i: nat)
    requires i < |objects|
    requires BuildAll(factory, n, objects[..i]).Success?
    requires Build(factory, n + i, objects[i]).Failure?
    ensures BuildAll(factory, n, objects) == Failure(Build(factory, n + i, objects[i]).error)
    decreases |objects|
  {
    var front := objects[..|objects| - 1];
    if |objects| > i + 1 {
      assert front[..i] == objects[..i];
      BuildAllStopsAtFirstFailure(factory, n, front, i);
    } else {
      assert front == objects[..i];
    }
  }

  /**
   * `hs` are Handlers built, in order, for the first objects of `objects`:
   * each wraps its object, has at least one meta and is numbered from `n`.
   */
  predicate BuiltFrom(hs: seq<Handler>, objects: seq<Obj>, n: nat)
  {
    && |hs| <= |objects|
    && NumberedFrom(hs, n)
    && forall k :: 0 <= k < |hs| ==> hs[k].wrapped == objects[k] && hs[k].metas != []
  }

  /** One more Handler, for the next object. */
  lemma BuiltFromExtends(hs: seq<Handler>, objects: seq<Obj>, n: nat, h: Handler)
    requires BuiltFrom(hs, objects, n) && |hs| < |objects|
    requires h.serial == n + |hs| && h.wrapped == objects[|hs|] && h.metas != []
    ensures BuiltFrom(hs + [h], objects, n)
  {
  }

  /** Building one more object after a successful prefix. */
  lemma BuildAllExtends(factory: MetaFactory, n: nat, objects: seq<Obj>, i: nat, built: seq<Handler>, h: Handler)
    requires i < |objects|
    requires BuildAll(factory, n, objects[..i]) == Success(built)
    requires Build(factory, n + i, objects[i]) == Success(h)
    ensures BuildAll(factory, n, objects[..i + 1]) == Success(built + [h])
  {
    assert objects[..i + 1][..i] == objects[..i];
  }

  /** The classes of the objects, the classes whose metas registering them may ask for. */
  ghost function ClassesOf(objects: seq<Obj>): (r: set<ClassId>)
    ensures forall k :: 0 <= k < |objects| ==> objects[k].cls in r
  {
    set k | 0 <= k < |objects| :: objects[k].cls
  }

  /**
   * How registering objects of `classes` may change the meta cache (from
   * `before` to `after`) and the log of the factory's runs under it (from
   * `runsBefore` to `runsAfter`): every entry is kept as it was, the log only
   * grows, each new run is for one of `classes` that was not cached, and each
   * new entry is for a class that ran and holds what the factory produced.
   */
  ghost predicate CacheGrows(factory: MetaFactory, classes: set<ClassId>,
                             before: map<ClassId, seq<HandleMeta>>, after: map<ClassId, seq<HandleMeta>>,
                             runsBefore: seq<ClassId>, runsAfter: seq<ClassId>)
  {
    && (forall c :: c in before ==> c in after && after[c] == before[c])
    && runsBefore <= runsAfter
    && (forall c :: c in runsAfter[|runsBefore|..] ==> c !in before && c in classes)
    && (forall c :: c in after && c !in before ==> c in runsAfter[|runsBefore|..] && Reflected(factory(c)) == Success(after[c]))
  }

  /**
   * One `getMetaInfo(cls)` under a cache: either nothing changes, or `cls`
   * was not cached, the factory ran for it and succeeded, and its metas were
   * cached and the run logged.
   */
  ghost predicate CacheStep(factory: MetaFactory, cls: ClassId,
                            before: map<ClassId, seq<HandleMeta>>, after: map<ClassId, seq<HandleMeta>>,
                            runsBefore: seq<ClassId>, runsAfter: seq<ClassId>)
  {
    || (after == before && runsAfter == runsBefore)
    || (&& cls !in before && Reflected(factory(cls)).Success?
        && after == before[cls := Reflected(factory(cls)).value] && runsAfter == runsBefore + [cls])
  }

  /** A growth followed by one step for a class among `classes` is a growth. */
  lemma CacheGrowsStep(factory: MetaFactory, classes: set<ClassId>, cls: ClassId,
                       m1: map<ClassId, seq<HandleMeta>>, m2: map<ClassId, seq<HandleMeta>>, m3: map<ClassId, seq<HandleMeta>>,
                       runs1: seq<ClassId>, runs2: seq<ClassId>, runs3: seq<ClassId>)
    requires CacheGrows(factory, classes, m1, m2, runs1, runs2)
    requires cls in classes && CacheStep(factory, cls, m2, m3, runs2, runs3)
    ensures CacheGrows(factory, classes, m1, m3, runs1, runs3)
  {
    if runs3 != runs2 {
      assert runs3[|runs1|..] == runs2[|runs1|..] + [cls];
    }
  }

  /** Two growths in a row are one growth, over both sets of classes. */
  lemma CacheGrowsTrans(factory: MetaFactory, classes1: set<ClassId>, classes2: set<ClassId>,
                        m1: map<ClassId, seq<HandleMeta>>, m2: map<ClassId, seq<HandleMeta>>, m3: map<ClassId, seq<HandleMeta>>,
                        runs1: seq<ClassId>, runs2: seq<ClassId>, runs3: seq<ClassId>)
    requires CacheGrows(factory, classes1, m1, m2, runs1, runs2)
    requires CacheGrows(factory, classes2, m2, m3, runs2, runs3)
    ensures CacheGrows(factory, classes1 + classes2, m1, m3, runs1, runs3)
  {
  }

  /** The Handler wrapper itself as an object: what `isInstance` is asked about when removing by class. */
  function WrapperObject(h: Handler): Obj
  {
    Obj(HandlerClass, {ObjectClass}, h.serial)
  }

  /** `stream().filter(p)`: the elements satisfying `p`, in order. */
  function Select(hs: seq<Handler>, p: Handler -> bool): (r: seq<Handler>)
    ensures forall h :: h in r <==> h in hs && p(h)
  {
    if hs == [] then [] else (if p(hs[0]) then [hs[0]] else []) + Select(hs[1..], p)
  }

  /** The registered Handlers that `a` matches. */
  function MatchedOne<A>(H: Index, a: A, matches: (Handler, A) -> bool): set<Handler>
  {
    set h | h in Registered(H) && matches(h, a)
  }

  /** The registered Handlers matched by some argument, gathered argument by argument. */
  function MatchedBy<A>(H: Index, args: seq<A>, matches: (Handler, A) -> bool): set<Handler>
  {
    if args == [] then {}
    else MatchedBy(H, args[..|args| - 1], matches) + MatchedOne(H, args[|args| - 1], matches)
  }

  /** A Handler is matched exactly when it is registered and some argument matches it. */
  lemma {:induction false} MatchedByMembers<A>(H: Index, args: seq<A>, matches: (Handler, A) -> bool, h: Handler)
    ensures h in MatchedBy(H, args, matches) <==> h in Registered(H) && exists k :: 0 <= k < |args| && matches(h, args[k])
  {
    if args != [] {
      var front := args[..|args| - 1];
      MatchedByMembers(H, front, matches, h);
      if h in Registered(H) && exists k :: 0 <= k < |args| && matches(h, args[k]) {
        var k :| 0 <= k < |args| && matches(h, args[k]);
        if k < |front| {
          assert front[k] == args[k];
        }
      }
    }
  }

  /**
   * One more argument: dropping the current matches of `args[i]` after the
   * matches of the earlier arguments drops the matches of `args[..i + 1]`.
   */
  lemma MatchedByNext<A>(H: Index, args: seq<A>, i: nat, matches: (Handler, A) -> bool, selected: seq<Handler>)
    requires i < |args|
    requires forall h :: h in selected <==> h in Registered(DropAll(H, MatchedBy(H, args[..i], matches))) && matches(h, args[i])
    ensures DropAll(DropAll(H, MatchedBy(H, args[..i], matches)), Members(selected)) == DropAll(H, MatchedBy(H, args[..i + 1], matches))
  {
    var G := MatchedBy(H, args[..i], matches);
    DropAllDropAll(H, G, Members(selected));
    RegisteredAfterDropAll(H, G);
    assert args[..i + 1][..i] == args[..i];
    assert MatchedBy(H, args[..i + 1], matches) == G + MatchedOne(H, args[i], matches);
    DropAllRestrict(H, G + Members(selected), MatchedBy(H, args[..i + 1], matches));
  }

  /** The matched Handlers as one set: those registered that some argument matches. */
  lemma MatchedByAny<A>(H: Index, args: seq<A>, matches: (Handler, A) -> bool)
    ensures MatchedBy(H, args, matches) == set h | h in Registered(H) && exists a :: a in args && matches(h, a)
  {
    forall h
      ensures h in MatchedBy(H, args, matches) <==> h in Registered(H) && exists a :: a in args && matches(h, a)
    {
      MatchedByMembers(H, args, matches, h);
      if h in Registered(H) && exists a :: a in args && matches(h, a) {
        var a :| a in args && matches(h, a);
        var k :| 0 <= k < |args| && args[k] == a;
      }
    }
  }

  /**
   * As written, removing by class asks `isInstance` of the Handler wrapper,
   * whose class is `Handler` and whose only supertype is `Object`: naming
   * the classes of handler objects removes nothing at all.
   */
  lemma ClassRemovalAsWrittenMissesUserClasses(H: Index, classes: seq<ClassId>)
    requires forall c :: c in classes ==> c.UserClass?
    ensures (set h | h in Registered(H) && exists c :: c in classes && InstanceOf(WrapperObject(h), c)) == {}
    ensures DropAll(H, set h | h in Registered(H) && exists c :: c in classes && InstanceOf(WrapperObject(h), c)) == H
  {
    DropAllNone(H);
  }

  /**
   * As documented, removing by class leaves exactly the Handlers whose
   * wrapped object is an instance of none of the classes.
   */
  lemma ClassRemovalAsIntendedRemovesInstances(H: Index, classes: seq<ClassId>)
    ensures var gone := set h | h in Registered(H) && exists c :: c in classes && InstanceOf(h.wrapped, c);
            Registered(DropAll(H, gone)) == set h | h in Registered(H) && forall c :: c in classes ==> !InstanceOf(h.wrapped, c)
  {
    var gone := set h | h in Registered(H) && exists c :: c in classes && InstanceOf(h.wrapped, c);
    RegisteredAfterDropAll(H, gone);
  }

  class HandlerRegistry {
    /** Event class -> Handlers, in registration order. */
    var handlers: Index
    const metaFactory: MetaFactory
    var metaCache: HandleMetaCache?
    var useMetaCache: bool
    /** The serial the next Handler built receives. */
    var nextSerial: nat
    /** The classes whose metas the factory produced while the current cache was installed. */
    ghost var cachedRuns: seq<ClassId>

    ghost predicate Valid()
      reads this, metaCache
    {
      WellFormed(handlers, nextSerial) && CacheValid()
    }

    /** No cache is installed while caching is off, and then the factory has run for no class under a cache. */
    ghost predicate CacheValid()
      reads this`useMetaCache, this`metaCache, this`cachedRuns
    {
      && (!useMetaCache ==> metaCache == null)
      && (metaCache == null ==> cachedRuns == [])
    }

    /**
     * Every class the factory ran for under the installed cache is still
     * cached, and the factory ran for it once. Code holding the cache may
     * clear or change it; then this stops holding, and the registry goes on
     * running the factory for missing classes.
     */
    ghost predicate RunsCached()
      reads this`metaCache, this`cachedRuns, metaCache
    {
      metaCache != null ==> NoDuplicates(cachedRuns) && forall c :: c in cachedRuns ==> c in metaCache.cache
    }

    /** Caching, when on, has a cache, and every cached entry is what the factory produces for its class. */
    ghost predicate CacheFaithful()
      reads this`useMetaCache, this`metaCache, metaCache
    {
      && (useMetaCache ==> metaCache != null)
      && (metaCache != null ==> forall c :: c in metaCache.cache ==> metaFactory(c) == Success(metaCache.cache[c]))
    }

    /** An empty registry with caching off. */
    constructor (metaFactory: MetaFactory)
      ensures Valid() && CacheFaithful() && RunsCached()
      ensures handlers == map[] && this.metaFactory == metaFactory && metaCache == null && !useMetaCache
    {
      handlers := map[];
      this.metaFactory := metaFactory;
      metaCache := null;
      useMetaCache := false;
      nextSerial := 0;
      cachedRuns := [];
    }

    /**
     * `getMetaInfo(cls)`. With caching off the factory runs every time. With
     * caching on, a cached entry is returned as it is; otherwise the factory
     * runs and a successful result is cached. A failing run caches nothing.
     * Caching on with a null cache raises a NullPointerException.
     */
    method GetMetaInfo(cls: ClassId) returns (r: Result<seq<HandleMeta>, RegistrationError>)
      requires CacheValid()
      modifies this`cachedRuns, metaCache
      ensures CacheValid()
      ensures handlers == old(handlers) && nextSerial == old(nextSerial)
      ensures metaCache == old(metaCache) && useMetaCache == old(useMetaCache)
      ensures !useMetaCache ==> r == Reflected(metaFactory(cls)) && cachedRuns == old(cachedRuns)
      ensures useMetaCache && metaCache == null ==> r == Failure(MissingMetaCache) && cachedRuns == old(cachedRuns)
      ensures useMetaCache && metaCache != null && cls in old(metaCache.cache) ==>
                r == Success(old(metaCache.cache)[cls]) && metaCache.cache == old(metaCache.cache) && cachedRuns == old(cachedRuns)
      ensures useMetaCache && metaCache != null && cls !in old(metaCache.cache) && r.Success? ==>
                r == Reflected(metaFactory(cls)) && metaCache.cache == old(metaCache.cache)[cls := r.value]
                && cachedRuns == old(cachedRuns) + [cls]
      ensures useMetaCache && metaCache != null && cls !in old(metaCache.cache) && r.Failure? ==>
                r == Reflected(metaFactory(cls)) && metaCache.cache == old(metaCache.cache) && cachedRuns == old(cachedRuns)
      ensures old(CacheFaithful()) ==> CacheFaithful() && r == Reflected(metaFactory(cls))
      ensures old(RunsCached()) ==> RunsCached()
    {
      if useMetaCache {
        if metaCache == null {
          return Failure(MissingMetaCache);
        }
        if !metaCache.Contains(cls) {
          var created := metaFactory(cls);
          if created.Failure? {
            return Reflected(created);
          }
          metaCache.Put(cls, created.value);
          cachedRuns := cachedRuns + [cls];
        }
        var cached := metaCache.Get(cls);
        return Success(cached.value);
      } else {
        return Reflected(metaFactory(cls));
      }
    }

    /** Appends `h` to the bucket of each class it handles, creating missing buckets. */
    method AddToHandledBuckets(h: Handler)
      modifies this`handlers
      ensures handlers == AddToBuckets(old(handlers), h)
    {
      handlers := AppendToEach(handlers, h, h.HandledClasses());
    }

    /**
     * One turn of `add`'s first loop: the Handler of the next object, built
     * from its class's metas through `getMetaInfo` and numbered next, is
     * appended to the Handlers built so far.
     */
    method BuildNext(objects: seq<Obj>, built: seq<Handler>) returns (r: Result<seq<Handler>, RegistrationError>)
      requires CacheValid()
      requires |built| < |objects| && BuiltFrom(built, objects, nextSerial)
      modifies this`cachedRuns, metaCache
      ensures CacheValid()
      ensures r.Success? ==> |r.value| == |built| + 1 && r.value[..|built|] == built && BuiltFrom(r.value, objects, nextSerial)
      ensures useMetaCache && metaCache == null ==> r == Failure(MissingMetaCache)
      ensures old(CacheFaithful()) ==> CacheFaithful()
      ensures old(CacheFaithful()) && BuildAll(metaFactory, nextSerial, objects[..|built|]) == Success(built) ==>
                if r.Success? then BuildAll(metaFactory, nextSerial, objects[..|built| + 1]) == r
                else BuildAll(metaFactory, nextSerial, objects) == r
      ensures old(RunsCached()) ==> RunsCached()
      ensures metaCache != null ==> CacheStep(metaFactory, objects[|built|].cls, old(metaCache.cache), metaCache.cache, old(cachedRuns), cachedRuns)
      ensures useMetaCache && metaCache != null && r.Success? ==> objects[|built|].cls in metaCache.cache
    {
      var i := |built|;
      var metas := GetMetaInfo(objects[i].cls);
      var h := if metas.Success? then NewHandler(nextSerial + i, objects[i], metas.value) else Failure(metas.error);
      ghost var prefixBuilt := old(CacheFaithful()) && BuildAll(metaFactory, nextSerial, objects[..i]) == Success(built);
      if h.Failure? {
        if prefixBuilt {
          BuildAllStopsAtFirstFailure(metaFactory, nextSerial, objects, i);
        }
        return Failure(h.error);
      }
      if prefixBuilt {
        BuildAllExtends(metaFactory, nextSerial, objects, i, built, h.value);
      }
      BuiltFromExtends(built, objects, nextSerial, h.value);
      return Success(built + [h.value]);
    }

    /**
     * The first half of `add`: builds a Handler for each object, in order,
     * without touching the index; stops at the first object that fails.
     */
    method BuildHandlers(objects: seq<Obj>) returns (r: Result<seq<Handler>, RegistrationError>)
      requires Valid()
      modifies this`cachedRuns, metaCache
      ensures Valid()
      ensures handlers == old(handlers) && nextSerial == old(nextSerial)
      ensures metaCache == old(metaCache) && useMetaCache == old(useMetaCache)
      ensures r.Success? ==> |r.value| == |objects| && NumberedFrom(r.value, nextSerial)
      ensures r.Success? ==> forall k :: 0 <= k < |objects| ==> r.value[k].wrapped == objects[k] && r.value[k].metas != []
      ensures useMetaCache && metaCache == null && objects != [] ==> r == Failure(MissingMetaCache)
      ensures old(CacheFaithful()) ==> CacheFaithful() && r == BuildAll(metaFactory, nextSerial, objects)
      ensures old(RunsCached()) ==> RunsCached()
      ensures metaCache != null ==> CacheGrows(metaFactory, ClassesOf(objects), old(metaCache.cache), metaCache.cache, old(cachedRuns), cachedRuns)
      ensures useMetaCache && metaCache != null && r.Success? ==> forall k :: 0 <= k < |objects| ==> objects[k].cls in metaCache.cache
    {
      ghost var classes := ClassesOf(objects);
      var built: seq<Handler> := [];
      var i := 0;
      while i < |objects|
        invariant 0 <= i <= |objects|
        invariant CacheValid()
        invariant |built| == i && BuiltFrom(built, objects, nextSerial)
        invariant useMetaCache && metaCache == null ==> i == 0
        invariant old(CacheFaithful()) ==> CacheFaithful() && BuildAll(metaFactory, nextSerial, objects[..i]) == Success(built)
        invariant old(RunsCached()) ==> RunsCached()
        invariant metaCache != null ==> CacheGrows(metaFactory, classes, old(metaCache.cache), metaCache.cache, old(cachedRuns), cachedRuns)
        invariant useMetaCache && metaCache != null ==> forall k :: 0 <= k < i ==> objects[k].cls in metaCache.cache
      {
        ghost var cacheBefore := if metaCache != null then metaCache.cache else map[];
        ghost var runsBefore := cachedRuns;
        var next := BuildNext(objects, built);
        if metaCache != null {
          assert CacheGrows(metaFactory, classes, old(metaCache.cache), metaCache.cache, old(cachedRuns), cachedRuns) by {
            CacheGrowsStep(metaFactory, classes, objects[i].cls, old(metaCache.cache), cacheBefore, metaCache.cache,
                           old(cachedRuns), runsBefore, cachedRuns);
          }
        }
        if next.Failure? {
          return next;
        }
        built := next.value;
        i := i + 1;
      }
      assert objects[..i] == objects;
      return Success(built);
    }

    /**
     * The second half of `add`: indexes the built Handlers, in order; they
     * take the next serials.
     */
    method IndexHandlers(hs: seq<Handler>)
      requires Valid() && NumberedFrom(hs, nextSerial)
      modifies this`handlers, this`nextSerial
      ensures Valid()
      ensures handlers == IndexAll(old(handlers), hs) && nextSerial == old(nextSerial) + |hs|
    {
      var j := 0;
      while j < |hs|
        invariant 0 <= j <= |hs|
        invariant handlers == IndexAll(old(handlers), hs[..j]) && nextSerial == old(nextSerial)
      {
        assert hs[..j + 1][..j] == hs[..j];
        AddToHandledBuckets(hs[j]);
        j := j + 1;
      }
      assert hs[..j] == hs;
      IndexAllWellFormed(old(handlers), nextSerial, hs);
      nextSerial := nextSerial + |hs|;
    }

    /**
     * `add(objects...)`: builds every Handler first and only then indexes
     * them, so the index changes for all objects or for none. The meta
     * cache may still have grown when a later object fails.
     */
    method Add(objects: seq<Obj>) returns (r: Result<seq<Handler>, RegistrationError>)
      requires Valid()
      modifies this, metaCache
      ensures Valid()
      ensures metaCache == old(metaCache) && useMetaCache == old(useMetaCache)
      ensures objects == [] ==> r == Success([]) && handlers == old(handlers)
      ensures r.Failure? ==> handlers == old(handlers) && nextSerial == old(nextSerial)
      ensures r.Success? ==> |r.value| == |objects| && NumberedFrom(r.value, old(nextSerial))
      ensures r.Success? ==> forall k :: 0 <= k < |objects| ==> r.value[k].wrapped == objects[k] && r.value[k].metas != []
      ensures r.Success? ==> handlers == IndexAll(old(handlers), r.value) && nextSerial == old(nextSerial) + |objects|
      ensures useMetaCache && metaCache == null && objects != [] ==> r == Failure(MissingMetaCache)
      ensures old(CacheFaithful()) ==> CacheFaithful() && r == BuildAll(metaFactory, old(nextSerial), objects)
      ensures old(RunsCached()) ==> RunsCached()
      ensures metaCache != null ==> CacheGrows(metaFactory, ClassesOf(objects), old(metaCache.cache), metaCache.cache, old(cachedRuns), cachedRuns)
      ensures useMetaCache && metaCache != null && r.Success? ==> forall k :: 0 <= k < |objects| ==> objects[k].cls in metaCache.cache
      ensures objects == [] ==> cachedRuns == old(cachedRuns) && (metaCache != null ==> metaCache.cache == old(metaCache.cache))
    {
      if |objects| == 0 {
        return Success([]);
      }
      r := BuildHandlers(objects);
      if r.Success? {
        IndexHandlers(r.value);
      }
    }

    /**
     * The private `remove(handler)`: `List.remove` on the bucket of each
     * class the Handler handles. Each of those buckets must exist; buckets
     * are never deleted, only emptied.
     */
    method RemoveHandler(h: Handler)
      requires DistinctBuckets(handlers) && OnlyHandledBuckets(handlers)
      requires forall c :: c in h.HandledClasses() ==> c in handlers
      modifies this`handlers
      ensures handlers == DropAll(old(handlers), {h})
      ensures metaCache == old(metaCache) && useMetaCache == old(useMetaCache)
      ensures nextSerial == old(nextSerial) && cachedRuns == old(cachedRuns)
    {
      ghost var H0 := handlers;
      RemoveFromBuckets(h, h.HandledClasses());
      DropFromHandled(H0, h);
    }

    /** `List.remove(h)` on the bucket of each class of `classes`. */
    method RemoveFromBuckets(h: Handler, classes: set<ClassId>)
      requires forall c :: c in classes ==> c in handlers
      requires DistinctBuckets(handlers)
      modifies this`handlers
      ensures handlers == DropFrom(old(handlers), h, classes)
      ensures metaCache == old(metaCache) && useMetaCache == old(useMetaCache)
      ensures nextSerial == old(nextSerial) && cachedRuns == old(cachedRuns)
    {
      handlers := RemoveFromEach(handlers, h, classes);
    }

    /** `forEach(remove)` over a list of Handlers whose buckets all exist. */
    method RemoveEach(hs: seq<Handler>)
      requires DistinctBuckets(handlers) && OnlyHandledBuckets(handlers)
      requires forall h, c :: h in hs && c in h.HandledClasses() ==> c in handlers
      modifies this`handlers
      ensures handlers == DropAll(old(handlers), Members(hs))
      ensures metaCache == old(metaCache) && useMetaCache == old(useMetaCache)
      ensures nextSerial == old(nextSerial) && cachedRuns == old(cachedRuns)
    {
      ghost var H0 := handlers;
      ghost var gone: set<Handler> := {};
      DropAllNone(H0);
      var i := 0;
      while i < |hs|
        invariant 0 <= i <= |hs|
        invariant DistinctBuckets(handlers) && OnlyHandledBuckets(handlers)
        invariant handlers.Keys == H0.Keys
        invariant handlers == DropAll(H0, gone)
        invariant gone == Members(hs[..i])
      {
        var h := hs[i];
        assert h in hs;
        ghost var before := handlers;
        RemoveHandler(h);
        DropAllKeepsShape(before, {h});
        DropAllDropAll(H0, gone, {h});
        assert Members(hs[..i + 1]) == gone + {h} by {
          assert forall x :: x in hs[..i + 1] <==> x in hs[..i] || x == h;
        }
        gone := gone + {h};
        i := i + 1;
      }
      assert hs[..i] == hs;
    }

    /**
     * One argument of a removal: a snapshot of all Handlers, filtered by
     * `args[i]`, each removed from every bucket. Extends the removal of the
     * matches of `args[..i]` to those of `args[..i + 1]`.
     */
    method RemoveMatching<A>(ghost H0: Index, args: seq<A>, i: nat, matches: (Handler, A) -> bool)
      requires Valid() && i < |args|
      requires handlers == DropAll(H0, MatchedBy(H0, args[..i], matches))
      modifies this`handlers
      ensures Valid()
      ensures handlers == DropAll(H0, MatchedBy(H0, args[..i + 1], matches))
      ensures metaCache == old(metaCache) && useMetaCache == old(useMetaCache)
      ensures nextSerial == old(nextSerial) && cachedRuns == old(cachedRuns)
    {
      ghost var H1 := handlers;
      var a := args[i];
      var all := GetAll();
      var matching := Select(all, h => matches(h, a));
      assert forall h :: h in matching ==> h in Registered(handlers);
      HandledBucketsExist(handlers, matching);
      RemoveEach(matching);
      DropAllWellFormed(H1, nextSerial, Members(matching));
      MatchedByNext(H0, args, i, matches, matching);
    }

    /**
     * The shared shape of both public removals: for each argument, take a
     * snapshot of all Handlers, keep those the argument matches, and remove
     * each one from every bucket.
     */
    method RemoveWhere<A>(args: seq<A>, matches: (Handler, A) -> bool)
      requires Valid()
      modifies this`handlers
      ensures Valid()
      ensures handlers == DropAll(old(handlers), MatchedBy(old(handlers), args, matches))
      ensures metaCache == old(metaCache) && useMetaCache == old(useMetaCache)
      ensures nextSerial == old(nextSerial) && cachedRuns == old(cachedRuns)
    {
      ghost var H0 := handlers;
      assert MatchedBy(H0, args[..0], matches) == {};
      DropAllNone(H0);
      var i := 0;
      while i < |args|
        invariant 0 <= i <= |args|
        invariant Valid()
        invariant handlers == DropAll(H0, MatchedBy(H0, args[..i], matches))
      {
        RemoveMatching(H0, args, i, matches);
        i := i + 1;
      }
      assert args[..i] == args;
    }

    /**
     * `remove(objects...)`: every Handler whose wrapped object equals one of
     * `objects` leaves every bucket; all other Handlers stay, in order.
     */
    method Remove(objects: seq<Obj>)
      requires Valid()
      modifies this`handlers
      ensures Valid()
      ensures handlers == DropAll(old(handlers), set h | h in Registered(old(handlers)) && h.wrapped in objects)
      ensures metaCache == old(metaCache) && useMetaCache == old(useMetaCache) && nextSerial == old(nextSerial)
    {
      var equalsWrapped := (h: Handler, o: Obj) => h.wrapped == o;
      ghost var H0 := handlers;
      RemoveWhere(objects, equalsWrapped);
      MatchedByAny(H0, objects, equalsWrapped);
      assert MatchedBy(H0, objects, equalsWrapped) == set h | h in Registered(H0) && h.wrapped in objects by {
        forall h | h in Registered(H0) && h.wrapped in objects
          ensures h in MatchedBy(H0, objects, equalsWrapped)
        {
          assert equalsWrapped(h, h.wrapped);
        }
      }
    }

    /**
     * `remove(classes...)` as written: the class test is applied to the
     * Handler wrapper, not to the wrapped object, so only the wrapper's own
     * class and its supertypes remove anything, and they remove everything.
     */
    method RemoveClasses(classes: seq<ClassId>)
      requires Valid()
      modifies this`handlers
      ensures Valid()
      ensures handlers == DropAll(old(handlers), set h | h in Registered(old(handlers)) && exists c :: c in classes && InstanceOf(WrapperObject(h), c))
      ensures metaCache == old(metaCache) && useMetaCache == old(useMetaCache) && nextSerial == old(nextSerial)
    {
      var wrapperIsInstance := (h: Handler, c: ClassId) => InstanceOf(WrapperObject(h), c);
      ghost var H0 := handlers;
      RemoveWhere(classes, wrapperIsInstance);
      MatchedByAny(H0, classes, wrapperIsInstance);
      assert MatchedBy(H0, classes, wrapperIsInstance)
          == set h | h in Registered(H0) && exists c :: c in classes && InstanceOf(WrapperObject(h), c) by {
        forall h | h in Registered(H0)
          ensures (exists c :: c in classes && wrapperIsInstance(h, c)) <==> (exists c :: c in classes && InstanceOf(WrapperObject(h), c))
        {
        }
      }
    }

    /**
     * `remove(classes...)` as its documentation describes it: removes the
     * Handlers whose wrapped object is an instance of one of `classes`.
     */
    method RemoveInstancesOf(classes: seq<ClassId>)
      requires Valid()
      modifies this`handlers
      ensures Valid()
      ensures handlers == DropAll(old(handlers), set h | h in Registered(old(handlers)) && exists c :: c in classes && InstanceOf(h.wrapped, c))
      ensures metaCache == old(metaCache) && useMetaCache == old(useMetaCache) && nextSerial == old(nextSerial)
    {
      var wrappedIsInstance := (h: Handler, c: ClassId) => InstanceOf(h.wrapped, c);
      ghost var H0 := handlers;
      RemoveWhere(classes, wrappedIsInstance);
      MatchedByAny(H0, classes, wrappedIsInstance);
      assert MatchedBy(H0, classes, wrappedIsInstance)
          == set h | h in Registered(H0) && exists c :: c in classes && InstanceOf(h.wrapped, c) by {
        forall h | h in Registered(H0)
          ensures (exists c :: c in classes && wrappedIsInstance(h, c)) <==> (exists c :: c in classes && InstanceOf(h.wrapped, c))
        {
        }
      }
    }

    /** `get(event)`: the bucket of the event's exact runtime class, or the empty list. */
    function Get(event: Obj): (r: seq<Handler>)
      reads this, metaCache
      requires Valid()
      ensures forall h :: h in r <==> h in Registered(handlers) && event.cls in h.HandledClasses()
      ensures NoDuplicates(r)
      ensures event.cls !in handlers ==> r == []
    {
      BucketHoldsItsHandlers(handlers, event.cls);
      Bucket(handlers, event.cls)
    }

    /** `get()`: every registered Handler exactly once. The order of buckets is left open. */
    method GetAll() returns (r: seq<Handler>)
      ensures forall h :: h in r <==> h in Registered(handlers)
      ensures NoDuplicates(r)
    {
      var all: seq<Handler> := [];
      var keys := handlers.Keys;
      while keys != {}
        invariant keys <= handlers.Keys
        invariant forall h :: h in all <==> exists c :: c in handlers && c !in keys && h in handlers[c]
        decreases |keys|
      {
        var c :| c in keys;
        all := all + handlers[c];
        keys := keys - {c};
      }
      r := Distinct(all);
    }

    /** `disableMetaCaching()`: clears and drops any installed cache. */
    method DisableMetaCaching()
      requires Valid()
      modifies this, metaCache
      ensures Valid() && CacheFaithful() && RunsCached()
      ensures metaCache == null && !useMetaCache && cachedRuns == []
      ensures old(metaCache) != null ==> old(metaCache).cache == map[]
      ensures handlers == old(handlers) && nextSerial == old(nextSerial)
    {
      if metaCache != null {
        metaCache.Clear();
        metaCache := null;
      }
      useMetaCache := false;
      cachedRuns := [];
    }

    /** `enableMetaCaching(cache)`: disables caching first (clearing the old cache), then installs `cache`. */
    method EnableMetaCaching(cache: HandleMetaCache?)
      requires Valid()
      modifies this, metaCache
      ensures Valid() && RunsCached()
      ensures metaCache == cache && useMetaCache && cachedRuns == []
      ensures old(metaCache) != null ==> old(metaCache).cache == map[]
      ensures cache != null && cache != old(metaCache) ==> cache.cache == old(cache.cache)
      ensures handlers == old(handlers) && nextSerial == old(nextSerial)
    {
      DisableMetaCaching();
      metaCache := cache;
      useMetaCache := true;
    }

    /** `enableMetaCaching()`: installs a new, empty map-backed cache. */
    method EnableDefaultMetaCaching()
      requires Valid()
      modifies this, metaCache
      ensures Valid() && CacheFaithful() && RunsCached()
      ensures metaCache != null && fresh(metaCache) && metaCache.cache == map[] && useMetaCache
      ensures old(metaCache) != null ==> old(metaCache).cache == map[]
      ensures handlers == old(handlers) && nextSerial == old(nextSerial)
    {
      var cache := new HandleMetaCache();
      EnableMetaCaching(cache);
    }
  }
}
