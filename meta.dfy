/**
 * Handle meta information (what a handler class declares it handles) and
 * the map-backed meta cache.
 */
module Meta {
  import opened Lang

  /** Identity of a reflected handler method. */
  datatype MethodRef = MethodRef(name: string, serial: nat)

  /**
   * The reflective access flags of all methods (`Method.isAccessible()`):
   * the set of methods whose flag is currently on.
   */
  class AccessFlags {
    var accessible: set<MethodRef>

    constructor (accessible: set<MethodRef>)
      ensures this.accessible == accessible
    {
      this.accessible := accessible;
    }

    function IsAccessible(m: MethodRef): bool
      reads this
    {
      m in accessible
    }

    /** `Method.setAccessible(on)`; no other method's flag changes. */
    method SetAccessible(m: MethodRef, on: bool)
      modifies this
      ensures IsAccessible(m) == on
      ensures accessible == if on then old(accessible) + {m} else old(accessible) - {m}
    {
      if on {
        accessible := accessible + {m};
      } else {
        accessible := accessible - {m};
      }
    }
  }

  /** One declared binding: the method, the event class it accepts, the strategy class it asks for. */
  datatype HandleMeta = HandleMeta(target: MethodRef, handledClass: ClassId, dispatchStrategy: ClassId)

  /** An EasyDispatchReflectionException raised while reading a handler class's declarations. */
  datatype MetaError = MetaError(message: string)

  /**
   * The meta factory: from a handler class to its handle metas, or a
   * reflection error. Its reflective implementation is not modelled.
   */
  type MetaFactory = ClassId -> Result<seq<HandleMeta>, MetaError>

  /** The concurrent-map meta cache: a plain map from handler class to its metas. */
  class HandleMetaCache {
    var cache: map<ClassId, seq<HandleMeta>>

    constructor ()
      ensures cache == map[]
    {
      cache := map[];
    }

    /** Whether an entry exists for `cls`. */
    function Contains(cls: ClassId): (r: bool)
      reads this
      ensures r == Get(cls).Some?
    {
      cls in cache
    }

    /** The cached metas for `cls`, or None (the source's null) when there is no entry. */
    function Get(cls: ClassId): (r: Option<seq<HandleMeta>>)
      reads this
      ensures r.Some? <==> cls in cache
      ensures r.Some? ==> r.value == cache[cls]
    {
      if cls in cache then Some(cache[cls]) else None
    }

    /** Stores `metas` for `cls`, overwriting any earlier entry; other entries are untouched. */
    method Put(cls: ClassId, metas: seq<HandleMeta>)
      modifies this
      ensures Contains(cls) && Get(cls) == Some(metas)
      ensures forall c :: c != cls ==> Get(c) == old(Get(c))
      ensures cache == old(cache)[cls := metas]
    {
      cache := cache[cls := metas];
    }

    /** Removes every entry. */
    method Clear()
      modifies this
      ensures forall c :: !Contains(c)
      ensures cache == map[]
    {
      cache := map[];
    }
  }
}
