/**
 The two allocators together, under any interleaving of any number of threads.  Each section
 of code that runs under one lock is one event; the state keeps what a thread holds between
 two of its sections.  Addresses are bytes from the start of the managed region.
 */
module SlabSystem {
  import opened Sequences
  import opened Powers
  import opened Wrappers
  import opened BuddyModel
  import opened BuddyTheorems
  import opened BuddyRuns
  import opened SlabGeometry
  import opened SlabModel
  import opened SlabTheorems

  /** How far a thread has got with a block it is turning into a slab, or back into pages. */
  datatype Phase = Fresh(cache: nat) | Published(cache: nat) | Popped(cache: nat) | Cleared(cache: nat)

  /** A free in progress: the cache passed by the caller and the slab read from owner_slab. */
  datatype Flight = Flight(cache: nat, slab: Option<nat>)

  datatype Sys = Sys(
    pool: Pool,
    caches: seq<Cache>,
    pending: map<nat, Phase>,
    objs: set<Obj>,
    freeing: map<Obj, Flight>,
    raw: set<nat>)

  datatype Event =
    | Create(geom: Geometry)
    | AllocFast(cache: nat)
    | Grow(cache: nat)
    | GrowPublish(block: nat)
    | GrowAttach(block: nat)
    | FreeBegin(obj: Obj, cache: nat)
    | FreeFinish(obj: Obj)
    | ShrinkPop(cache: nat)
    | ShrinkClear(block: nat)
    | ShrinkFree(block: nat)
    | RawAlloc(pages: nat)
    | RawFree(block: nat)

  function Address(g: Geometry, o: Obj): nat {
    ObjPtr(g, o.slab * 4096, o.index)
  }

  function Lookup(owner: map<nat, nat>, page: nat): Option<nat> {
    if page in owner then Some(owner[page]) else None
  }

  // ------------------------------------------------------------------ invariant

  ghost predicate Attached(caches: seq<Cache>, a: nat) {
    exists c: nat :: c < |caches| && a in caches[c].free
  }

  /** The slabs of a cache are live blocks of its order, published, and held by nobody else. */
  ghost predicate SlabsOk(live: map<nat, nat>, owner: map<nat, nat>, caches: seq<Cache>, pending: map<nat, Phase>,
      raw: set<nat>)
  {
    forall c: nat, a :: c < |caches| && a in caches[c].free ==>
      a in live && live[a] == caches[c].geom.order && a in owner && a !in pending && a !in raw
  }

  ghost predicate CachesApart(caches: seq<Cache>) {
    forall c: nat, d: nat, a :: c < |caches| && d < |caches| && a in caches[c].free && a in caches[d].free ==> c == d
  }

  ghost predicate PendingBlock(live: map<nat, nat>, owned: bool, caches: seq<Cache>, phase: Phase, a: nat) {
    && a in live && phase.cache < |caches|
    && live[a] == caches[phase.cache].geom.order
    && (owned <==> phase.Published? || phase.Popped?)
  }

  /** A block held by a thread is live, of its cache's order, and published in the two middle phases only. */
  ghost predicate PendingOk(live: map<nat, nat>, owner: map<nat, nat>, caches: seq<Cache>, pending: map<nat, Phase>,
      raw: set<nat>)
  {
    forall a :: a in pending ==> a !in raw && PendingBlock(live, a in owner, caches, pending[a], a)
  }

  ghost predicate RawOk(live: map<nat, nat>, owner: map<nat, nat>, raw: set<nat>) {
    forall a :: a in raw ==> a in live && a !in owner
  }

  ghost predicate NoneLost(live: map<nat, nat>, caches: seq<Cache>, pending: map<nat, Phase>, raw: set<nat>) {
    forall a :: a in live ==> a in raw || a in pending || Attached(caches, a)
  }

  /** Every live block is exactly one of: a raw block, a block held by one thread, a slab of one cache. */
  ghost predicate BlocksOk(live: map<nat, nat>, owner: map<nat, nat>, caches: seq<Cache>, pending: map<nat, Phase>,
      raw: set<nat>)
  {
    && SlabsOk(live, owner, caches, pending, raw)
    && CachesApart(caches)
    && PendingOk(live, owner, caches, pending, raw)
    && RawOk(live, owner, raw)
    && NoneLost(live, caches, pending, raw)
  }

  /** owner_slab of a page names the live block that holds the page. */
  ghost predicate OwnersPoint(live: map<nat, nat>, owner: map<nat, nat>) {
    forall p :: p in owner ==> owner[p] in live && In(p, Block(owner[p], live[owner[p]]))
  }

  ghost predicate UsedBy(caches: seq<Cache>, o: Obj) {
    exists c: nat :: c < |caches| && InUse(caches[c], o)
  }

  /** The objects the slabs count as in use are the live ones and those being freed. */
  ghost predicate ObjectsOk(caches: seq<Cache>, objs: set<Obj>, freeing: map<Obj, Flight>) {
    && (forall o :: o in objs || o in freeing <==> UsedBy(caches, o))
    && (forall o :: o in freeing ==> o !in objs)
    && (forall o :: o in freeing ==>
          freeing[o].cache < |caches| && o.slab in caches[freeing[o].cache].free && freeing[o].slab == Some(o.slab))
  }

  ghost predicate CachesOk(caches: seq<Cache>) {
    forall c :: 0 <= c < |caches| ==> CacheInv(caches[c]) && caches[c].geom.order <= MAX_SLAB_ORDER
  }

  ghost predicate SysInv(s: Sys) {
    && Inv(s.pool)
    && CachesOk(s.caches)
    && BlocksOk(s.pool.live, s.pool.owner, s.caches, s.pending, s.raw)
    && OwnersPoint(s.pool.live, s.pool.owner)
    && ObjectsOk(s.caches, s.objs, s.freeing)
  }

  // ---------------------------------------------------------------------- steps

  /**
   What the callers promise: frees of live things only, with the cache they came from; threads take their sections in
   order.
   */
  ghost predicate Enabled(s: Sys, e: Event) {
    match e
    case Create(geom) => Sound(geom) && geom.order <= MAX_SLAB_ORDER
    case AllocFast(c) => c < |s.caches|
    case Grow(c) => c < |s.caches|
    case GrowPublish(a) => a in s.pending && s.pending[a].Fresh? && a in s.pool.live
    case GrowAttach(a) => a in s.pending && s.pending[a].Published? && s.pending[a].cache < |s.caches|
    case FreeBegin(o, c) => o in s.objs && c < |s.caches| && o.slab in s.caches[c].free
    case FreeFinish(o) => o in s.freeing && s.freeing[o].cache < |s.caches|
    case ShrinkPop(c) => c < |s.caches|
    case ShrinkClear(a) => a in s.pending && s.pending[a].Popped? && a in s.pool.live
    case ShrinkFree(a) => a in s.pending && s.pending[a].Cleared?
    case RawAlloc(pages) => true
    case RawFree(a) => a in s.raw
  }

  function Give(s: Sys, c: nat, r: (Cache, Option<Obj>)): Sys
    requires c < |s.caches|
  {
    var s' := s.(caches := s.caches[c := r.0]);
    if r.1.Some? then s'.(objs := s'.objs + {r.1.value}) else s'
  }

  /** The locked section that ends kmem_cache_free, with the slab found and the index computed from the address. */
  function Finish(s: Sys, o: Obj): Sys
    requires o in s.freeing && s.freeing[o].cache < |s.caches|
    requires s.caches[s.freeing[o].cache].geom.objectSize > 0
  {
    var f := s.freeing[o];
    var c := s.caches[f.cache];
    var done := s.(freeing := s.freeing - {o});
    // no owner; a slab of another cache; a slab with nothing in use; an address below the slab
    if f.slab.None? || f.slab.value !in c.free || |c.free[f.slab.value]| == c.geom.count ||
      f.slab.value > o.slab then done
    else
      var a := f.slab.value;
      var i := ObjIndex(c.geom, a * 4096, Address(c.geom, o));
      done.(caches := s.caches[f.cache := Put(c, Obj(a, i))])
  }

  ghost function Next(s: Sys, e: Event): Sys
    requires SysInv(s) && Enabled(s, e)
  {
    match e
    case Create(geom) => s.(caches := s.caches + [Cache(geom, [], [], [], map[])])
    case AllocFast(c) => Give(s, c, Take(s.caches[c]))
    case Grow(c) =>
      var (pool, r) := Alloc(s.pool, Pow2(s.caches[c].geom.order));
      if r.Some? then s.(pool := pool, pending := s.pending[r.value := Fresh(c)]) else s
    case GrowPublish(a) =>
      s.(pool := Publish(s.pool, a), pending := s.pending[a := Published(s.pending[a].cache)])
    case GrowAttach(a) =>
      var c := s.pending[a].cache;
      Give(s.(pending := s.pending - {a}), c, Attach(s.caches[c], a))
    case FreeBegin(o, c) =>
      var page := Address(s.caches[c].geom, o) / 4096;
      s.(objs := s.objs - {o}, freeing := s.freeing[o := Flight(c, Lookup(s.pool.owner, page))])
    case FreeFinish(o) =>
      assert CacheInv(s.caches[s.freeing[o].cache]);
      Finish(s, o)
    case ShrinkPop(c) =>
      var (cache, r) := PopEmpty(s.caches[c]);
      if r.Some? then s.(caches := s.caches[c := cache], pending := s.pending[r.value := Popped(c)]) else s
    case ShrinkClear(a) =>
      s.(pool := Unpublish(s.pool, a), pending := s.pending[a := Cleared(s.pending[a].cache)])
    case ShrinkFree(a) => s.(pool := Free(s.pool, a), pending := s.pending - {a})
    case RawAlloc(pages) =>
      var (pool, r) := Alloc(s.pool, pages);
      if r.Some? then s.(pool := pool, raw := s.raw + {r.value}) else s
    case RawFree(a) => s.(pool := Free(s.pool, a), raw := s.raw - {a})
  }

  // ------------------------------------------------------- objects and their pages

  /** An object lies in the pages of its slab's block. */
  lemma ObjectPage(g: Geometry, o: Obj)
    requires Sound(g) && o.index < g.count
    ensures In(Address(g, o) / 4096, Block(o.slab, g.order))
    ensures o.slab * 4096 <= Address(g, o) && Address(g, o) + g.objectSize <= (o.slab + Pow2(g.order)) * 4096
  {
    hide Pow2;
    ObjectsApart(g, o.slab * 4096, o.index, o.index);
  }

  /** owner_slab of any page of a slab is that slab. */
  lemma PageOwner(s: Sys, a: nat, p: nat)
    requires SysInv(s) && a in s.pool.live && a in s.pool.owner && In(p, Block(a, s.pool.live[a]))
    ensures p in s.pool.owner && s.pool.owner[p] == a
  {
    var live := s.pool.live;
    assert p in s.pool.owner;
    var b := s.pool.owner[p];
    assert Block(a, live[a]) in LiveBlocks(live) && Block(b, live[b]) in LiveBlocks(live);
  }

  // --------------------------------------------------------------- cache updates

  /** Replacing a cache by one with the same slabs and geometry moves no block. */
  lemma BlocksSameSlabs(live: map<nat, nat>, owner: map<nat, nat>, caches: seq<Cache>, pending: map<nat, Phase>,
      raw: set<nat>, c: nat, cache: Cache)
    requires BlocksOk(live, owner, caches, pending, raw) && c < |caches|
    requires cache.geom == caches[c].geom && cache.free.Keys == caches[c].free.Keys
    ensures BlocksOk(live, owner, caches[c := cache], pending, raw)
  {
    hide SlabsOk, PendingOk, CachesApart, NoneLost;
    SlabsSame(live, owner, caches, pending, raw, c, cache);
    PendingSame(live, owner, caches, pending, raw, c, cache);
    LostSame(live, caches, pending, raw, c, cache);
  }

  lemma SlabsSame(live: map<nat, nat>, owner: map<nat, nat>, caches: seq<Cache>, pending: map<nat, Phase>,
      raw: set<nat>, c: nat, cache: Cache)
    requires SlabsOk(live, owner, caches, pending, raw) && CachesApart(caches) && c < |caches|
    requires cache.geom == caches[c].geom && cache.free.Keys == caches[c].free.Keys
    ensures SlabsOk(live, owner, caches[c := cache], pending, raw) && CachesApart(caches[c := cache])
  {
  }

  lemma PendingSame(live: map<nat, nat>, owner: map<nat, nat>, caches: seq<Cache>, pending: map<nat, Phase>,
      raw: set<nat>, c: nat, cache: Cache)
    requires PendingOk(live, owner, caches, pending, raw) && c < |caches| && cache.geom == caches[c].geom
    ensures PendingOk(live, owner, caches[c := cache], pending, raw)
  {
  }

  lemma LostSame(live: map<nat, nat>, caches: seq<Cache>, pending: map<nat, Phase>, raw: set<nat>, c: nat, cache: Cache)
    requires NoneLost(live, caches, pending, raw) && c < |caches| && cache.free.Keys == caches[c].free.Keys
    ensures NoneLost(live, caches[c := cache], pending, raw)
  {
    var caches' := caches[c := cache];
    forall a | Attached(caches, a)
      ensures Attached(caches', a)
    {
      var d: nat :| d < |caches| && a in caches[d].free;
      assert a in caches[d].free.Keys;
      assert a in caches'[d].free;
    }
  }

  /** No slab of another cache is a slab of cache c, before or after the update. */
  ghost predicate Apart(caches: seq<Cache>, c: nat, cache: Cache)
    requires c < |caches|
  {
    forall d: nat, a :: d < |caches| && d != c && a in caches[d].free ==> a !in cache.free && a !in caches[c].free
  }

  lemma UsedUpdate(caches: seq<Cache>, c: nat, cache: Cache, o: Obj)
    requires c < |caches| && Apart(caches, c, cache)
    ensures UsedBy(caches[c := cache], o) <==> InUse(cache, o) || (UsedBy(caches, o) && !InUse(caches[c], o))
  {
    var caches' := caches[c := cache];
    if InUse(cache, o) {
      assert InUse(caches'[c], o);
    }
    if d: nat :| d < |caches'| && InUse(caches'[d], o) {
      if d != c {
        assert InUse(caches[d], o);
      }
    }
    if d: nat :| d < |caches| && InUse(caches[d], o) {
      if d != c {
        assert InUse(caches'[d], o);
      }
    }
  }

  lemma UsedHere(caches: seq<Cache>, c: nat, o: Obj)
    requires c < |caches| && Apart(caches, c, caches[c]) && o.slab in caches[c].free
    ensures UsedBy(caches, o) <==> InUse(caches[c], o)
  {
  }

  lemma BlocksApart(s: Sys, c: nat, cache: Cache)
    requires SysInv(s) && c < |s.caches| && cache.free.Keys <= s.caches[c].free.Keys
    ensures Apart(s.caches, c, cache)
  {
  }

  /** One more object in use: it becomes live. */
  lemma ObjectsGain(caches: seq<Cache>, objs: set<Obj>, freeing: map<Obj, Flight>, c: nat, cache: Cache, o: Obj)
    requires ObjectsOk(caches, objs, freeing) && c < |caches| && Apart(caches, c, cache)
    requires cache.free.Keys >= caches[c].free.Keys && o.slab in cache.free
    requires !UsedBy(caches, o)
    requires forall x :: InUse(cache, x) <==> InUse(caches[c], x) || x == o
    ensures ObjectsOk(caches[c := cache], objs + {o}, freeing)
  {
    hide InUse;
    forall x
      ensures x in objs + {o} || x in freeing <==> UsedBy(caches[c := cache], x)
    {
      UsedUpdate(caches, c, cache, x);
    }
  }

  lemma NotUsed(s: Sys, c: nat, o: Obj)
    requires SysInv(s) && c < |s.caches| && o.slab in s.caches[c].free && !InUse(s.caches[c], o)
    ensures !UsedBy(s.caches, o)
  {
  }

  // ------------------------------------------------------------------ the events

  lemma AllocFastKeeps(s: Sys, c: nat)
    requires SysInv(s) && c < |s.caches|
    ensures SysInv(Next(s, AllocFast(c)))
  {
    hide Inv, ObjectsOk, OwnersPoint, BlocksOk, InUse, CacheInv, Take;
    var cache := s.caches[c];
    TakeKeeps(cache);
    var (cache', r) := Take(cache);
    BlocksSameSlabs(s.pool.live, s.pool.owner, s.caches, s.pending, s.raw, c, cache');
    if r.Some? {
      var o := r.value;
      BlocksApart(s, c, cache');
      TakenSlab(cache);
      NotUsed(s, c, o);
      ObjectsGain(s.caches, s.objs, s.freeing, c, cache', o);
    } else {
      assert s.caches[c := cache] == s.caches;
    }
  }

  lemma TakenSlab(c: Cache)
    requires CacheInv(c) && Take(c).1.Some?
    ensures Take(c).1.value.slab in c.free
  {
  }

  lemma OrderForPow2(k: nat)
    ensures OrderFor(Pow2(k)) == k
  {
    hide OrderFor, Pow2;
    var r := OrderFor(Pow2(k));
    if r < k {
      Pow2Monotone(r, k);
    } else if r > k {
      Pow2Monotone(k, r - 1);
    }
  }

  /** A block fresh from the page allocator belongs to nobody yet. */
  lemma FreshBlock(s: Sys, pages: nat)
    requires SysInv(s) && Alloc(s.pool, pages).1.Some?
    ensures var (pool, r) := Alloc(s.pool, pages);
            && Inv(pool) && r.value !in s.pool.live && pool.live == s.pool.live[r.value := OrderFor(pages)]
            && pool.owner == s.pool.owner && r.value !in s.pool.owner
            && r.value !in s.pending && r.value !in s.raw && !Attached(s.caches, r.value)
            && OwnersPoint(pool.live, pool.owner)
  {
    hide Tiling, NoDup, OwnersUniform, CachesOk, ObjectsOk, Alloc, OrderFor;
    AllocKeepsInv(s.pool, pages);
    var a := Alloc(s.pool, pages).1.value;
    assert In(a, Block(a, OrderFor(pages)));
    if a in s.pool.owner {
      OwnerCovered(s.pool, a);
      assert false;
    }
  }

  lemma OwnerCovered(pool: Pool, p: int)
    requires Inv(pool) && p in pool.owner
    ensures Covered(LiveBlocks(pool.live), p)
  {
  }

  /** A new live block, taken by a thread or handed out raw. */
  lemma BlocksMore(live: map<nat, nat>, owner: map<nat, nat>, caches: seq<Cache>, pending: map<nat, Phase>,
      raw: set<nat>, a: nat, k: nat, c: nat)
    requires BlocksOk(live, owner, caches, pending, raw)
    requires a !in live && a !in owner && a !in pending && a !in raw && !Attached(caches, a)
    ensures BlocksOk(live[a := k], owner, caches, pending, raw + {a})
    ensures c < |caches| && k == caches[c].geom.order ==>
      BlocksOk(live[a := k], owner, caches, pending[a := Fresh(c)], raw)
  {
    assert SlabsOk(live[a := k], owner, caches, pending[a := Fresh(c)], raw) by {
      hide PendingOk, NoneLost, CachesApart, RawOk;
    }
    assert SlabsOk(live[a := k], owner, caches, pending, raw + {a}) by {
      hide PendingOk, NoneLost, CachesApart, RawOk;
    }
    assert PendingOk(live[a := k], owner, caches, pending, raw + {a}) by {
      hide SlabsOk, NoneLost, CachesApart, RawOk;
    }
    if c < |caches| && k == caches[c].geom.order {
      assert PendingOk(live[a := k], owner, caches, pending[a := Fresh(c)], raw) by {
        hide SlabsOk, NoneLost, CachesApart, RawOk;
      }
    }
    hide SlabsOk, PendingOk, CachesApart, Attached;
  }

  lemma GrowKeeps(s: Sys, c: nat)
    requires SysInv(s) && c < |s.caches|
    ensures SysInv(Next(s, Grow(c)))
  {
    hide Tiled, OwnersUniform, CachesOk, ObjectsOk, OwnersPoint, BlocksOk, Alloc, OrderFor, Pow2;
    TiledListed(s.pool);
    var k := s.caches[c].geom.order;
    if Alloc(s.pool, Pow2(k)).1.Some? {
      FreshBlock(s, Pow2(k));
      OrderForPow2(k);
      BlocksMore(s.pool.live, s.pool.owner, s.caches, s.pending, s.raw, Alloc(s.pool, Pow2(k)).1.value, k, c);
    }
  }

  lemma RawAllocKeeps(s: Sys, pages: nat)
    requires SysInv(s)
    ensures SysInv(Next(s, RawAlloc(pages)))
  {
    hide Tiled, OwnersUniform, CachesOk, ObjectsOk, OwnersPoint, BlocksOk, Alloc, OrderFor, Pow2;
    TiledListed(s.pool);
    if Alloc(s.pool, pages).1.Some? {
      FreshBlock(s, pages);
      BlocksMore(s.pool.live, s.pool.owner, s.caches, s.pending, s.raw, Alloc(s.pool, pages).1.value, OrderFor(pages),
        0);
    }
  }

  /** Recording or forgetting the owner of a block changes no other block's owner. */
  lemma OwnersElsewhere(pool: Pool, a: nat)
    requires Inv(pool) && a in pool.live
    ensures forall h :: h in pool.live && h != a ==>
              && (h in Publish(pool, a).owner <==> h in pool.owner)
              && (h in Unpublish(pool, a).owner <==> h in pool.owner)
    ensures a in Publish(pool, a).owner && a !in Unpublish(pool, a).owner
    ensures OwnersPoint(pool.live, pool.owner) ==> OwnersPoint(pool.live, Publish(pool, a).owner)
    ensures OwnersPoint(pool.live, pool.owner) ==> OwnersPoint(pool.live, Unpublish(pool, a).owner)
  {
    hide Inv, Tiled, OwnersUniform;
    var live := pool.live;
    var b := Block(a, live[a]);
    assert In(a, b);
    forall h | h in live && h != a
      ensures !In(h, b)
    {
      HeadsApart(pool, a, h);
    }
  }

  lemma HeadsApart(pool: Pool, a: nat, h: nat)
    requires Inv(pool) && a in pool.live && h in pool.live && h != a
    ensures !In(h, Block(a, pool.live[a]))
  {
  }

  /** A change of phase together with the matching change of owner. */
  lemma BlocksPhase(live: map<nat, nat>, owner: map<nat, nat>, owner': map<nat, nat>, caches: seq<Cache>,
      pending: map<nat, Phase>, raw: set<nat>, a: nat, phase: Phase)
    requires BlocksOk(live, owner, caches, pending, raw) && a in pending && phase.cache == pending[a].cache
    requires a in owner' <==> phase.Published? || phase.Popped?
    requires forall h :: h in live && h != a ==> (h in owner' <==> h in owner)
    ensures BlocksOk(live, owner', caches, pending[a := phase], raw)
  {
  }

  lemma GrowPublishKeeps(s: Sys, a: nat)
    requires SysInv(s) && Enabled(s, GrowPublish(a))
    ensures SysInv(Next(s, GrowPublish(a)))
  {
    hide Inv, CachesOk, ObjectsOk, OwnersPoint, BlocksOk, Publish;
    OwnersKeepInv(s.pool, a);
    OwnersElsewhere(s.pool, a);
    PublishShape(s.pool, a);
    BlocksPhase(s.pool.live, s.pool.owner, Publish(s.pool, a).owner, s.caches, s.pending, s.raw, a,
      Published(s.pending[a].cache));
  }

  lemma PublishShape(pool: Pool, a: nat)
    requires a in pool.live
    ensures Publish(pool, a).live == pool.live && Unpublish(pool, a).live == pool.live
  {
  }

  lemma ShrinkClearKeeps(s: Sys, a: nat)
    requires SysInv(s) && Enabled(s, ShrinkClear(a))
    ensures SysInv(Next(s, ShrinkClear(a)))
  {
    hide Inv, CachesOk, ObjectsOk, OwnersPoint, BlocksOk, Unpublish;
    OwnersKeepInv(s.pool, a);
    OwnersElsewhere(s.pool, a);
    PublishShape(s.pool, a);
    BlocksPhase(s.pool.live, s.pool.owner, Unpublish(s.pool, a).owner, s.caches, s.pending, s.raw, a,
      Cleared(s.pending[a].cache));
  }

  lemma GrowAttachKeeps(s: Sys, a: nat)
    requires SysInv(s) && Enabled(s, GrowAttach(a))
    ensures SysInv(Next(s, GrowAttach(a)))
  {
    hide Inv, ObjectsOk, OwnersPoint, InUse, CacheInv, Attach, BlocksOk;
    var c := s.pending[a].cache;
    var cache := s.caches[c];
    PendingUnattached(s.pool.live, s.pool.owner, s.caches, s.pending, s.raw, a);
    AttachKeeps(cache, a);
    var (cache', r) := Attach(cache, a);
    SameKeys(cache', cache, a);
    BlocksAttach(s.pool.live, s.pool.owner, s.caches, s.pending, s.raw, c, cache', a);
    UnattachedUnused(s.caches, r.value);
    BlocksApart(s, c, cache);
    AttachApart(s.caches, c, cache', a);
    ObjectsGain(s.caches, s.objs, s.freeing, c, cache', r.value);
  }

  lemma SameKeys(cache': Cache, cache: Cache, a: nat)
    requires cache'.free.Keys == cache.free.Keys + {a}
    ensures forall x :: x in cache'.free <==> x in cache.free || x == a
  {
  }

  lemma PendingUnattached(live: map<nat, nat>, owner: map<nat, nat>, caches: seq<Cache>, pending: map<nat, Phase>,
      raw: set<nat>, a: nat)
    requires BlocksOk(live, owner, caches, pending, raw) && a in pending
    ensures !Attached(caches, a) && forall c :: 0 <= c < |caches| ==> a !in caches[c].free
  {
  }

  lemma AttachApart(caches: seq<Cache>, c: nat, cache: Cache, a: nat)
    requires c < |caches| && Apart(caches, c, caches[c]) && !Attached(caches, a)
    requires forall x :: x in cache.free <==> x in caches[c].free || x == a
    ensures Apart(caches, c, cache)
  {
  }

  lemma UnattachedUnused(caches: seq<Cache>, o: Obj)
    requires !Attached(caches, o.slab)
    ensures !UsedBy(caches, o)
  {
  }

  lemma BlocksAttach(live: map<nat, nat>, owner: map<nat, nat>, caches: seq<Cache>, pending: map<nat, Phase>,
      raw: set<nat>, c: nat, cache: Cache, a: nat)
    requires BlocksOk(live, owner, caches, pending, raw) && c < |caches|
    requires a in pending && pending[a] == Published(c) && cache.geom == caches[c].geom
    requires forall x :: x in cache.free <==> x in caches[c].free || x == a
    ensures BlocksOk(live, owner, caches[c := cache], pending - {a}, raw)
    ensures !Attached(caches, a)
  {
    var caches' := caches[c := cache];
    assert !Attached(caches, a);
    assert SlabsOk(live, owner, caches', pending - {a}, raw) by {
      hide NoneLost, CachesApart, RawOk;
    }
    assert CachesApart(caches') by {
      hide NoneLost, PendingOk, RawOk;
    }
    assert PendingOk(live, owner, caches', pending - {a}, raw) by {
      hide SlabsOk, NoneLost, CachesApart, RawOk;
    }
    forall x | x in live
      ensures x in raw || x in pending - {a} || Attached(caches', x)
    {
      hide SlabsOk, PendingOk, CachesApart, RawOk;
      if x == a {
        assert a in caches'[c].free;
      } else if Attached(caches, x) {
        var d: nat :| d < |caches| && x in caches[d].free;
        assert x in caches'[d].free;
      }
    }
  }

  lemma ShrinkPopKeeps(s: Sys, c: nat)
    requires SysInv(s) && c < |s.caches|
    ensures SysInv(Next(s, ShrinkPop(c)))
  {
    hide Inv, BlocksOk, ObjectsOk, OwnersPoint, InUse, CacheInv, PopEmpty, Apart;
    var cache := s.caches[c];
    PopEmptyNone(cache);
    if cache.empty != [] {
      PopEmptyKeeps(cache);
      var (cache', r) := PopEmpty(cache);
      var a := r.value;
      assert forall x :: x in cache'.free <==> x in cache.free && x != a by {
        assert forall x :: x in cache'.free <==> x in cache'.free.Keys;
      }
      BlocksDetach(s.pool.live, s.pool.owner, s.caches, s.pending, s.raw, c, cache', a);
      BlocksApart(s, c, cache');
      ObjectsSame(s.caches, s.objs, s.freeing, c, cache', a);
    }
  }

  lemma PopEmptyNone(c: Cache)
    ensures PopEmpty(c).1.Some? <==> c.empty != []
  {
  }

  lemma BlocksDetach(live: map<nat, nat>, owner: map<nat, nat>, caches: seq<Cache>, pending: map<nat, Phase>,
      raw: set<nat>, c: nat, cache: Cache, a: nat)
    requires BlocksOk(live, owner, caches, pending, raw) && c < |caches|
    requires a in caches[c].free && cache.geom == caches[c].geom
    requires forall x :: x in cache.free <==> x in caches[c].free && x != a
    ensures BlocksOk(live, owner, caches[c := cache], pending[a := Popped(c)], raw)
  {
    var caches' := caches[c := cache];
    var pending' := pending[a := Popped(c)];
    assert SlabsOk(live, owner, caches', pending', raw) by {
      hide NoneLost, PendingOk, RawOk;
    }
    assert CachesApart(caches') by {
      hide NoneLost, PendingOk, RawOk;
    }
    assert PendingOk(live, owner, caches', pending', raw) by {
      hide NoneLost, CachesApart, RawOk;
    }
    forall x | x in live
      ensures x in raw || x in pending' || Attached(caches', x)
    {
      hide SlabsOk, PendingOk, CachesApart, RawOk;
      if x != a && Attached(caches, x) {
        var d: nat :| d < |caches| && x in caches[d].free;
        assert x in caches'[d].free;
      }
    }
  }

  /** The same objects in use, one empty slab less. */
  lemma ObjectsSame(caches: seq<Cache>, objs: set<Obj>, freeing: map<Obj, Flight>, c: nat, cache: Cache, a: nat)
    requires ObjectsOk(caches, objs, freeing) && c < |caches| && Apart(caches, c, cache)
    requires forall x :: x in cache.free <==> x in caches[c].free && x != a
    requires forall x :: InUse(cache, x) <==> InUse(caches[c], x)
    requires forall x :: InUse(caches[c], x) ==> x.slab != a
    requires a in caches[c].free
    ensures ObjectsOk(caches[c := cache], objs, freeing)
  {
    forall x
      ensures UsedBy(caches, x) <==> UsedBy(caches[c := cache], x)
    {
      UsedUpdate(caches, c, cache, x);
    }
    forall o | o in freeing && freeing[o].cache == c
      ensures o.slab != a
    {
      UsedHere(caches, c, o);
    }
  }

  lemma TiledListed(pool: Pool)
    requires Inv(pool)
    ensures |pool.lists| == MAX_ORDER + 1
  {
  }

  lemma FreeLeaves(s: Sys, a: nat)
    requires SysInv(s) && a in s.pool.live && a !in s.pool.owner
    ensures var pool := Free(s.pool, a);
            && Inv(pool) && pool.owner == s.pool.owner && pool.live == s.pool.live - {a}
            && OwnersPoint(pool.live, pool.owner)
  {
    hide Tiled, CachesOk, ObjectsOk, BlocksOk, Free, Covered;
    TiledListed(s.pool);
    FreeKeepsInv(s.pool, a);
    forall p | p in s.pool.owner
      ensures s.pool.owner[p] != a
    {
    }
  }

  /** A block held by nobody else leaves the live blocks. */
  lemma BlocksLess(live: map<nat, nat>, owner: map<nat, nat>, caches: seq<Cache>, pending: map<nat, Phase>,
      raw: set<nat>, a: nat)
    requires BlocksOk(live, owner, caches, pending, raw) && (a in raw || (a in pending && pending[a].Cleared?))
    ensures BlocksOk(live - {a}, owner, caches, pending - {a}, raw - {a})
  {
  }

  lemma ShrinkFreeKeeps(s: Sys, a: nat)
    requires SysInv(s) && Enabled(s, ShrinkFree(a))
    ensures SysInv(Next(s, ShrinkFree(a)))
  {
    hide Tiling, NoDup, OwnersUniform, CachesOk, ObjectsOk, OwnersPoint, Free, SlabsOk, CachesApart, NoneLost;
    FreeLeaves(s, a);
    BlocksLess(s.pool.live, s.pool.owner, s.caches, s.pending, s.raw, a);
    assert s.raw - {a} == s.raw;
  }

  lemma RawFreeKeeps(s: Sys, a: nat)
    requires SysInv(s) && a in s.raw
    ensures SysInv(Next(s, RawFree(a)))
  {
    hide Tiling, NoDup, OwnersUniform, CachesOk, ObjectsOk, OwnersPoint, Free, SlabsOk, CachesApart, NoneLost;
    FreeLeaves(s, a);
    BlocksLess(s.pool.live, s.pool.owner, s.caches, s.pending, s.raw, a);
    assert s.pending - {a} == s.pending;
  }

  /** The page of an object in use names the object's slab. */
  lemma ObjectOwner(s: Sys, c: nat, o: Obj)
    requires SysInv(s) && c < |s.caches| && o.slab in s.caches[c].free && o.index < s.caches[c].geom.count
    ensures Lookup(s.pool.owner, Address(s.caches[c].geom, o) / 4096) == Some(o.slab)
  {
    hide Tiling, NoDup, OwnersUniform, ObjectsOk, Address;
    ObjectPage(s.caches[c].geom, o);
    PageOwner(s, o.slab, Address(s.caches[c].geom, o) / 4096);
  }

  lemma UsedIndex(s: Sys, c: nat, o: Obj)
    requires SysInv(s) && c < |s.caches| && o.slab in s.caches[c].free && (o in s.objs || o in s.freeing)
    ensures InUse(s.caches[c], o)
  {
  }

  lemma FreeBeginKeeps(s: Sys, o: Obj, c: nat)
    requires SysInv(s) && Enabled(s, FreeBegin(o, c))
    ensures SysInv(Next(s, FreeBegin(o, c)))
  {
    hide Inv, CachesOk, BlocksOk, OwnersPoint, UsedBy, Lookup, Address;
    UsedIndex(s, c, o);
    ObjectOwner(s, c, o);
  }

  lemma FinishIsPut(s: Sys, o: Obj)
    requires SysInv(s) && o in s.freeing
    ensures var c := s.freeing[o].cache;
            && c < |s.caches| && InUse(s.caches[c], o) && s.caches[c].geom.objectSize > 0
            && Finish(s, o) == s.(freeing := s.freeing - {o}, caches := s.caches[c := Put(s.caches[c], o)])
  {
    hide Inv, BlocksOk, OwnersPoint, UsedBy, SlabBytes;
    var c := s.freeing[o].cache;
    UsedIndex(s, c, o);
    var cache := s.caches[c];
    assert CacheInv(cache);
    ChainCount(cache.free[o.slab], cache.geom.count);
    ObjIndexInverts(cache.geom, o.slab * 4096, o.index);
    assert Obj(o.slab, o.index) == o;
  }

  lemma FreeFinishKeeps(s: Sys, o: Obj)
    requires SysInv(s) && Enabled(s, FreeFinish(o))
    ensures SysInv(Next(s, FreeFinish(o)))
  {
    hide Inv, BlocksOk, OwnersPoint, InUse, CacheInv, Put, Finish, UsedBy;
    FinishIsPut(s, o);
    var c := s.freeing[o].cache;
    var cache := s.caches[c];
    assert CacheInv(cache);
    PutKeeps(cache, o);
    BlocksSameSlabs(s.pool.live, s.pool.owner, s.caches, s.pending, s.raw, c, Put(cache, o));
    BlocksApart(s, c, Put(cache, o));
    ObjectsLose(s.caches, s.objs, s.freeing, c, Put(cache, o), o);
  }

  lemma ObjectsLose(caches: seq<Cache>, objs: set<Obj>, freeing: map<Obj, Flight>, c: nat, cache: Cache, o: Obj)
    requires ObjectsOk(caches, objs, freeing) && c < |caches| && Apart(caches, c, cache)
    requires o in freeing && InUse(caches[c], o) && cache.free.Keys == caches[c].free.Keys
    requires forall x :: InUse(cache, x) <==> InUse(caches[c], x) && x != o
    ensures ObjectsOk(caches[c := cache], objs, freeing - {o})
  {
    hide InUse;
    forall x
      ensures x in objs || x in freeing - {o} <==> UsedBy(caches[c := cache], x)
    {
      UsedUpdate(caches, c, cache, x);
    }
    forall x | x in freeing - {o}
      ensures x.slab in caches[c := cache][freeing[x].cache].free
    {
      assert x.slab in caches[freeing[x].cache].free.Keys;
    }
  }

  lemma CreateKeeps(s: Sys, geom: Geometry)
    requires SysInv(s) && Enabled(s, Create(geom))
    ensures SysInv(Next(s, Create(geom)))
  {
    hide Inv, OwnersPoint, Sound, BlocksOk, ObjectsOk, CacheInv;
    EmptyCache(geom);
    BlocksCreate(s.pool.live, s.pool.owner, s.caches, s.pending, s.raw, Cache(geom, [], [], [], map[]));
    ObjectsCreate(s.caches, s.objs, s.freeing, Cache(geom, [], [], [], map[]));
  }

  lemma BlocksCreate(live: map<nat, nat>, owner: map<nat, nat>, caches: seq<Cache>, pending: map<nat, Phase>,
      raw: set<nat>, cache: Cache)
    requires BlocksOk(live, owner, caches, pending, raw) && cache.free == map[]
    ensures BlocksOk(live, owner, caches + [cache], pending, raw)
  {
    var caches' := caches + [cache];
    assert NoneLost(live, caches', pending, raw) by {
      hide SlabsOk, PendingOk, CachesApart, RawOk;
      forall x | Attached(caches, x)
        ensures Attached(caches', x)
      {
        var d: nat :| d < |caches| && x in caches[d].free;
        assert x in caches'[d].free;
      }
    }
    assert PendingOk(live, owner, caches', pending, raw) by {
      hide SlabsOk, NoneLost, CachesApart, RawOk;
    }
    assert SlabsOk(live, owner, caches', pending, raw) by {
      hide PendingOk, NoneLost, CachesApart, RawOk;
    }
    assert CachesApart(caches') by {
      hide PendingOk, NoneLost, SlabsOk, RawOk;
    }
    hide *;
  }

  lemma ObjectsCreate(caches: seq<Cache>, objs: set<Obj>, freeing: map<Obj, Flight>, cache: Cache)
    requires ObjectsOk(caches, objs, freeing) && cache.free == map[]
    ensures ObjectsOk(caches + [cache], objs, freeing)
  {
    var caches' := caches + [cache];
    forall o
      ensures UsedBy(caches, o) <==> UsedBy(caches', o)
    {
      if d: nat :| d < |caches| && InUse(caches[d], o) {
        assert InUse(caches'[d], o);
      }
      if d: nat :| d < |caches'| && InUse(caches'[d], o) {
        assert InUse(caches[d], o);
      }
    }
  }

  lemma EmptyCache(geom: Geometry)
    requires Sound(geom)
    ensures CacheInv(Cache(geom, [], [], [], map[]))
  {
  }

  /** Every event keeps the invariant. */
  lemma StepKeeps(s: Sys, e: Event)
    requires SysInv(s) && Enabled(s, e)
    ensures SysInv(Next(s, e))
  {
    hide SysInv, Next;
    match e
    case Create(geom) => CreateKeeps(s, geom);
    case AllocFast(c) => AllocFastKeeps(s, c);
    case Grow(c) => GrowKeeps(s, c);
    case GrowPublish(a) => GrowPublishKeeps(s, a);
    case GrowAttach(a) => GrowAttachKeeps(s, a);
    case FreeBegin(o, c) => FreeBeginKeeps(s, o, c);
    case FreeFinish(o) => FreeFinishKeeps(s, o);
    case ShrinkPop(c) => ShrinkPopKeeps(s, c);
    case ShrinkClear(a) => ShrinkClearKeeps(s, a);
    case ShrinkFree(a) => ShrinkFreeKeeps(s, a);
    case RawAlloc(pages) => RawAllocKeeps(s, pages);
    case RawFree(a) => RawFreeKeeps(s, a);
  }

  // ------------------------------------------------------------------- whole runs

  function InitSys(base: nat, n: nat): Sys {
    Sys(Init(base, n), [], map[], {}, map[], {})
  }

  lemma InitSysInv(base: nat, n: nat)
    ensures SysInv(InitSys(base, n))
  {
    InitInv(base, n);
  }

  /** The events, taken in this order from s, are all enabled and lead to t. */
  ghost predicate Run(s: Sys, es: seq<Event>, t: Sys)
    requires SysInv(s)
    decreases |es|
  {
    if es == [] then s == t
    else
      && Enabled(s, es[0])
      && (StepKeeps(s, es[0]); Run(Next(s, es[0]), es[1..], t))
  }

  lemma {:induction false} RunKeeps(s: Sys, es: seq<Event>, t: Sys)
    requires SysInv(s) && Run(s, es, t)
    ensures SysInv(t)
    decreases |es|
  {
    hide SysInv, Next;
    if es != [] {
      StepKeeps(s, es[0]);
      RunKeeps(Next(s, es[0]), es[1..], t);
    }
  }

  /** Something handed out: an object of a cache, or a raw block of pages. */
  datatype Grant = ObjectGrant(cache: nat, obj: Obj) | RawGrant(block: nat)

  ghost predicate Granted(s: Sys, g: Grant) {
    match g
    case ObjectGrant(c, o) => c < |s.caches| && o in s.objs && o.slab in s.caches[c].free
    case RawGrant(a) => a in s.raw && a in s.pool.live
  }

  /** The bytes of a grant, from the first to just past the last. */
  ghost function Lo(s: Sys, g: Grant): int
    requires Granted(s, g)
  {
    match g
    case ObjectGrant(c, o) => Address(s.caches[c].geom, o)
    case RawGrant(a) => a * 4096
  }

  ghost function Hi(s: Sys, g: Grant): int
    requires Granted(s, g)
  {
    match g
    case ObjectGrant(c, o) => Address(s.caches[c].geom, o) + s.caches[c].geom.objectSize
    case RawGrant(a) => (a + Pow2(s.pool.live[a])) * 4096
  }

  ghost function BlockOf(s: Sys, g: Grant): nat
    requires Granted(s, g)
  {
    match g
    case ObjectGrant(c, o) => o.slab
    case RawGrant(a) => a
  }

  /** A grant lies inside the bytes of one live block, and that block inside the managed region. */
  lemma GrantInBlock(s: Sys, g: Grant)
    requires SysInv(s) && Granted(s, g)
    ensures var a := BlockOf(s, g);
            && a in s.pool.live && a + Pow2(s.pool.live[a]) <= s.pool.n
            && a * 4096 <= Lo(s, g) < Hi(s, g) <= (a + Pow2(s.pool.live[a])) * 4096
  {
    hide Address, OwnersUniform, ObjectsOk, OwnersPoint, PendingOk, NoneLost, CachesApart, NoDup, InUse;
    if g.ObjectGrant? {
      UsedIndex(s, g.cache, g.obj);
      UsedBound(s.caches[g.cache], g.obj);
      ObjectPage(s.caches[g.cache].geom, g.obj);
    }
    var a := BlockOf(s, g);
    assert Block(a, s.pool.live[a]) in LiveBlocks(s.pool.live);
  }

  lemma UsedBound(c: Cache, o: Obj)
    requires InUse(c, o)
    ensures o.index < c.geom.count
  {
  }

  lemma BlocksDisjoint(pool: Pool, a: nat, b: nat)
    requires Inv(pool) && a in pool.live && b in pool.live && a != b
    ensures a + Pow2(pool.live[a]) <= b || b + Pow2(pool.live[b]) <= a
  {
    HeadsApart(pool, a, b);
    HeadsApart(pool, b, a);
  }

  /** In every reachable state, any two things handed out and not given back share no byte. */
  lemma GrantsNeverOverlap(base: nat, n: nat, es: seq<Event>, s: Sys, g: Grant, h: Grant)
    requires SysInv(InitSys(base, n)) && Run(InitSys(base, n), es, s)
    requires Granted(s, g) && Granted(s, h) && g != h
    ensures Hi(s, g) <= Lo(s, h) || Hi(s, h) <= Lo(s, g)
  {
    hide Inv, CachesOk, ObjectsOk, OwnersPoint, BlocksOk, Run, Pow2, Address;
    RunKeeps(InitSys(base, n), es, s);
    GrantInBlock(s, g);
    GrantInBlock(s, h);
    if BlockOf(s, g) != BlockOf(s, h) {
      BlocksDisjoint(s.pool, BlockOf(s, g), BlockOf(s, h));
    } else {
      SameBlockGrants(s, g, h);
    }
  }

  lemma SameBlockGrants(s: Sys, g: Grant, h: Grant)
    requires SysInv(s) && Granted(s, g) && Granted(s, h) && g != h && BlockOf(s, g) == BlockOf(s, h)
    ensures Hi(s, g) <= Lo(s, h) || Hi(s, h) <= Lo(s, g)
  {
    hide Inv, ObjectsOk, OwnersPoint, PendingOk, NoneLost, RawOk, InUse, Sound;
    assert g.ObjectGrant? && h.ObjectGrant?;
    assert g.cache == h.cache;
    var cache := s.caches[g.cache];
    UsedIndex(s, g.cache, g.obj);
    UsedIndex(s, h.cache, h.obj);
    UsedBound(cache, g.obj);
    UsedBound(cache, h.obj);
    assert Sound(cache.geom) by { assert CacheInv(cache); }
    ObjectsApart(cache.geom, g.obj.slab * 4096, g.obj.index, h.obj.index);
    ObjectsApart(cache.geom, g.obj.slab * 4096, h.obj.index, g.obj.index);
  }

  /**
   k_free reads owner_slab of the page its argument points into.  In every reachable state it
   finds the object's own slab, attached to the object's cache, for a live object, and no slab
   for a raw block; so it takes the branch that frees what was allocated.
   */
  lemma KFreeTakesTheRightBranch(base: nat, n: nat, es: seq<Event>, s: Sys, g: Grant)
    requires SysInv(InitSys(base, n)) && Run(InitSys(base, n), es, s) && Granted(s, g)
    ensures Lo(s, g) >= 0 && Lo(s, g) / 4096 < s.pool.n
    ensures match g
            case ObjectGrant(c, o) =>
              && Lookup(s.pool.owner, Lo(s, g) / 4096) == Some(o.slab)
              && (forall d :: 0 <= d < |s.caches| && o.slab in s.caches[d].free ==> d == c)
            case RawGrant(a) => Lookup(s.pool.owner, Lo(s, g) / 4096) == None && Lo(s, g) % 4096 == 0
  {
    hide Inv, CachesOk, ObjectsOk, OwnersPoint, PendingOk, NoneLost, SlabsOk, Run, Pow2, Address, InUse;
    RunKeeps(InitSys(base, n), es, s);
    GrantInBlock(s, g);
    if g.ObjectGrant? {
      UsedIndex(s, g.cache, g.obj);
      UsedBound(s.caches[g.cache], g.obj);
      ObjectOwner(s, g.cache, g.obj);
    }
  }
}
