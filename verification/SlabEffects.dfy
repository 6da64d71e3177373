/** What each section of the two allocators hands out, takes back, and does to the free pages. */
module SlabEffects {
  import opened Powers
  import opened Sequences
  import opened Wrappers
  import opened BuddyModel
  import opened BuddyTheorems
  import BuddyRuns
  import opened SlabGeometry
  import opened SlabModel
  import opened SlabTheorems
  import opened SlabSystem

  // ------------------------------------------------------------------ grants and pages

  ghost predicate SameGrants(s: Sys, s': Sys) {
    forall g :: Granted(s', g) <==> Granted(s, g)
  }

  ghost predicate Gains(s: Sys, s': Sys, g: Grant) {
    !Granted(s, g) && forall h :: Granted(s', h) <==> Granted(s, h) || h == g
  }

  ghost predicate Loses(s: Sys, s': Sys, g: Grant) {
    Granted(s, g) && forall h :: Granted(s', h) <==> Granted(s, h) && h != g
  }

  ghost predicate FreePage(s: Sys, p: int) {
    Covered(FreeBlocks(s.pool.lists), p)
  }

  ghost predicate SamePages(s: Sys, s': Sys) {
    forall p :: FreePage(s', p) <==> FreePage(s, p)
  }

  /** The pages of b, all free before, are taken, and no others. */
  ghost predicate TakesPages(s: Sys, s': Sys, b: Block) {
    && (forall p :: In(p, b) ==> FreePage(s, p))
    && (forall p :: FreePage(s', p) <==> FreePage(s, p) && !In(p, b))
  }

  /** Caches keep their number and geometry, and raw blocks their size: what stays granted stays where it is. */
  ghost predicate Stay(s: Sys, s': Sys) {
    && |s.caches| <= |s'.caches| && (forall c :: 0 <= c < |s.caches| ==> s'.caches[c].geom == s.caches[c].geom)
    && (forall a :: a in s.raw && a in s'.raw ==>
          a in s.pool.live && a in s'.pool.live && s'.pool.live[a] == s.pool.live[a])
  }

  lemma GrantStays(s: Sys, s': Sys, g: Grant)
    requires Stay(s, s') && Granted(s, g) && Granted(s', g)
    requires g.ObjectGrant? ==> g.cache < |s.caches|
    ensures Lo(s', g) == Lo(s, g) && Hi(s', g) == Hi(s, g)
  {
  }

  /** Some slab has a free object. */
  ghost predicate HasRoom(c: Cache) {
    exists a :: a in c.free && |c.free[a]| > 0
  }

  /** Some slab has no object in use. */
  ghost predicate HasEmpty(c: Cache) {
    exists a :: a in c.free && |c.free[a]| == c.geom.count
  }

  /** The page allocator has a block of that order or a larger one. */
  ghost predicate HasBlock(pool: Pool, order: nat) {
    exists b :: b in FreeBlocks(pool.lists) && b.order >= order
  }

  // ------------------------------------------------------------------ the effect of an event

  ghost predicate NewObject(s: Sys, s': Sys, c: nat, o: Obj) {
    Gains(s, s', ObjectGrant(c, o)) && o !in s.freeing
  }

  ghost predicate NewBlock(s: Sys, s': Sys, c: nat, a: nat) {
    && c < |s.caches| && a !in s.pending && s'.pending == s.pending[a := Fresh(c)]
    && TakesPages(s, s', Block(a, s.caches[c].geom.order))
  }

  ghost predicate NewRaw(s: Sys, s': Sys, pages: nat, a: nat) {
    && Gains(s, s', RawGrant(a)) && a in s'.pool.live && s'.pool.live[a] == OrderFor(pages)
    && TakesPages(s, s', Block(a, OrderFor(pages)))
  }

  ghost predicate SlabGone(s: Sys, s': Sys, c: nat, a: nat) {
    && c < |s.caches| == |s'.caches| && a in s.caches[c].free && |s.caches[c].free[a]| == s.caches[c].geom.count
    && s'.caches[c].free.Keys == s.caches[c].free.Keys - {a} && s'.pending == s.pending[a := Popped(c)]
  }

  ghost predicate Effect(s: Sys, e: Event, s': Sys) {
    match e
    case Create(geom) =>
      && SameGrants(s, s') && SamePages(s, s')
      && |s'.caches| == |s.caches| + 1 && s'.caches[|s.caches|].geom == geom
    case AllocFast(c) =>
      && SamePages(s, s') && s'.freeing == s.freeing && c < |s.caches|
      && if HasRoom(s.caches[c]) then exists o :: NewObject(s, s', c, o) else s' == s
    case Grow(c) =>
      && SameGrants(s, s') && c < |s.caches|
      && if HasBlock(s.pool, s.caches[c].geom.order) then exists a :: NewBlock(s, s', c, a) else s' == s
    case GrowPublish(a) =>
      && SameGrants(s, s') && SamePages(s, s')
      && a in s.pending && s'.pending == s.pending[a := Published(s.pending[a].cache)]
    case GrowAttach(a) =>
      && SamePages(s, s') && a in s.pending && s'.pending == s.pending - {a}
      && Gains(s, s', ObjectGrant(s.pending[a].cache, Obj(a, 0)))
    case FreeBegin(o, c) =>
      && SamePages(s, s') && Loses(s, s', ObjectGrant(c, o)) && s'.freeing.Keys == s.freeing.Keys + {o}
    case FreeFinish(o) =>
      && SamePages(s, s') && SameGrants(s, s') && s'.freeing == s.freeing - {o} && !UsedBy(s'.caches, o)
      && o in s.freeing && s.freeing[o].cache < |s'.caches| && HasRoom(s'.caches[s.freeing[o].cache])
    case ShrinkPop(c) =>
      && SamePages(s, s') && SameGrants(s, s') && c < |s.caches|
      && if HasEmpty(s.caches[c]) then exists a :: SlabGone(s, s', c, a) else s' == s
    case ShrinkClear(a) =>
      && SameGrants(s, s') && SamePages(s, s')
      && a in s.pending && s'.pending == s.pending[a := Cleared(s.pending[a].cache)]
    case ShrinkFree(a) =>
      && SameGrants(s, s') && a in s.pool.live && s'.pool.live == s.pool.live - {a} && s'.pending == s.pending - {a}
      && TakesPages(s', s, Block(a, s.pool.live[a]))
    case RawAlloc(pages) =>
      if pages > 0 && HasBlock(s.pool, OrderFor(pages)) then exists a :: NewRaw(s, s', pages, a) else s' == s
    case RawFree(a) =>
      && Loses(s, s', RawGrant(a)) && a in s.pool.live && s'.pool.live == s.pool.live - {a}
      && TakesPages(s', s, Block(a, s.pool.live[a]))
  }

  // ------------------------------------------------------------------ pages

  /** A page of the region is free exactly when no live block holds it. */
  lemma FreeIffNotLive(pool: Pool, p: int)
    requires Inv(pool)
    ensures Covered(FreeBlocks(pool.lists), p) <==> 0 <= p < pool.n && !Covered(LiveBlocks(pool.live), p)
  {
    var free, live := FreeBlocks(pool.lists), LiveBlocks(pool.live);
    if Covered(free, p) {
      var b :| b in free && In(p, b);
      assert b in free + live;
    } else if 0 <= p < pool.n {
      assert Covered(free + live, p);
    }
  }

  /** One live block more, or one less, takes or returns exactly its pages. */
  lemma LiveMore(s: Sys, s': Sys, a: nat, k: nat)
    requires Inv(s.pool) && Inv(s'.pool) && s'.pool.n == s.pool.n
    requires a !in s.pool.live && s'.pool.live == s.pool.live[a := k]
    ensures TakesPages(s, s', Block(a, k))
  {
    hide OwnersUniform, Listed, FreeBlocks;
    var b := Block(a, k);
    var live, live' := LiveBlocks(s.pool.live), LiveBlocks(s'.pool.live);
    assert live' == live + {b};
    forall p
      ensures FreePage(s', p) <==> FreePage(s, p) && !In(p, b)
      ensures In(p, b) ==> FreePage(s, p)
    {
      FreeIffNotLive(s.pool, p);
      FreeIffNotLive(s'.pool, p);
      LivePage(s'.pool, live, b, p);
    }
  }

  lemma LivePage(pool: Pool, live: set<Block>, b: Block, p: int)
    requires Inv(pool) && LiveBlocks(pool.live) == live + {b} && b !in live
    ensures Covered(live + {b}, p) <==> Covered(live, p) || In(p, b)
    ensures In(p, b) ==> 0 <= p < pool.n && !Covered(live, p)
  {
    if Covered(live, p) {
      var c :| c in live && In(p, c);
      assert c in live + {b};
    }
    assert b in live + {b};
  }

  lemma SameLive(s: Sys, s': Sys)
    requires Inv(s.pool) && Inv(s'.pool) && s'.pool.n == s.pool.n && s'.pool.live == s.pool.live
    ensures SamePages(s, s')
  {
    hide Inv;
    forall p
      ensures FreePage(s', p) <==> FreePage(s, p)
    {
      FreeIffNotLive(s.pool, p);
      FreeIffNotLive(s'.pool, p);
    }
  }

  // ------------------------------------------------------------------ the page allocator's events

  lemma RawAllocEffect(s: Sys, pages: nat)
    requires SysInv(s)
    ensures Effect(s, RawAlloc(pages), Next(s, RawAlloc(pages))) && Stay(s, Next(s, RawAlloc(pages)))
  {
    hide Tiled, OwnersUniform, CachesOk, ObjectsOk, OwnersPoint, SlabsOk, PendingOk, NoneLost, CachesApart;
    hide Alloc, OrderFor, TakesPages, HasBlock;
    BlockOrNone(s, pages);
    var s' := Next(s, RawAlloc(pages));
    if Alloc(s.pool, pages).1.Some? {
      FreshBlock(s, pages);
      var a := Alloc(s.pool, pages).1.value;
      LiveMore(s, s', a, OrderFor(pages));
      assert NewRaw(s, s', pages, a);
    }
  }

  lemma BlockOrNone(s: Sys, pages: nat)
    requires Inv(s.pool)
    ensures |s.pool.lists| == MAX_ORDER + 1
    ensures Alloc(s.pool, pages).1.Some? <==> pages > 0 && HasBlock(s.pool, OrderFor(pages))
    ensures Alloc(s.pool, pages).0.n == s.pool.n
  {
    if pages > 0 {
      BuddyRuns.AllocFailsIff(s.pool, pages);
    }
  }

  lemma GrowEffect(s: Sys, c: nat)
    requires SysInv(s) && c < |s.caches|
    ensures Effect(s, Grow(c), Next(s, Grow(c))) && Stay(s, Next(s, Grow(c)))
  {
    hide Tiled, OwnersUniform, CachesOk, ObjectsOk, OwnersPoint, SlabsOk, PendingOk, NoneLost, CachesApart;
    hide Alloc, OrderFor, TakesPages, HasBlock, Pow2;
    var k := s.caches[c].geom.order;
    BlockOrNone(s, Pow2(k));
    OrderForPow2(k);
    var s' := Next(s, Grow(c));
    if Alloc(s.pool, Pow2(k)).1.Some? {
      FreshBlock(s, Pow2(k));
      var a := Alloc(s.pool, Pow2(k)).1.value;
      LiveMore(s, s', a, k);
      assert NewBlock(s, s', c, a);
    }
  }

  lemma RawFreeEffect(s: Sys, a: nat)
    requires SysInv(s) && a in s.raw
    ensures Effect(s, RawFree(a), Next(s, RawFree(a))) && Stay(s, Next(s, RawFree(a)))
  {
    hide Tiled, OwnersUniform, CachesOk, ObjectsOk, OwnersPoint, SlabsOk, PendingOk, NoneLost, CachesApart;
    hide Free, TakesPages;
    ListsThere(s.pool);
    FreeLeaves(s, a);
    FreeKeepsInv(s.pool, a);
    var s' := Next(s, RawFree(a));
    assert s.pool.live == s'.pool.live[a := s.pool.live[a]];
    LiveMore(s', s, a, s.pool.live[a]);
  }

  lemma ListsThere(pool: Pool)
    requires Inv(pool)
    ensures |pool.lists| == MAX_ORDER + 1
  {
  }

  lemma ShrinkFreeEffect(s: Sys, a: nat)
    requires SysInv(s) && Enabled(s, ShrinkFree(a))
    ensures Effect(s, ShrinkFree(a), Next(s, ShrinkFree(a))) && Stay(s, Next(s, ShrinkFree(a)))
  {
    hide Tiled, OwnersUniform, CachesOk, ObjectsOk, OwnersPoint, SlabsOk, NoneLost, CachesApart;
    hide Free, TakesPages;
    ListsThere(s.pool);
    FreeLeaves(s, a);
    FreeKeepsInv(s.pool, a);
    var s' := Next(s, ShrinkFree(a));
    assert s.pool.live == s'.pool.live[a := s.pool.live[a]];
    LiveMore(s', s, a, s.pool.live[a]);
  }

  // ------------------------------------------------------------------ the caches' events

  /** Caches with the same slabs and the same objects handed out. */
  lemma GrantsSame(s: Sys, s': Sys)
    requires s'.objs == s.objs && s'.raw == s.raw && s'.pool.live == s.pool.live && |s'.caches| >= |s.caches|
    requires forall c: nat :: c < |s.caches| ==> s'.caches[c].free.Keys == s.caches[c].free.Keys
    requires forall c: nat :: |s.caches| <= c < |s'.caches| ==> s'.caches[c].free == map[]
    ensures SameGrants(s, s')
  {
    forall g
      ensures Granted(s', g) <==> Granted(s, g)
    {
      if g.ObjectGrant? && g.cache < |s.caches| {
        assert g.obj.slab in s'.caches[g.cache].free <==> g.obj.slab in s'.caches[g.cache].free.Keys;
      }
    }
  }

  lemma QuietEffect(s: Sys, e: Event)
    requires SysInv(s) && Enabled(s, e) && (e.Create? || e.GrowPublish? || e.ShrinkClear?)
    ensures Effect(s, e, Next(s, e)) && Stay(s, Next(s, e))
  {
    hide Tiled, OwnersUniform, CachesOk, ObjectsOk, OwnersPoint, SlabsOk, NoneLost, CachesApart, PendingOk;
    hide Publish, Unpublish;
    StepKeeps(s, e);
    var s' := Next(s, e);
    assert s'.pool.live == s.pool.live && s'.pool.n == s.pool.n by { OwnersOnly(s, e); }
    SameLive(s, s');
    GrantsSame(s, s');
  }

  lemma OwnersOnly(s: Sys, e: Event)
    requires SysInv(s) && Enabled(s, e) && (e.Create? || e.GrowPublish? || e.ShrinkClear?)
    ensures Next(s, e).pool.live == s.pool.live && Next(s, e).pool.n == s.pool.n
    ensures Next(s, e).pool.lists == s.pool.lists
  {
    hide SysInv;
  }

  /** One object more in cache c, whose slabs are the old ones and perhaps the object's. */
  lemma GrantGained(s: Sys, s': Sys, c: nat, o: Obj)
    requires c < |s.caches| == |s'.caches| && s'.objs == s.objs + {o} && o !in s.objs
    requires s'.raw == s.raw && s'.pool.live == s.pool.live
    requires forall d :: 0 <= d < |s.caches| && d != c ==> s'.caches[d] == s.caches[d] && o.slab !in s.caches[d].free
    requires s'.caches[c].free.Keys == s.caches[c].free.Keys + {o.slab}
    requires forall x :: x in s.objs && x.slab == o.slab ==> o.slab in s.caches[c].free
    ensures Gains(s, s', ObjectGrant(c, o))
  {
    forall h
      ensures Granted(s', h) <==> Granted(s, h) || h == ObjectGrant(c, o)
    {
      if h.ObjectGrant? && h.cache == c {
        assert h.obj.slab in s'.caches[c].free <==> h.obj.slab in s'.caches[c].free.Keys;
      }
    }
  }

  lemma RoomIff(c: Cache)
    requires CacheInv(c)
    ensures HasRoom(c) <==> c.partial != [] || c.empty != []
    ensures HasEmpty(c) <==> c.empty != []
  {
    hide SlabBytes;
    if c.partial != [] {
      assert OnItsList(c, c.partial[0]);
    }
    if c.empty != [] {
      assert OnItsList(c, c.empty[0]);
    }
    forall a | a in c.free && |c.free[a]| > 0
      ensures a in c.partial || a in c.empty
    {
      assert OnItsList(c, a);
      OthersStay(c, a);
    }
    forall a | a in c.free && |c.free[a]| == c.geom.count
      ensures a in c.empty
    {
      assert OnItsList(c, a);
    }
  }

  lemma AllocFastEffect(s: Sys, c: nat)
    requires SysInv(s) && c < |s.caches|
    ensures Effect(s, AllocFast(c), Next(s, AllocFast(c))) && Stay(s, Next(s, AllocFast(c)))
  {
    hide Inv, ObjectsOk, OwnersPoint, SlabsOk, PendingOk, NoneLost, InUse, CacheInv, Take, HasRoom, UsedBy;
    var cache := s.caches[c];
    TakeKeeps(cache);
    RoomIff(cache);
    var s' := Next(s, AllocFast(c));
    SameLive(s, s');
    if Take(cache).1.Some? {
      var o := Take(cache).1.value;
      TakenSlab(cache);
      NotUsed(s, c, o);
      Unused(s, o);
      GrantGained(s, s', c, o);
      assert NewObject(s, s', c, o);
    } else {
      assert s.caches[c := cache] == s.caches;
    }
  }

  lemma Unused(s: Sys, o: Obj)
    requires SysInv(s) && !UsedBy(s.caches, o)
    ensures o !in s.objs && o !in s.freeing
  {
  }

  lemma StaysSame(s: Sys, s': Sys)
    requires SysInv(s) && s'.raw == s.raw && s'.pool.live == s.pool.live && |s'.caches| == |s.caches|
    requires forall c :: 0 <= c < |s.caches| ==> s'.caches[c].geom == s.caches[c].geom
    ensures Stay(s, s')
  {
    hide Inv, CachesOk, ObjectsOk, OwnersPoint, SlabsOk, PendingOk, CachesApart, NoneLost;
  }

  lemma GrowAttachEffect(s: Sys, a: nat)
    requires SysInv(s) && Enabled(s, GrowAttach(a))
    ensures Effect(s, GrowAttach(a), Next(s, GrowAttach(a))) && Stay(s, Next(s, GrowAttach(a)))
  {
    hide Inv, ObjectsOk, OwnersPoint, PendingOk, RawOk, NoneLost, InUse, CacheInv, Attach, UsedBy;
    var c := s.pending[a].cache;
    var cache := s.caches[c];
    assert CacheInv(cache);
    AttachKeeps(cache, a);
    var s' := Next(s, GrowAttach(a));
    SameLive(s, s');
    StaysSame(s, s');
    forall x: Obj | x.slab == a
      ensures x !in s.objs && x !in s.freeing
    {
      UnattachedUnused(s.caches, x);
      Unused(s, x);
    }
    GrantGained(s, s', c, Obj(a, 0));
  }

  lemma FreeBeginEffect(s: Sys, o: Obj, c: nat)
    requires SysInv(s) && Enabled(s, FreeBegin(o, c))
    ensures Effect(s, FreeBegin(o, c), Next(s, FreeBegin(o, c))) && Stay(s, Next(s, FreeBegin(o, c)))
  {
    hide Inv, ObjectsOk, OwnersPoint, SlabsOk, PendingOk, NoneLost, CacheInv, Lookup, Address;
    var s' := Next(s, FreeBegin(o, c));
    SameLive(s, s');
    forall h
      ensures Granted(s', h) <==> Granted(s, h) && h != ObjectGrant(c, o)
    {
    }
  }

  lemma FreeFinishEffect(s: Sys, o: Obj)
    requires SysInv(s) && Enabled(s, FreeFinish(o))
    ensures Effect(s, FreeFinish(o), Next(s, FreeFinish(o))) && Stay(s, Next(s, FreeFinish(o)))
  {
    hide Inv, BlocksOk, OwnersPoint, InUse, CacheInv, Put, Finish, UsedBy, HasRoom;
    FinishIsPut(s, o);
    var c := s.freeing[o].cache;
    var cache := s.caches[c];
    assert CacheInv(cache);
    PutKeeps(cache, o);
    var s' := Next(s, FreeFinish(o));
    StepKeeps(s, FreeFinish(o));
    SameLive(s, s');
    StaysSame(s, s');
    GrantsSame(s, s');
    RoomAfter(Put(cache, o), cache, o);
  }

  lemma RoomAfter(c: Cache, before: Cache, o: Obj)
    requires FromChain(c, before, o)
    ensures HasRoom(c)
  {
  }

  lemma ShrinkPopEffect(s: Sys, c: nat)
    requires SysInv(s) && c < |s.caches|
    ensures Effect(s, ShrinkPop(c), Next(s, ShrinkPop(c))) && Stay(s, Next(s, ShrinkPop(c)))
  {
    hide Inv, BlocksOk, ObjectsOk, OwnersPoint, InUse, CacheInv, PopEmpty, HasEmpty, HasRoom;
    var cache := s.caches[c];
    RoomIff(cache);
    PopEmptyNone(cache);
    if cache.empty != [] {
      PopEmptyKeeps(cache);
    }
    var s' := Next(s, ShrinkPop(c));
    SameLive(s, s');
    StaysSame(s, s');
    if cache.empty != [] {
      var (cache', r) := PopEmpty(cache);
      var a := r.value;
      PoppedEmpty(cache);
      assert SlabGone(s, s', c, a);
      forall g
        ensures Granted(s', g) <==> Granted(s, g)
      {
        if g.ObjectGrant? && g.cache == c && g.obj in s.objs {
          assert g.obj.slab in cache'.free <==> g.obj.slab in cache'.free.Keys;
          if g.obj.slab in cache.free {
            UsedIndex(s, c, g.obj);
          }
        }
      }
    }
  }

  lemma PoppedEmpty(c: Cache)
    requires CacheInv(c) && c.empty != []
    ensures PopEmpty(c).1 == Some(c.empty[0]) && c.empty[0] in c.free && |c.free[c.empty[0]]| == c.geom.count
  {
    hide SlabBytes;
    assert OnItsList(c, c.empty[0]);
  }

  /**
   Every event does to the grants and to the free pages what it is for, and to nothing else: what is granted before
   and after is at the same addresses.
   */
  lemma StepEffect(s: Sys, e: Event)
    requires SysInv(s) && Enabled(s, e)
    ensures Effect(s, e, Next(s, e)) && Stay(s, Next(s, e))
  {
    hide SysInv, Next, Effect, Stay;
    match e
    case Create(geom) => QuietEffect(s, e);
    case AllocFast(c) => AllocFastEffect(s, c);
    case Grow(c) => GrowEffect(s, c);
    case GrowPublish(a) => QuietEffect(s, e);
    case GrowAttach(a) => GrowAttachEffect(s, a);
    case FreeBegin(o, c) => FreeBeginEffect(s, o, c);
    case FreeFinish(o) => FreeFinishEffect(s, o);
    case ShrinkPop(c) => ShrinkPopEffect(s, c);
    case ShrinkClear(a) => QuietEffect(s, e);
    case ShrinkFree(a) => ShrinkFreeEffect(s, a);
    case RawAlloc(pages) => RawAllocEffect(s, pages);
    case RawFree(a) => RawFreeEffect(s, a);
  }

  // ------------------------------------------------------------------ what is given back can be had again

  lemma {:induction false} MergedBlockFree(s: Pool, a: nat, k: nat)
    requires |s.lists| == MAX_ORDER + 1 && k <= MAX_ORDER
    ensures exists b :: b in FreeBlocks(Merge(s, a, k).lists) && b.order >= k
    decreases MAX_ORDER - k
  {
    if CanMerge(s, a, k) {
      var b := Buddy(s, a, k);
      MergedBlockFree(s.(lists := s.lists[k := Without(s.lists[k], b)]), Min(a, b), k + 1);
    } else {
      assert Block(a, k) in FreeBlocks(Push(s.lists, k, a));
    }
  }

  ghost predicate Step(s: Sys, e: Event, s': Sys) {
    SysInv(s) && Enabled(s, e) && s' == Next(s, e)
  }

  /** k_free of a page block, then k_alloc of as many pages or fewer: the second succeeds. */
  lemma PagesComeBack(s: Sys, a: nat, pages: nat) returns (s1: Sys, s2: Sys, b: nat)
    requires SysInv(s) && Granted(s, RawGrant(a)) && 0 < pages && OrderFor(pages) <= s.pool.live[a]
    ensures Step(s, RawFree(a), s1) && Step(s1, RawAlloc(pages), s2)
    ensures Loses(s, s1, RawGrant(a)) && NewRaw(s1, s2, pages, b)
  {
    hide Inv, CachesOk, ObjectsOk, OwnersPoint, BlocksOk, Effect, Stay, Next, OrderFor, NewRaw, Loses;
    s1 := Next(s, RawFree(a));
    StepKeeps(s, RawFree(a));
    RawFreeEffect(s, a);
    RawFreeLoses(s, a, s1);
    RawFreeRoom(s, a, OrderFor(pages));
    s2 := Next(s1, RawAlloc(pages));
    RawAllocEffect(s1, pages);
    b := RawGained(s1, pages, s2);
  }

  lemma RawFreeLoses(s: Sys, a: nat, s': Sys)
    requires Effect(s, RawFree(a), s')
    ensures Loses(s, s', RawGrant(a))
  {
  }

  lemma RawGained(s: Sys, pages: nat, s': Sys) returns (b: nat)
    requires Effect(s, RawAlloc(pages), s') && pages > 0 && HasBlock(s.pool, OrderFor(pages))
    ensures NewRaw(s, s', pages, b)
  {
    b :| NewRaw(s, s', pages, b);
  }

  lemma RawFreeRoom(s: Sys, a: nat, k: nat)
    requires SysInv(s) && a in s.raw && a in s.pool.live && k <= s.pool.live[a]
    ensures HasBlock(Next(s, RawFree(a)).pool, k)
  {
    hide CachesOk, ObjectsOk, OwnersPoint, BlocksOk, Merge, Tiled, OwnersUniform;
    RawNotOwned(s, a);
    ListsThere(s.pool);
    MergedBlockFree(s.pool.(live := s.pool.live - {a}), a, s.pool.live[a]);
  }

  lemma RawNotOwned(s: Sys, a: nat)
    requires SysInv(s) && a in s.raw
    ensures a in s.pool.live && a !in s.pool.owner
  {
  }

  /** kmem_cache_free of an object, then kmem_cache_alloc from that cache: the second succeeds at once. */
  lemma ObjectsComeBack(s: Sys, o: Obj, c: nat) returns (s1: Sys, s2: Sys, s3: Sys, x: Obj)
    requires SysInv(s) && Granted(s, ObjectGrant(c, o))
    ensures Step(s, FreeBegin(o, c), s1) && Step(s1, FreeFinish(o), s2) && Step(s2, AllocFast(c), s3)
    ensures Loses(s, s2, ObjectGrant(c, o)) && NewObject(s2, s3, c, x)
  {
    hide Inv, CachesOk, ObjectsOk, OwnersPoint, BlocksOk, Finish, Take, HasRoom, UsedBy, Lookup, Address;
    StepKeeps(s, FreeBegin(o, c));
    FreeBeginEffect(s, o, c);
    s1 := Next(s, FreeBegin(o, c));
    StepKeeps(s1, FreeFinish(o));
    FreeFinishEffect(s1, o);
    s2 := Next(s1, FreeFinish(o));
    AllocFastEffect(s2, c);
    s3 := Next(s2, AllocFast(c));
    x :| NewObject(s2, s3, c, x);
  }

  /** The growing path of kmem_cache_alloc, whenever the page allocator has a block: one new object, in a new slab. */
  lemma GrowGivesObject(s: Sys, c: nat) returns (s1: Sys, s2: Sys, s3: Sys, a: nat)
    requires SysInv(s) && c < |s.caches| && HasBlock(s.pool, s.caches[c].geom.order)
    ensures Step(s, Grow(c), s1) && Step(s1, GrowPublish(a), s2) && Step(s2, GrowAttach(a), s3)
    ensures Gains(s, s3, ObjectGrant(c, Obj(a, 0))) && TakesPages(s, s3, Block(a, s.caches[c].geom.order))
  {
    hide Inv, CachesOk, ObjectsOk, OwnersPoint, BlocksOk, Alloc, Attach, HasBlock, Granted, FreePage, Publish;
    StepKeeps(s, Grow(c));
    GrowEffect(s, c);
    s1 := Next(s, Grow(c));
    a :| NewBlock(s, s1, c, a);
    PendingOrder(s1, a);
    StepKeeps(s1, GrowPublish(a));
    QuietEffect(s1, GrowPublish(a));
    s2 := Next(s1, GrowPublish(a));
    StepKeeps(s2, GrowAttach(a));
    GrowAttachEffect(s2, a);
    s3 := Next(s2, GrowAttach(a));
  }

  /** The three sections of a round of kmem_cache_shrink: an empty slab's pages are free again and no grant changes. */
  lemma ShrinkReturnsPages(s: Sys, c: nat) returns (s1: Sys, s2: Sys, s3: Sys, a: nat)
    requires SysInv(s) && c < |s.caches| && HasEmpty(s.caches[c])
    ensures Step(s, ShrinkPop(c), s1) && Step(s1, ShrinkClear(a), s2) && Step(s2, ShrinkFree(a), s3)
    ensures SlabGone(s, s1, c, a) && SameGrants(s, s3) && a !in s3.pool.live && a !in s3.pending
    ensures TakesPages(s3, s, Block(a, s.caches[c].geom.order))
  {
    hide SysInv, Enabled, Next, Effect, Stay, HasEmpty, Granted, FreePage;
    s1, a := PopStep(s, c);
    s2, s3 := ReturnSteps(s1, c, a);
  }

  lemma PopStep(s: Sys, c: nat) returns (s1: Sys, a: nat)
    requires SysInv(s) && c < |s.caches| && HasEmpty(s.caches[c])
    ensures Step(s, ShrinkPop(c), s1) && SysInv(s1) && SlabGone(s, s1, c, a) && SameGrants(s, s1) && SamePages(s, s1)
    ensures s1.caches[c].geom == s.caches[c].geom
  {
    hide Inv, CachesOk, ObjectsOk, OwnersPoint, BlocksOk, Next, HasEmpty, Granted, FreePage;
    StepKeeps(s, ShrinkPop(c));
    ShrinkPopEffect(s, c);
    s1 := Next(s, ShrinkPop(c));
    a :| SlabGone(s, s1, c, a);
  }

  lemma PendingOrder(s: Sys, a: nat)
    requires SysInv(s) && a in s.pending
    ensures a in s.pool.live && s.pending[a].cache < |s.caches|
    ensures s.pool.live[a] == s.caches[s.pending[a].cache].geom.order
  {
    hide Inv, CachesOk, ObjectsOk, OwnersPoint, SlabsOk, CachesApart, RawOk, NoneLost;
    assert PendingBlock(s.pool.live, a in s.pool.owner, s.caches, s.pending[a], a);
  }

  lemma ReturnSteps(s1: Sys, c: nat, a: nat) returns (s2: Sys, s3: Sys)
    requires SysInv(s1) && c < |s1.caches| && a in s1.pending && s1.pending[a] == Popped(c)
    ensures Step(s1, ShrinkClear(a), s2) && Step(s2, ShrinkFree(a), s3)
    ensures SameGrants(s1, s3) && a !in s3.pool.live && a !in s3.pending
    ensures TakesPages(s3, s1, Block(a, s1.caches[c].geom.order))
  {
    hide Inv, CachesOk, ObjectsOk, OwnersPoint, BlocksOk, Free, Unpublish, Granted, FreePage;
    PendingOrder(s1, a);
    StepKeeps(s1, ShrinkClear(a));
    QuietEffect(s1, ShrinkClear(a));
    OwnersOnly(s1, ShrinkClear(a));
    s2 := Next(s1, ShrinkClear(a));
    StepKeeps(s2, ShrinkFree(a));
    ShrinkFreeEffect(s2, a);
    s3 := Next(s2, ShrinkFree(a));
  }

  // ------------------------------------------------------------------ nothing is lost

  /**
   After any run, with everything given back and no thread inside: every live block is a slab without an object in
   use, on its cache's empty list, where shrinking finds it; and if the empty lists are empty all pages are free.
   */
  lemma NothingLost(base: nat, n: nat, es: seq<Event>, s: Sys, p: int)
    requires SysInv(InitSys(base, n)) && Run(InitSys(base, n), es, s)
    requires s.objs == {} && s.raw == {} && s.pending == map[] && s.freeing == map[] && 0 <= p < s.pool.n
    ensures FreePage(s, p) || exists c: nat, a :: EmptySlabHolds(s, c, a, p)
  {
    hide Run, CachesOk, ObjectsOk, OwnersPoint, SlabsOk, CachesApart, PendingOk, RawOk, Tiled, OwnersUniform;
    RunKeeps(InitSys(base, n), es, s);
    FreeIffNotLive(s.pool, p);
    if Covered(LiveBlocks(s.pool.live), p) {
      var b :| b in LiveBlocks(s.pool.live) && In(p, b);
      assert Attached(s.caches, b.start);
      var c: nat :| c < |s.caches| && b.start in s.caches[c].free;
      UnusedSlabEmpty(s, c, b.start);
      assert EmptySlabHolds(s, c, b.start, p);
    }
  }

  /** Page p is in slab a, which is on the empty list of cache c. */
  ghost predicate EmptySlabHolds(s: Sys, c: nat, a: nat, p: int) {
    c < |s.caches| && a in s.caches[c].empty && a in s.pool.live && In(p, Block(a, s.pool.live[a]))
  }

  lemma UnusedSlabEmpty(s: Sys, c: nat, a: nat)
    requires SysInv(s) && s.objs == {} && s.freeing == map[] && c < |s.caches| && a in s.caches[c].free
    ensures a in s.caches[c].empty
  {
    hide Inv, BlocksOk, OwnersPoint, SlabBytes;
    var cache := s.caches[c];
    assert CacheInv(cache) && OnItsList(cache, a);
    forall i: nat | i < cache.geom.count
      ensures i in cache.free[a]
    {
      assert !UsedBy(s.caches, Obj(a, i));
      assert !InUse(cache, Obj(a, i));
    }
    ChainCount(cache.free[a], cache.geom.count);
  }
}
