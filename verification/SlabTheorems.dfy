/** What each section of the object-cache code keeps, and which objects it moves. */
module SlabTheorems {
  import opened Sequences
  import opened SlabGeometry
  import opened SlabModel
  import opened Wrappers

  lemma InitChainOk(count: nat)
    ensures ChainOk(InitChain(count), count) && |InitChain(count)| == count
    ensures forall i :: i in InitChain(count) <==> 0 <= i < count
  {
    forall i | 0 <= i < count
      ensures i in InitChain(count)
    {
      assert InitChain(count)[i] == i;
    }
  }

  /** The number of objects in use is what the free chain leaves over. */
  lemma ChainCount(free: seq<nat>, count: nat)
    requires ChainOk(free, count)
    ensures |free| <= count && |Indices(count) - Elems(free)| == count - |free|
    ensures |free| == count <==> forall i: nat :: i < count ==> i in free
  {
    SmallerSet(Elems(free), Indices(count));
    if forall i: nat :: i < count ==> i in free {
      assert Elems(free) == Indices(count);
    }
  }

  /** A chain with an index missing is shorter than the slab. */
  lemma ChainRoom(free: seq<nat>, count: nat, i: nat)
    requires ChainOk(free, count) && i < count && i !in free
    ensures |free| < count && ChainOk([i] + free, count)
  {
    ChainCount(free, count);
    NoDupPush(free, i);
  }

  // ------------------------------------------------------------- the operations

  lemma OthersStay(c: Cache, a: nat)
    requires CacheInv(c)
    ensures a in c.free ==> |c.free[a]| <= c.geom.count
    ensures a in c.full ==> a !in c.partial && a !in c.empty
    ensures a in c.partial ==> a !in c.empty
  {
    assert OnItsList(c, a);
    if a in c.free {
      ChainCount(c.free[a], c.geom.count);
    }
  }

  /** Allocating from a partial slab keeps the invariant and puts exactly the new object in use. */
  lemma AllocFromKeeps(c: Cache, a: nat)
    requires CacheInv(c) && a in c.partial
    ensures AllocFrom(c, a).1.Some? && AllocFrom(c, a).1.value.slab == a
    ensures CacheInv(AllocFrom(c, a).0)
    ensures AllocFrom(c, a).0.geom == c.geom && AllocFrom(c, a).0.free.Keys == c.free.Keys
    ensures !InUse(c, AllocFrom(c, a).1.value)
    ensures forall o :: InUse(AllocFrom(c, a).0, o) <==> InUse(c, o) || o == AllocFrom(c, a).1.value
  {
    assert OnItsList(c, a);
    NoDupTail(c.free[a]);
    var c' := AllocFrom(c, a).0;
    WithoutIsRemoval(c.partial, a);
    NoDupPush(c.full, a);
    forall x
      ensures OnItsList(c', x)
    {
      assert OnItsList(c, x);
    }
  }

  /** The object was the first of its slab's chain, and the rest of that chain and all other chains are as before. */
  ghost predicate FromChain(c: Cache, c': Cache, o: Obj) {
    && o.slab in c.free && c.free[o.slab] != [] && o.index == c.free[o.slab][0]
    && c'.free == c.free[o.slab := c.free[o.slab][1..]]
  }

  /** The fast path finds an object exactly when there is a slab with room, and never fails on one. */
  lemma TakeKeeps(c: Cache)
    requires CacheInv(c)
    ensures Take(c).1.None? <==> c.partial == [] && c.empty == []
    ensures CacheInv(Take(c).0) && Take(c).0.geom == c.geom && Take(c).0.free.Keys == c.free.Keys
    ensures Take(c).1.None? ==> Take(c).0 == c
    ensures Take(c).1.Some? ==> !InUse(c, Take(c).1.value)
    ensures Take(c).1.Some? ==> forall o :: InUse(Take(c).0, o) <==> InUse(c, o) || o == Take(c).1.value
    ensures c.partial != [] ==> Take(c).1.value.slab == c.partial[0] && Take(c).0.empty == c.empty
    ensures c.partial == [] && c.empty != [] ==> Take(c).1.value.slab == c.empty[0] && Take(c).0.empty == c.empty[1..]
    ensures Take(c).1.Some? ==> FromChain(c, Take(c).0, Take(c).1.value)
  {
    if c.partial != [] {
      AllocFromKeeps(c, c.partial[0]);
    } else if c.empty != [] {
      FromEmpty(c, c.(empty := c.empty[1..], partial := [c.empty[0]] + c.partial), c.empty[0]);
    }
  }

  /** Allocating from a slab that was empty until now, already linked at the front of the partial list. */
  lemma FromEmpty(c: Cache, c1: Cache, a: nat)
    requires CacheInv(c) && c.empty != [] && a == c.empty[0]
    requires c1 == c.(empty := c.empty[1..], partial := [a] + c.partial)
    ensures AllocFrom(c1, a).1.Some? && AllocFrom(c1, a).1.value.slab == a
    ensures CacheInv(AllocFrom(c1, a).0)
    ensures AllocFrom(c1, a).0.geom == c.geom && AllocFrom(c1, a).0.free.Keys == c.free.Keys
    ensures !InUse(c, AllocFrom(c1, a).1.value)
    ensures forall o :: InUse(AllocFrom(c1, a).0, o) <==> InUse(c, o) || o == AllocFrom(c1, a).1.value
  {
    assert OnItsList(c, a);
    NoDupTail(c.empty);
    NoDupPush(c.partial, a);
    forall x | x != a
      ensures OnItsList(c1, x)
    {
      assert OnItsList(c, x);
    }
    NewSlabAlloc(c1, a);
  }

  /** Allocating the first object of a slab just linked to the partial list; all other slabs are on their lists. */
  lemma NewSlabAlloc(c1: Cache, a: nat)
    requires Sound(c1.geom) && NoDup(c1.full) && NoDup(c1.partial) && NoDup(c1.empty)
    requires forall x :: x in c1.free ==> ChainOk(c1.free[x], c1.geom.count)
    requires forall x :: x != a ==> OnItsList(c1, x)
    requires a in c1.free && |c1.free[a]| == c1.geom.count
    requires a in c1.partial && a !in c1.full && a !in c1.empty
    ensures AllocFrom(c1, a).1.Some? && AllocFrom(c1, a).1.value.slab == a
    ensures CacheInv(AllocFrom(c1, a).0)
    ensures AllocFrom(c1, a).0.geom == c1.geom && AllocFrom(c1, a).0.free.Keys == c1.free.Keys
    ensures !InUse(c1, AllocFrom(c1, a).1.value)
    ensures forall o :: InUse(AllocFrom(c1, a).0, o) <==> InUse(c1, o) || o == AllocFrom(c1, a).1.value
  {
    NoDupTail(c1.free[a]);
    WithoutIsRemoval(c1.partial, a);
    NoDupPush(c1.full, a);
    var c' := AllocFrom(c1, a).0;
    forall x
      ensures OnItsList(c', x)
    {
      if x != a {
        assert OnItsList(c1, x);
      }
    }
  }

  /** Linking a new slab and allocating from it: one object comes into use. */
  lemma AttachKeeps(c: Cache, a: nat)
    requires CacheInv(c) && a !in c.free
    ensures Attach(c, a).1 == Some(Obj(a, 0))
    ensures CacheInv(Attach(c, a).0)
    ensures Attach(c, a).0.geom == c.geom && Attach(c, a).0.free.Keys == c.free.Keys + {a}
    ensures forall o :: InUse(Attach(c, a).0, o) <==> InUse(c, o) || o == Attach(c, a).1.value
  {
    InitChainOk(c.geom.count);
    assert OnItsList(c, a);
    NoDupPush(c.partial, a);
    var c1 := c.(partial := [a] + c.partial, free := c.free[a := InitChain(c.geom.count)]);
    forall x | x != a
      ensures OnItsList(c1, x)
    {
      assert OnItsList(c, x);
    }
    NewSlabAlloc(c1, a);
  }

  /** Freeing an object in use takes exactly it out of use. */
  lemma PutKeeps(c: Cache, o: Obj)
    requires CacheInv(c) && InUse(c, o)
    ensures CacheInv(Put(c, o)) && Put(c, o).geom == c.geom && Put(c, o).free.Keys == c.free.Keys
    ensures FromChain(Put(c, o), c, o)
    ensures forall x :: InUse(Put(c, o), x) <==> InUse(c, x) && x != o
  {
    var a := o.slab;
    assert OnItsList(c, a);
    ChainRoom(c.free[a], c.geom.count, o.index);
    OthersStay(c, a);
    PutLists(c, o);
    var c' := Put(c, o);
    forall x
      ensures OnItsList(c', x)
    {
      assert OnItsList(c, x);
    }
  }

  lemma PutLists(c: Cache, o: Obj)
    requires CacheInv(c) && InUse(c, o)
    ensures var c', a := Put(c, o), o.slab;
            && NoDup(c'.full) && NoDup(c'.partial) && NoDup(c'.empty)
            && (forall x :: x != a ==> (x in c'.full <==> x in c.full))
            && (forall x :: x != a ==> (x in c'.partial <==> x in c.partial))
            && (forall x :: x != a ==> (x in c'.empty <==> x in c.empty))
            && a !in c'.full
            && (a in c'.partial <==> |c.free[a]| + 1 < c.geom.count)
            && (a in c'.empty <==> |c.free[a]| + 1 == c.geom.count)
  {
    var a := o.slab;
    assert OnItsList(c, a);
    ChainRoom(c.free[a], c.geom.count, o.index);
    var wasFull := c.free[a] == [];
    var partial := if wasFull then [a] + c.partial else c.partial;
    WithoutIsRemoval(c.full, a);
    if wasFull {
      NoDupPush(c.partial, a);
    }
    WithoutIsRemoval(partial, a);
    NoDupPush(c.empty, a);
  }

  /** Unlinking an empty slab takes no object in use with it. */
  lemma PopEmptyKeeps(c: Cache)
    requires CacheInv(c) && c.empty != []
    ensures PopEmpty(c).1.Some?
    ensures var (c', r) := PopEmpty(c);
            && CacheInv(c') && c'.geom == c.geom && r.value in c.free && c'.free.Keys == c.free.Keys - {r.value}
            && (forall o :: InUse(c', o) <==> InUse(c, o))
            && (forall o :: InUse(c, o) ==> o.slab != r.value)
  {
    hide SlabBytes, NoDup, ChainOk;
    var a := c.empty[0];
    var c' := PopEmpty(c).0;
    assert OnItsList(c, a) && a in c.empty;
    NoDupTail(c.empty);
    forall x
      ensures OnItsList(c', x)
    {
      assert OnItsList(c, x);
    }
    forall o | InUse(c, o)
      ensures o.slab != a
    {
      AllFree(c, a, o.index);
    }
  }

  /** Of a slab whose chain is as long as the slab has objects, none is in use. */
  lemma AllFree(c: Cache, a: nat, i: nat)
    requires CacheInv(c) && a in c.free && |c.free[a]| == c.geom.count && i < c.geom.count
    ensures i in c.free[a]
  {
    ChainCount(c.free[a], c.geom.count);
  }
}
