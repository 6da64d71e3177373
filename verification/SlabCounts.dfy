/** get_objects_in_use counts exactly the objects in use. */
module SlabCounts {
  import opened Sequences
  import opened SlabModel
  import opened SlabTheorems

  ghost function SlabUsed(c: Cache, a: nat): (s: set<Obj>)
    requires a in c.free
    ensures forall o :: o in s <==> o.slab == a && InUse(c, o)
  {
    set i | i in Indices(c.geom.count) - Elems(c.free[a]) :: Obj(a, i)
  }

  lemma {:induction false} ImageSize(s: set<nat>, a: nat)
    ensures |set i | i in s :: Obj(a, i)| == |s|
  {
    if s != {} {
      var x :| x in s;
      ImageSize(s - {x}, a);
      assert (set i | i in s :: Obj(a, i)) == (set i | i in s - {x} :: Obj(a, i)) + {Obj(a, x)};
    }
  }

  lemma SlabUsedSize(c: Cache, a: nat)
    requires a in c.free && ChainOk(c.free[a], c.geom.count)
    ensures |SlabUsed(c, a)| == c.geom.count - |c.free[a]|
  {
    ChainCount(c.free[a], c.geom.count);
    ImageSize(Indices(c.geom.count) - Elems(c.free[a]), a);
  }

  /** The objects in use in the slabs of a list. */
  ghost function ListUsed(c: Cache, l: seq<nat>): (s: set<Obj>)
    requires forall a :: a in l ==> a in c.free
    ensures forall o :: o in s <==> o.slab in l && InUse(c, o)
  {
    if l == [] then {} else SlabUsed(c, l[0]) + ListUsed(c, l[1..])
  }

  /** The sum of the inuse fields over a list, as the loop of get_objects_in_use adds them up. */
  function SumInUse(c: Cache, l: seq<nat>): int
    requires forall a :: a in l ==> a in c.free
  {
    if l == [] then 0 else c.geom.count - |c.free[l[0]]| + SumInUse(c, l[1..])
  }

  lemma {:induction false} ListUsedSize(c: Cache, l: seq<nat>)
    requires NoDup(l) && forall a :: a in l ==> a in c.free && ChainOk(c.free[a], c.geom.count)
    ensures |ListUsed(c, l)| == SumInUse(c, l)
  {
    hide SlabUsed;
    if l != [] {
      NoDupTail(l);
      SlabUsedSize(c, l[0]);
      ListUsedSize(c, l[1..]);
      assert SlabUsed(c, l[0]) !! ListUsed(c, l[1..]);
    }
  }

  lemma {:induction false} SumOverFull(c: Cache, l: seq<nat>)
    requires forall a :: a in l ==> a in c.free && c.free[a] == []
    ensures SumInUse(c, l) == |l| * c.geom.count
  {
    if l != [] {
      SumOverFull(c, l[1..]);
    }
  }

  lemma {:induction false} SumOverEmpty(c: Cache, l: seq<nat>)
    requires forall a :: a in l ==> a in c.free && |c.free[a]| == c.geom.count
    ensures SumInUse(c, l) == 0
  {
    if l != [] {
      SumOverEmpty(c, l[1..]);
    }
  }

  /** The set of objects in use of a cache. */
  ghost function Used(c: Cache): (s: set<Obj>)
    requires CacheInv(c)
    ensures forall o :: o in s <==> InUse(c, o)
  {
    OnLists(c);
    ListUsed(c, c.full) + ListUsed(c, c.partial) + ListUsed(c, c.empty)
  }

  lemma OnLists(c: Cache)
    requires CacheInv(c)
    ensures forall a :: a in c.full ==> a in c.free && c.free[a] == []
    ensures forall a :: a in c.partial ==> a in c.free && 0 < |c.free[a]| < c.geom.count
    ensures forall a :: a in c.empty ==> a in c.free && |c.free[a]| == c.geom.count
    ensures forall a :: a in c.free ==> a in c.full || a in c.partial || a in c.empty
    ensures c.geom.count >= 1
  {
    hide NoDup, ChainOk;
    forall a
      ensures OnItsList(c, a)
      ensures a in c.free ==> |c.free[a]| <= c.geom.count
    {
      if a in c.free {
        ChainCount(c.free[a], c.geom.count);
      }
    }
  }

  /** What get_objects_in_use returns: a product for the full slabs, a sum for the partial ones. */
  function ObjectsInUse(c: Cache): int
    requires forall a :: a in c.partial ==> a in c.free
  {
    |c.full| * c.geom.count + SumInUse(c, c.partial)
  }

  lemma ObjectsInUseExact(c: Cache)
    requires CacheInv(c)
    ensures forall a :: a in c.partial ==> a in c.free
    ensures ObjectsInUse(c) == |Used(c)|
  {
    hide NoDup, ChainOk, ListUsed, SumInUse;
    OnLists(c);
    ListUsedSize(c, c.full);
    ListUsedSize(c, c.partial);
    ListUsedSize(c, c.empty);
    SumOverFull(c, c.full);
    SumOverEmpty(c, c.empty);
    assert ListUsed(c, c.full) !! ListUsed(c, c.partial);
    assert ListUsed(c, c.empty) == {};
  }
}
