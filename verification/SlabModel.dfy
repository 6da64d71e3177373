/**
 One object cache: its slabs, each with the chain of its free object indices, on the full,
 partial and empty lists.  Every operation here is one section of code under the cache lock.
 */
module SlabModel {
  import opened Sequences
  import opened Wrappers
  import opened SlabGeometry

  /** An object: the head page of its slab and its index there. */
  datatype Obj = Obj(slab: nat, index: nat)

  datatype Cache = Cache(
    geom: Geometry,
    full: seq<nat>,
    partial: seq<nat>,
    empty: seq<nat>,
    free: map<nat, seq<nat>>)

  function InitChain(count: nat): seq<nat> {
    seq(count, i => i)
  }

  /** slab_alloc_obj on a slab of the partial list, and the move to the full list. */
  function AllocFrom(c: Cache, a: nat): (r: (Cache, Option<Obj>))
  {
    if a !in c.free || c.free[a] == [] then (c, None)
    else
      var rest := c.free[a][1..];
      var c' := c.(free := c.free[a := rest]);
      (if rest == [] then c'.(partial := Without(c.partial, a), full := [a] + c.full) else c',
       Some(Obj(a, c.free[a][0])))
  }

  /** The fast path of kmem_cache_alloc: from a partial slab, else from an empty one. */
  function Take(c: Cache): (r: (Cache, Option<Obj>))
  {
    if c.partial != [] then AllocFrom(c, c.partial[0])
    else if c.empty != [] then
      AllocFrom(c.(empty := c.empty[1..], partial := [c.empty[0]] + c.partial), c.empty[0])
    else (c, None)
  }

  /** The last section of the growing path: link the new slab and allocate from it. */
  function Attach(c: Cache, a: nat): (r: (Cache, Option<Obj>)) {
    AllocFrom(c.(partial := [a] + c.partial, free := c.free[a := InitChain(c.geom.count)]), a)
  }

  /** The locked section of kmem_cache_free, for an object in use. */
  function Put(c: Cache, o: Obj): (r: Cache)
    requires o.slab in c.free
  {
    var a := o.slab;
    var wasFull := c.free[a] == [];
    var c1 := c.(free := c.free[a := [o.index] + c.free[a]]);
    var c2 := if wasFull then c1.(full := Without(c1.full, a), partial := [a] + c1.partial) else c1;
    if |c2.free[a]| == c.geom.count
    then c2.(partial := Without(c2.partial, a), empty := [a] + c2.empty)
    else c2
  }

  /** One round of kmem_cache_shrink under the cache lock: unlink an empty slab. */
  function PopEmpty(c: Cache): (r: (Cache, Option<nat>))
  {
    if c.empty == [] then (c, None)
    else (c.(empty := c.empty[1..], free := c.free - {c.empty[0]}), Some(c.empty[0]))
  }

  // --------------------------------------------------------------- invariant

  /** The chain visits free indices of the slab, each once. */
  ghost predicate ChainOk(free: seq<nat>, count: nat) {
    NoDup(free) && forall i :: i in free ==> i < count
  }

  /** Which list a slab is on is decided by how many of its objects are free. */
  ghost predicate OnItsList(c: Cache, a: nat) {
    && (a in c.full <==> a in c.free && |c.free[a]| == 0)
    && (a in c.partial <==> a in c.free && 0 < |c.free[a]| < c.geom.count)
    && (a in c.empty <==> a in c.free && |c.free[a]| == c.geom.count)
  }

  ghost predicate CacheInv(c: Cache) {
    && Sound(c.geom)
    && NoDup(c.full) && NoDup(c.partial) && NoDup(c.empty)
    && (forall a :: a in c.free ==> ChainOk(c.free[a], c.geom.count))
    && (forall a :: OnItsList(c, a))
  }

  /** The objects in use: the indices that are not on the chain of their slab. */
  ghost predicate InUse(c: Cache, o: Obj) {
    o.slab in c.free && o.index < c.geom.count && o.index !in c.free[o.slab]
  }
}
