/** Slabs and object caches as the kernel updates them in place. */
module Slab {
  import opened Sequences
  import opened Wrappers
  import opened Chains
  import opened SlabGeometry
  import opened SlabModel
  import opened SlabTheorems
  import opened SlabCounts
  import opened SlabLists

  lemma InitLinks(next: seq<int>, count: nat)
    requires |next| == count >= 1
    requires forall i :: 0 <= i < count ==> next[i] == if i + 1 < count then i + 1 else NOFREE
    ensures Chain(NOFREE, 0, next, InitChain(count))
  {
  }

  /** The header of one slab: the index chain through the next array, and its counters. */
  class SlabPage {
    const head: nat
    const count: nat
    const next: array<int>
    var firstFree: int
    var freeCount: nat
    var inuse: nat
    ghost var free: seq<nat>

    ghost predicate Valid()
      reads this, next
    {
      && 1 <= count < NOFREE && next.Length == count
      && Chain(NOFREE, firstFree, next[..], free)
      && ChainOk(free, count)
      && freeCount == |free| && inuse + |free| == count
    }

    /** The header set up by the growing path of kmem_cache_alloc. */
    constructor (head: nat, count: nat)
      requires 1 <= count < NOFREE
      ensures Valid() && this.head == head && this.count == count && free == InitChain(count)
      ensures fresh(next)
    {
      this.head, this.count := head, count;
      next := new int[count];
      inuse := 0;
      firstFree := 0;
      freeCount := count;
      free := InitChain(count);
      new;
      var i := 0;
      while i + 1 < count
        invariant 0 <= i < count
        invariant forall j :: 0 <= j < i ==> next[j] == j + 1
        invariant freeCount == count && inuse == 0 && firstFree == 0 && free == InitChain(count)
      {
        next[i] := i + 1;
        i := i + 1;
      }
      next[count - 1] := NOFREE;
      InitLinks(next[..], count);
      InitChainOk(count);
    }

    /** slab_alloc_obj. */
    method AllocObj() returns (r: Option<nat>)
      requires Valid()
      modifies this`firstFree, this`freeCount, this`inuse, this`free
      ensures Valid()
      ensures old(free) == [] ==> r == None && free == []
      ensures old(free) != [] ==> r == Some(old(free)[0]) && free == old(free)[1..]
    {
      if firstFree == NOFREE {
        return None;
      }
      var idx := firstFree;
      ChainTail(NOFREE, next[..], free);
      NoDupTail(free);
      assert next[..][idx] == next[idx];
      firstFree := next[idx];
      freeCount := freeCount - 1;
      inuse := inuse + 1;
      free := free[1..];
      r := Some(idx);
    }

    /** slab_free_obj, for the index of an object in use. */
    method FreeObj(idx: nat)
      requires Valid() && idx < count && idx !in free
      modifies this`firstFree, this`freeCount, this`inuse, this`free, next
      ensures Valid() && free == [idx] + old(free)
    {
      ChainPush(NOFREE, firstFree, next[..], free, idx);
      ChainRoom(free, count, idx);
      next[idx] := firstFree;
      assert next[..] == old(next[..])[idx := firstFree];
      firstFree := idx;
      freeCount := freeCount + 1;
      inuse := inuse - 1;
      free := [idx] + free;
    }
  }

  // ------------------------------------------------------------------- caches

  /** An object cache: the heads of its three slab lists and the slab headers, updated under the cache lock. */
  class KmemCache {
    const geom: Geometry
    var fullHead: int
    var partialHead: int
    var emptyHead: int
    var links: Links
    var slabs: map<nat, SlabPage>
    ghost var full: seq<nat>
    ghost var partial: seq<nat>
    ghost var empty: seq<nat>

    ghost predicate SlabsValid()
      reads this`slabs, slabs.Values, set s | s in slabs.Values :: s.next
    {
      && (forall a :: a in slabs ==> slabs[a].head == a && slabs[a].count == geom.count && slabs[a].Valid())
      && (forall a, b :: a in slabs && b in slabs && a != b ==> slabs[a].next != slabs[b].next)
    }

    ghost function Chains(): map<nat, seq<nat>>
      reads this`slabs, slabs.Values
    {
      map a | a in slabs :: slabs[a].free
    }

    ghost function View(): Cache
      reads this, slabs.Values
    {
      Cache(geom, full, partial, empty, Chains())
    }

    /** The lists are linked through the headers, both ways, and hold only slabs of the cache. */
    ghost predicate ListsOk()
      reads this`fullHead, this`partialHead, this`emptyHead, this`links, this`slabs, this`full, this`partial, this`empty
    {
      && Lists((fullHead, partialHead, emptyHead), links, full, partial, empty)
      && Known(slabs.Keys, full) && Known(slabs.Keys, partial) && Known(slabs.Keys, empty)
    }

    ghost predicate Linked()
      reads this, slabs.Values, set s | s in slabs.Values :: s.next
    {
      SlabsValid() && ListsOk()
    }

    ghost predicate Valid()
      reads this, slabs.Values, set s | s in slabs.Values :: s.next
    {
      Linked() && CacheInv(View())
    }

    constructor (geom: Geometry)
      requires Sound(geom)
      ensures Valid() && View() == Cache(geom, [], [], [], map[]) && slabs == map[]
    {
      this.geom := geom;
      fullHead, partialHead, emptyHead := NIL, NIL, NIL;
      links, slabs := Links(map[], map[]), map[];
      full, partial, empty := [], [], [];
      new;
      assert View() == Cache(geom, [], [], [], map[]);
      assert forall a :: OnItsList(View(), a);
    }

    // ------------------------------------------------------------ the list functions

    /** slab_list_push_front; the new head is the slab. */
    method PushFront(head: int, s: nat) returns (top: int)
      modifies this`links
      ensures top == s && links == Pushed(old(links), head, s)
      ensures forall l :: ListOk(head, old(links), l) && s !in l ==> ListOk(top, links, [s] + l)
    {
      hide ListOk;
      links := links.(prev := links.prev[s := NIL]);
      links := links.(next := links.next[s := head]);
      if head >= 0 {
        links := links.(prev := links.prev[head := s]);
      }
      top := s;
      forall l | ListOk(head, old(links), l) && s !in l
        ensures ListOk(top, links, [s] + l)
      {
        PushOk(head, old(links), l, s);
      }
    }

    /** slab_list_pop_front, and remove_from_slab_list, on a list that is not empty. */
    method PopFront(head: int) returns (s: nat, top: int)
      requires head >= 0 && head in links.next
      modifies this`links
      ensures s == head && top == old(links).next[head] && links == Popped(old(links), head)
      ensures forall l :: ListOk(head, old(links), l) && l != [] ==> l[0] == s && ListOk(top, links, l[1..])
    {
      hide ListOk;
      s := head;
      top := links.next[s];
      if top >= 0 {
        links := links.(prev := links.prev[top := NIL]);
      }
      links := links.(next := links.next[s := NIL]);
      links := links.(prev := links.prev[s := NIL]);
      forall l | ListOk(head, old(links), l) && l != []
        ensures l[0] == s && ListOk(top, links, l[1..])
      {
        ListHead(head, old(links), l);
        PopOk(head, old(links), l);
      }
    }

    /** slab_list_remove_node. */
    method RemoveNode(head: int, s: nat) returns (top: int)
      requires s in links.next && s in links.prev
      modifies this`links
      ensures top == HeadWithout(head, old(links), s) && links == Removed(old(links), s)
      ensures forall l :: ListOk(head, old(links), l) && s in l ==> ListOk(top, links, Without(l, s))
    {
      hide ListOk, Without;
      top := head;
      var p, n := links.prev[s], links.next[s];
      if p >= 0 {
        links := links.(next := links.next[p := n]);
      } else {
        top := n;
      }
      if n >= 0 {
        links := links.(prev := links.prev[n := p]);
      }
      links := links.(next := links.next[s := NIL]);
      links := links.(prev := links.prev[s := NIL]);
      forall l | ListOk(head, old(links), l) && s in l
        ensures ListOk(top, links, Without(l, s))
      {
        RemoveAt(head, old(links), l, s);
      }
    }

    method MoveToFull(a: nat)
      requires ListsOk() && a in partial
      modifies this`fullHead, this`partialHead, this`links, this`full, this`partial
      ensures ListsOk() && partial == Without(old(partial), a) && full == [a] + old(full)
    {
      hide ListOk, Pushed, Removed, Without, HeadWithout, NoDup;
      MoveOk(partialHead, fullHead, emptyHead, links, partial, full, empty, a);
      NoRepeats(partialHead, links, partial);
      WithoutIsRemoval(partial, a);
      partialHead := RemoveNode(partialHead, a);
      fullHead := PushFront(fullHead, a);
      partial, full := Without(partial, a), [a] + full;
    }

    method MoveToPartial(a: nat)
      requires ListsOk() && a in full
      modifies this`fullHead, this`partialHead, this`links, this`full, this`partial
      ensures ListsOk() && full == Without(old(full), a) && partial == [a] + old(partial)
    {
      hide ListOk, Pushed, Removed, Without, HeadWithout, NoDup;
      MoveOk(fullHead, partialHead, emptyHead, links, full, partial, empty, a);
      NoRepeats(fullHead, links, full);
      WithoutIsRemoval(full, a);
      fullHead := RemoveNode(fullHead, a);
      partialHead := PushFront(partialHead, a);
      full, partial := Without(full, a), [a] + partial;
    }

    method MoveToEmpty(a: nat)
      requires ListsOk() && a in partial
      modifies this`emptyHead, this`partialHead, this`links, this`empty, this`partial
      ensures ListsOk() && partial == Without(old(partial), a) && empty == [a] + old(empty)
    {
      hide ListOk, Pushed, Removed, Without, HeadWithout, NoDup;
      MoveOk(partialHead, emptyHead, fullHead, links, partial, empty, full, a);
      NoRepeats(partialHead, links, partial);
      WithoutIsRemoval(partial, a);
      partialHead := RemoveNode(partialHead, a);
      emptyHead := PushFront(emptyHead, a);
      partial, empty := Without(partial, a), [a] + empty;
    }

    /** The first empty slab becomes the first partial one. */
    method EmptyToPartial() returns (a: nat)
      requires ListsOk() && empty != []
      modifies this`emptyHead, this`partialHead, this`links, this`empty, this`partial
      ensures ListsOk() && a == old(empty)[0] && empty == old(empty)[1..] && partial == [a] + old(partial)
    {
      hide ListOk, Pushed, Popped, NoDup;
      PopMoveOk(emptyHead, partialHead, fullHead, links, empty, partial, full);
      ListHead(emptyHead, links, empty);
      a, emptyHead := PopFront(emptyHead);
      partialHead := PushFront(partialHead, a);
      empty, partial := empty[1..], [a] + partial;
    }

    // ------------------------------------------------------------ allocation and free

    /** slab_alloc_obj, and whether it took the slab's last free object. */
    method TakeFirst(a: nat) returns (r: Option<nat>, isFull: bool)
      requires Linked() && a in slabs
      modifies slabs.Values
      ensures Linked() && a in old(Chains())
      ensures old(Chains())[a] == [] ==> r == None && View() == old(View())
      ensures old(Chains())[a] != [] ==>
                && r == Some(old(Chains())[a][0])
                && View() == old(View()).(free := old(View()).free[a := old(Chains())[a][1..]])
                && isFull == (old(Chains())[a][1..] == [])
    {
      hide Chain, ChainOk, Lists;
      var slab := slabs[a];
      r := slab.AllocObj();
      isFull := slab.inuse == geom.count;
      assert Chains() == if r == None then old(Chains()) else old(Chains())[a := slab.free];
    }

    /** slab_alloc_obj on a slab of the partial list, and the move of a slab without room to the full list. */
    method AllocFromSlab(a: nat) returns (r: Option<Obj>)
      requires Linked() && a in partial
      modifies this`fullHead, this`partialHead, this`links, this`full, this`partial, slabs.Values
      ensures Linked() && View() == AllocFrom(old(View()), a).0 && r == AllocFrom(old(View()), a).1
    {
      hide Without, SlabsValid, Chains, Lists;
      var idx, isFull := TakeFirst(a);
      if idx == None {
        return None;
      }
      if isFull {
        MoveToFull(a);
      }
      r := Some(Obj(a, idx.value));
    }

    /** The fast path of kmem_cache_alloc. */
    method TakeObject() returns (r: Option<Obj>)
      requires Valid()
      modifies this`fullHead, this`partialHead, this`emptyHead, this`links, this`full, this`partial, this`empty,
        slabs.Values
      ensures Valid() && View() == Take(old(View())).0 && r == Take(old(View())).1
    {
      hide CacheInv, AllocFrom, SlabsValid, Chains, ListOk;
      TakeKeeps(View());
      ListHead(partialHead, links, partial);
      ListHead(emptyHead, links, empty);
      if partialHead >= 0 {
        r := AllocFromSlab(partialHead);
      } else if emptyHead >= 0 {
        var a := EmptyToPartial();
        r := AllocFromSlab(a);
      } else {
        r := None;
      }
    }

    /** The last section of the growing path: link the new slab and allocate from it. */
    method AttachSlab(slab: SlabPage) returns (r: Option<Obj>)
      requires Valid() && slab.Valid() && slab.count == geom.count && slab.free == InitChain(geom.count)
      requires slab.head !in slabs && slab !in slabs.Values && slab.next !in (set s | s in slabs.Values :: s.next)
      modifies this, slab, slabs.Values
      ensures Valid() && View() == Attach(old(View()), slab.head).0 && r == Attach(old(View()), slab.head).1
      ensures slabs == old(slabs)[slab.head := slab]
    {
      hide CacheInv, AllocFrom, SlabsValid, SlabPage.Valid, Chains, InitChain, Lists;
      assert slab.head !in Chains() by { KnownChains(slab.head); }
      AttachKeeps(View(), slab.head);
      LinkSlab(slab);
      r := AllocFromSlab(slab.head);
    }

    lemma KnownChains(a: nat)
      ensures a in Chains() <==> a in slabs
    {
    }

    method LinkSlab(slab: SlabPage)
      requires Linked() && slab.Valid() && slab.count == geom.count
      requires slab.head !in slabs && slab !in slabs.Values && slab.next !in (set s | s in slabs.Values :: s.next)
      modifies this`partialHead, this`links, this`partial, this`slabs
      ensures Linked() && slabs == old(slabs)[slab.head := slab]
      ensures View() == old(View()).(partial := [slab.head] + old(View()).partial,
        free := old(View()).free[slab.head := slab.free])
    {
      hide Lists, Chains, SlabsValid, SlabPage.Valid;
      LinkPartial(slab.head);
      Adopt(slab);
    }

    method Adopt(slab: SlabPage)
      requires SlabsValid() && slab.Valid() && slab.count == geom.count
      requires slab.head !in slabs && slab !in slabs.Values && slab.next !in (set s | s in slabs.Values :: s.next)
      modifies this`slabs
      ensures SlabsValid() && slabs == old(slabs)[slab.head := slab]
      ensures Chains() == old(Chains())[slab.head := slab.free]
    {
      hide SlabPage.Valid;
      slabs := slabs[slab.head := slab];
      assert Chains() == old(Chains())[slab.head := slab.free];
    }

    method Forget(a: nat)
      requires SlabsValid()
      modifies this`slabs
      ensures SlabsValid() && slabs == old(slabs) - {a} && Chains() == old(Chains()) - {a}
    {
      hide SlabPage.Valid;
      slabs := slabs - {a};
      assert Chains() == old(Chains()) - {a};
    }

    method LinkPartial(a: nat)
      requires ListsOk() && a !in slabs
      modifies this`partialHead, this`links, this`partial
      ensures Lists((fullHead, partialHead, emptyHead), links, full, partial, empty) && partial == [a] + old(partial)
    {
      hide ListOk, Pushed;
      PushOk(partialHead, links, partial, a);
      OtherPushed(fullHead, links, full, partialHead, partial, a);
      OtherPushed(emptyHead, links, empty, partialHead, partial, a);
      partialHead := PushFront(partialHead, a);
      partial := [a] + partial;
    }

    /** The locked section of kmem_cache_free, for an object in use. */
    method PutObject(a: nat, idx: nat)
      requires Valid() && a in slabs && InUse(View(), Obj(a, idx))
      modifies this`fullHead, this`partialHead, this`emptyHead, this`links, this`full, this`partial, this`empty
      modifies slabs.Values, set s | s in slabs.Values :: s.next
      ensures Valid() && View() == Put(old(View()), Obj(a, idx))
    {
      hide CacheInv, Without, SlabsValid, Chains, Chain, ChainOk, Lists;
      PutKeeps(View(), Obj(a, idx));
      ListedBy(View(), a);
      var wasFull, isEmpty := ReturnObject(a, idx);
      if wasFull {
        MoveToPartial(a);
      }
      if isEmpty {
        MoveToEmpty(a);
      }
    }

    /** slab_free_obj, with the two tests of inuse around it. */
    method ReturnObject(a: nat, idx: nat) returns (wasFull: bool, isEmpty: bool)
      requires Linked() && a in slabs && InUse(View(), Obj(a, idx))
      modifies slabs.Values, set s | s in slabs.Values :: s.next
      ensures Linked()
      ensures a in old(Chains())
      ensures View() == old(View()).(free := old(View()).free[a := [idx] + old(View()).free[a]])
      ensures wasFull == (old(Chains())[a] == []) && isEmpty == (|old(Chains())[a]| + 1 == geom.count)
    {
      hide Chain, ChainOk, Lists;
      var slab := slabs[a];
      wasFull := slab.inuse == geom.count;
      slab.FreeObj(idx);
      isEmpty := slab.inuse == 0;
      assert Chains() == old(Chains())[a := [idx] + old(Chains())[a]];
    }

    /** One round of kmem_cache_shrink under the cache lock: remove_from_slab_list on the empty list. */
    method PopEmptySlab() returns (r: Option<nat>)
      requires Valid()
      modifies this`emptyHead, this`links, this`empty, this`slabs
      ensures Valid() && View() == PopEmpty(old(View())).0 && r == PopEmpty(old(View())).1
    {
      hide CacheInv, SlabsValid, Chains, ListOk;
      ListHead(emptyHead, links, empty);
      if emptyHead < 0 {
        return None;
      }
      PopEmptyKeeps(View());
      PopListed(View());
      var a := UnlinkEmpty();
      Forget(a);
      r := Some(a);
    }

    method UnlinkEmpty() returns (a: nat)
      requires ListsOk() && empty != []
      modifies this`emptyHead, this`links, this`empty
      ensures Lists((fullHead, partialHead, emptyHead), links, full, partial, empty)
      ensures a == old(empty)[0] && empty == old(empty)[1..]
    {
      hide ListOk, Popped;
      ListHead(emptyHead, links, empty);
      PopOk(emptyHead, links, empty);
      OtherPopped(fullHead, links, full, emptyHead, empty);
      OtherPopped(partialHead, links, partial, emptyHead, empty);
      a, emptyHead := PopFront(emptyHead);
      empty := empty[1..];
    }

    // ------------------------------------------------------------ counting

    /** get_num_slabs: the walk along the links ends, after as many steps as the list has slabs. */
    method CountSlabs(head: int, ghost l: seq<nat>) returns (n: nat)
      requires ListOk(head, links, l)
      ensures n == |l|
    {
      var at := head;
      n := 0;
      while at >= 0
        invariant n <= |l| && at == Succ(l, n - 1)
        decreases |l| - n
      {
        assert NodeOk(links, l, n);
        at := links.next[at];
        n := n + 1;
      }
    }

    /** get_objects_in_use. */
    method CountInUse() returns (n: int)
      requires Valid()
      ensures n == |Used(View())|
    {
      hide CacheInv, Chain, ChainOk, Used, ListOk;
      var slabsFull := CountSlabs(fullHead, full);
      n := slabsFull * geom.count;
      ObjectsInUseExact(View());
      ListHead(partialHead, links, partial);
      var at := partialHead;
      ghost var i := 0;
      while at >= 0
        invariant 0 <= i <= |partial| && at == Succ(partial, i - 1)
        invariant n + SumInUse(View(), View().partial[i..]) == ObjectsInUse(View())
        decreases |partial| - i
      {
        assert View().partial[i..][1..] == View().partial[i + 1..];
        LinkAt(partialHead, links, partial, i);
        n := n + slabs[at].inuse;
        at := links.next[at];
        i := i + 1;
      }
    }
  }

  ghost predicate Known(known: set<nat>, l: seq<nat>) {
    forall s :: s in l ==> s in known
  }

  lemma LinkAt(head: int, k: Links, l: seq<nat>, i: nat)
    requires ListOk(head, k, l) && i < |l|
    ensures l[i] in k.next && k.next[l[i]] == Succ(l, i)
  {
    assert NodeOk(k, l, i);
  }

  /** A slab with objects in use is on the full or the partial list, as its free chain says. */
  lemma ListedBy(c: Cache, a: nat)
    requires CacheInv(c) && a in c.free
    ensures c.free[a] == [] ==> a in c.full
    ensures c.free[a] != [] && |c.free[a]| < c.geom.count ==> a in c.partial
    ensures |c.free[a]| <= c.geom.count
  {
    assert OnItsList(c, a);
    ChainCount(c.free[a], c.geom.count);
  }

  /** The first empty slab is on no other list. */
  lemma PopListed(c: Cache)
    requires CacheInv(c) && c.empty != []
    ensures c.empty[0] !in c.full && c.empty[0] !in c.partial && c.empty[0] !in c.empty[1..]
  {
    assert OnItsList(c, c.empty[0]);
    NoDupTail(c.empty);
  }
}
