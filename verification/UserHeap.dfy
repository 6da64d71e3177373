/** malloc, free and morecore of the user library. */
module UserHeap {
  import opened Wrappers
  import opened HeapModel
  import opened HeapSteps

  const MORE: nat := 4096

  /** The units for a request: its bytes rounded up, and one for the header. */
  function Units(nbytes: nat): (n: nat)
    ensures n >= 1 && UNIT * (n - 1) >= nbytes && UNIT * (n - 1) < nbytes + UNIT
  {
    (nbytes + UNIT - 1) / UNIT + 1
  }

  /** What morecore asks sbrk for. */
  function AtLeastMore(nu: nat): (n: nat)
    ensures n >= nu && n >= 4096 && (n == nu || n == 4096)
  {
    if nu < MORE then MORE else nu
  }

  class Heap {
    const base: nat
    var freep: nat
    var ptr: map<nat, nat>
    var size: map<nat, nat>
    ghost var free: set<nat>
    ghost var live: set<nat>
    ghost var arena: set<nat>

    ghost function Blocks(): Mem
      reads this
    {
      Mem(ptr, size, free, live, arena)
    }

    ghost predicate Started()
      reads this
    {
      freep != 0 && freep in free && HeapInv(base, Blocks())
    }

    ghost predicate Valid()
      reads this
    {
      base > 0 && if freep == 0 then live == {} && arena == {} else Started()
    }

    /** sbrk fails, or its memory is new and lies above the static data. */
    ghost predicate Fresh(grant: Option<nat>, nu: nat)
      reads this
    {
      grant.Some? ==> base < grant.value && Region(grant.value, nu) !! arena
    }

    ghost predicate HasRoom(n: nat)
      reads this
    {
      freep != 0 && Room(free, size, n)
    }

    constructor (base: nat)
      requires base > 0
      ensures Valid() && live == {} && arena == {} && freep == 0
    {
      this.base, freep, ptr, size := base, 0, map[], map[];
      free, live, arena := {}, {}, {};
    }

    /** free's search for the header after which the block belongs. */
    method Place(bp: nat) returns (p: nat)
      requires Started() && base < bp && bp !in free
      ensures base <= p && p in free && p < bp && NoneBetween(free, p, bp)
    {
      hide Gaps, Memory;
      ghost var t := PlaceExists(free, base, bp);
      p := freep;
      assert LinkOk(base, free, ptr, p);
      while !(bp > p && bp < ptr[p])
        invariant p in free && p in ptr && IsNext(base, free, p, ptr[p])
        decreases if p == t then {} else Ahead(free, p, t)
      {
        if p >= ptr[p] && (bp > p || bp < ptr[p]) {
          return;
        }
        assert p != t;
        StepAhead(base, free, ptr, p, t);
        assert t in Ahead(free, p, t);
        p := ptr[p];
        assert LinkOk(base, free, ptr, p);
      }
    }

    /** Puts a live block back on the list, joined with the free blocks it touches. */
    method Free(ap: nat)
      requires Valid() && ap >= UNIT && ap - UNIT in live
      modifies this
      ensures Valid() && freep != 0 && live == old(live) - {ap - UNIT} && arena == old(arena)
      ensures ap - UNIT in old(size) && HasRoom(old(size[ap - UNIT]))
      ensures forall a :: a in live ==> a in old(size) && a in size && size[a] == old(size[a])
    {
      hide Circle, Gaps, Memory, NoneBetween, Room, Loose, Given;
      var bp: nat := ap - UNIT;
      ghost var m := Blocks();
      LiveBlock(base, m, bp);
      var p: nat := Place(bp);
      GivenKeeps(base, m, p, bp);
      GivenRoom(base, m, p, bp);
      GivenIs(base, m, p, bp);
      if bp + UNIT * size[bp] == ptr[p] {
        size := size[bp := size[bp] + size[ptr[p]]];
        ptr := ptr[bp := ptr[ptr[p]]];
      } else {
        ptr := ptr[bp := ptr[p]];
      }
      if p + UNIT * size[p] == bp {
        size := size[p := size[p] + size[bp]];
        ptr := ptr[p := ptr[bp]];
      } else {
        ptr := ptr[p := bp];
      }
      freep := p;
      ghost var m' := Given(base, m, p, bp);
      free, live, arena := m'.free, m'.live, m'.arena;
      assert ptr == m'.ptr && size == m'.size;
    }

    /** Asks sbrk for at least 4096 units and gives them to the free list. */
    method Morecore(nu: nat, grant: Option<nat>) returns (r: nat)
      requires base > 0 && Started() && nu >= 1 && Fresh(grant, AtLeastMore(nu))
      modifies this
      ensures grant.None? ==> r == 0 && freep == old(freep) && Blocks() == old(Blocks())
      ensures grant.Some? ==> r == freep && Started() && live == old(live) && HasRoom(nu)
      ensures grant.Some? ==> arena == old(arena) + Region(grant.value, AtLeastMore(nu))
      ensures forall a :: a in live ==> a in old(size) && a in size && size[a] == old(size[a])
    {
      hide Circle, Gaps, Memory, Loose, Room, Region;
      LiveSizes(base, Blocks());
      var n := AtLeastMore(nu);
      if grant.None? {
        return 0;
      }
      var hp := grant.value;
      ghost var m := Blocks();
      GrownKeeps(base, m, hp, n);
      size := size[hp := n];
      live, arena := live + {hp}, arena + Region(hp, n);
      assert Blocks() == Grown(m, hp, n);
      Free(hp + UNIT);
      assert live == m.live;
      RoomLess(free, size, n, nu);
      return freep;
    }

    /** malloc's way out: all of a block that fits exactly, or the tail of a larger one. */
    method Take(prevp: nat, p: nat, nunits: nat) returns (r: nat)
      requires base > 0 && Started() && prevp in free && prevp in ptr && p == ptr[prevp] && p in size &&
        size[p] >= nunits >= 1
      modifies this
      ensures Started() && arena == old(arena)
      ensures r >= UNIT && r - UNIT !in old(live) && live == old(live) + {r - UNIT}
      ensures r - UNIT in size && size[r - UNIT] == nunits
      ensures forall a :: a in old(live) ==> a in old(size) && a in size && size[a] == old(size[a])
    {
      hide Circle, Gaps, Memory, Loose;
      ghost var m := Blocks();
      LiveSizes(base, m);
      NonBase(base, m, prevp, p);
      var q: nat := p;
      if size[p] == nunits {
        WholeKeeps(base, m, prevp, p);
        ptr := ptr[prevp := ptr[p]];
        free, live := free - {p}, live + {p};
        assert Blocks() == TakenWhole(m, prevp, p);
      } else {
        TailKeeps(base, m, p, nunits);
        size := size[p := size[p] - nunits];
        q := p + UNIT * size[p];
        size := size[q := nunits];
        live := live + {q};
        assert Blocks() == TakenTail(m, p, nunits);
      }
      freep := prevp;
      return q + UNIT;
    }

    /** A block of the units for nbytes, from the free list or, once, from new memory; 0 if neither has it. */
    method Malloc(nbytes: nat, grant: Option<nat>) returns (r: nat, calls: nat)
      requires Valid() && UNIT * AtLeastMore(Units(nbytes)) < 0x8000_0000 && Fresh(grant, AtLeastMore(Units(nbytes)))
      modifies this
      ensures Valid()
      ensures calls == (if old(HasRoom(Units(nbytes))) then 0 else 1)
      ensures r == 0 <==> !old(HasRoom(Units(nbytes))) && grant.None?
      ensures arena == old(arena) + (if calls == 1 && grant.Some? then Region(grant.value, AtLeastMore(Units(nbytes)))
        else {})
      ensures r == 0 ==> live == old(live)
      ensures r != 0 ==> r >= UNIT && r - UNIT !in old(live) && live == old(live) + {r - UNIT}
      ensures r != 0 ==> r - UNIT in size && size[r - UNIT] == Units(nbytes)
      ensures forall a :: a in old(live) ==> a in old(size) && a in size && size[a] == old(size[a])
    {
      hide Circle, Gaps, Memory, Loose, Room, Region, Units, AtLeastMore;
      var nunits := Units(nbytes);
      calls := 0;
      if freep == 0 {
        StartKeeps(base);
        ptr, size, freep := map[base := base], map[base := 0], base;
        free := {base};
        NoRoomAtStart(base, nunits);
      } else {
        LiveSizes(base, Blocks());
      }
      var prevp := freep;
      while true
        invariant base > 0 && Started() && prevp in free && calls <= 1 && live == old(live)
        invariant calls == 0 ==> arena == old(arena) && (HasRoom(nunits) <==> old(HasRoom(nunits)))
        invariant calls == 1 ==>
          HasRoom(nunits) && !old(HasRoom(nunits)) && grant.Some? &&
          arena == old(arena) + Region(grant.value, AtLeastMore(nunits))
        invariant forall c :: c in free && c !in Unseen(free, freep, prevp) ==> c in size && size[c] < nunits
        invariant forall a :: a in old(live) ==> a in old(size) && a in size && size[a] == old(size[a])
        decreases 1 - calls, Unseen(free, freep, prevp)
      {
        SearchStep(base, Blocks(), freep, prevp);
        var p: nat := ptr[prevp];
        if size[p] >= nunits {
          RoomAt(free, size, p, nunits);
          r := Take(prevp, p, nunits);
          return;
        }
        if p == freep {
          SeenAll(base, Blocks(), freep, prevp, nunits);
          p := Morecore(nunits, grant);
          calls := calls + 1;
          if p == 0 {
            return 0, 1;
          }
        }
        prevp := p;
      }
    }
  }

  lemma LiveBlock(base: nat, m: Mem, b: nat)
    requires HeapInv(base, m) && b in m.live
    ensures base < b && b !in m.free && b in m.size && base in m.free
  {
  }

  /** The links and sizes after free, as free assigns them. */
  lemma GivenIs(base: nat, m: Mem, t: nat, b: nat)
    requires HeapInv(base, m) && t in m.free && t < b && b in m.live && NoneBetween(m.free, t, b)
    ensures t in m.ptr && t in m.size && b in m.size
    ensures var n := m.ptr[t];
            && (b + UNIT * m.size[b] == n ==> n in m.ptr && n in m.size)
            && var size1 := if b + UNIT * m.size[b] == n then m.size[b := m.size[b] + m.size[n]] else m.size;
               var ptr1 := if b + UNIT * m.size[b] == n then m.ptr[b := m.ptr[n]] else m.ptr[b := n];
               var joins := t + UNIT * m.size[t] == b;
            && Given(base, m, t, b).size == (if joins then size1[t := size1[t] + size1[b]] else size1)
            && Given(base, m, t, b).ptr == (if joins then ptr1[t := ptr1[b]] else ptr1[t := b])
  {
    hide Circle, Gaps, Memory, NoneBetween;
    LiveAbove(base, m, b);
    InsertKeeps(base, m, t, b);
    var m1 := Insert(m, t, b);
    InSize(base, m, t);
    InSize(base, m1, b);
    InSize(base, m1, t);
    if End(m1.size, b) == m1.ptr[b] {
      NotBase(base, m1, b);
      JoinKeeps(base, m1, b, m1.ptr[b]);
      assert m1.ptr[b] == m.ptr[t] && m.ptr[t] != t && m.ptr[t] in m.ptr;
    }
  }

  lemma LiveSizes(base: nat, m: Mem)
    requires HeapInv(base, m)
    ensures forall a :: a in m.live ==> a in m.size && a !in m.free
  {
  }

  lemma RoomAt(free: set<nat>, size: map<nat, nat>, a: nat, n: nat)
    requires a in free && a in size && size[a] >= n
    ensures Room(free, size, n)
  {
  }

  lemma RoomLess(free: set<nat>, size: map<nat, nat>, n: nat, k: nat)
    requires Room(free, size, n) && k <= n
    ensures Room(free, size, k)
  {
  }

  lemma NoRoomAtStart(base: nat, n: nat)
    requires n >= 1
    ensures !Room({base}, map[base := 0], n)
  {
  }

  /** A block with units is not the base header. */
  lemma NonBase(base: nat, m: Mem, prevp: nat, p: nat)
    requires base > 0 && HeapInv(base, m) && prevp in m.free && prevp in m.ptr && p == m.ptr[prevp] && p in m.size &&
      m.size[p] >= 1
    ensures p != base && p in m.free && p !in m.live && base <= prevp
    ensures prevp != p && forall a :: a in m.live ==> a in Heads(base, m)
  {
    hide Gaps, Apart, Covers;
    assert LinkOk(base, m.free, m.ptr, prevp);
  }

  lemma SearchStep(base: nat, m: Mem, s: nat, prevp: nat)
    requires base > 0 && HeapInv(base, m) && s in m.free && prevp in m.free
    ensures prevp in m.ptr && m.ptr[prevp] in m.free && m.ptr[prevp] in m.size && m.ptr[prevp] != 0
    ensures forall c :: c in m.free && c !in Unseen(m.free, s, m.ptr[prevp]) ==>
      c == m.ptr[prevp] || c !in Unseen(m.free, s, prevp)
    ensures m.ptr[prevp] != s ==> Unseen(m.free, s, m.ptr[prevp]) < Unseen(m.free, s, prevp)
    ensures Unseen(m.free, m.ptr[prevp], m.ptr[prevp]) == m.free
  {
    hide Circle, Memory, Gaps;
    StepSees(base, m.free, m.ptr, s, prevp);
    InSize(base, m, m.ptr[prevp]);
    BaseLowest(base, m, m.ptr[prevp]);
  }

  lemma BaseLowest(base: nat, m: Mem, a: nat)
    requires HeapInv(base, m) && a in m.free
    ensures base <= a
  {
  }

  /** Back where it started, the search has seen every header. */
  lemma SeenAll(base: nat, m: Mem, s: nat, prevp: nat, n: nat)
    requires HeapInv(base, m) && s in m.free && prevp in m.free && prevp in m.ptr && m.ptr[prevp] == s && s in m.size &&
      m.size[s] < n
    requires forall c :: c in m.free && c !in Unseen(m.free, s, prevp) ==> c in m.size && m.size[c] < n
    ensures !Room(m.free, m.size, n)
  {
    hide Circle, Memory, Gaps;
    StepSees(base, m.free, m.ptr, s, prevp);
    assert forall c :: c in m.free ==> Between(s, s, c);
  }
}
