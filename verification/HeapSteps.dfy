/** Giving a block back to the free list, taking one from it, and adding new memory. */
module HeapSteps {
  import opened HeapModel

  datatype Mem = Mem(ptr: map<nat, nat>, size: map<nat, nat>, free: set<nat>, live: set<nat>, arena: set<nat>)

  ghost function FreeBlocks(base: nat, m: Mem): set<nat> {
    m.free - {base}
  }

  ghost function Heads(base: nat, m: Mem): set<nat> {
    FreeBlocks(base, m) + m.live
  }

  /** All but that free blocks do not touch. */
  ghost predicate Loose(base: nat, m: Mem) {
    && Circle(base, m.free, m.ptr) && base in m.size && m.size[base] == 0
    && m.free !! m.live && Memory(base, Heads(base, m), m.size, m.arena)
  }

  ghost predicate HeapInv(base: nat, m: Mem) {
    Loose(base, m) && Gaps(FreeBlocks(base, m), m.size)
  }

  ghost function Insert(m: Mem, t: nat, b: nat): Mem
    requires t in m.ptr
  {
    m.(ptr := m.ptr[b := m.ptr[t]][t := b], free := m.free + {b}, live := m.live - {b})
  }

  ghost function Join(m: Mem, a: nat, b: nat): Mem
    requires b in m.ptr && a in m.size && b in m.size
  {
    m.(ptr := m.ptr[a := m.ptr[b]], size := m.size[a := m.size[a] + m.size[b]], free := m.free - {b})
  }

  lemma InsertKeeps(base: nat, m: Mem, t: nat, b: nat)
    requires Loose(base, m) && t in m.free && t < b && b in m.live && NoneBetween(m.free, t, b)
    ensures t in m.ptr && b in m.size && Loose(base, Insert(m, t, b)) && Heads(base, Insert(m, t, b)) == Heads(base, m)
  {
    hide Circle, NoneBetween, Apart, Covers;
    InsertCircle(base, m.free, m.ptr, t, b);
    assert base < b && b in m.size;
    assert Heads(base, Insert(m, t, b)) == Heads(base, m);
  }

  lemma JoinKeeps(base: nat, m: Mem, a: nat, b: nat)
    requires Loose(base, m) && a in m.free && a in m.ptr && b == m.ptr[a] && b != base && a in m.size &&
      End(m.size, a) == b
    ensures a != base && a < b && b in m.free && b in m.ptr && b in m.size && Loose(base, Join(m, a, b))
  {
    hide Circle, Apart, Covers;
    RemoveCircle(base, m.free, m.ptr, a, b);
    assert a != base;
    MergeBlocks(base, Heads(base, m), m.size, m.arena, a, b);
    assert Heads(base, Join(m, a, b)) == Heads(base, m) - {b};
  }

  /** free's change: the block goes in after t and joins the neighbours it touches. */
  ghost function Given(base: nat, m: Mem, t: nat, b: nat): Mem
    requires Loose(base, m) && t in m.free && t < b && b in m.live && NoneBetween(m.free, t, b)
  {
    InsertKeeps(base, m, t, b);
    var m1 := Insert(m, t, b);
    var m2 := JoinedNext(base, m1, b);
    JoinedPrev(base, m2, t, b)
  }

  ghost function JoinedNext(base: nat, m: Mem, b: nat): (r: Mem)
    requires Loose(base, m) && b in m.free && b != base
    ensures Loose(base, r) && forall c :: c in m.free && c <= b ==> c in r.free
  {
    InSize(base, m, b);
    if End(m.size, b) == m.ptr[b] then (NotBase(base, m, b); JoinKeeps(base, m, b, m.ptr[b]);
      Join(m, b, m.ptr[b])) else m
  }

  ghost function JoinedPrev(base: nat, m: Mem, t: nat, b: nat): (r: Mem)
    requires Loose(base, m) && t in m.free
    ensures Loose(base, r)
  {
    InSize(base, m, t);
    if End(m.size, t) == b && m.ptr[t] == b && b != base then (JoinKeeps(base, m, t, b); Join(m, t, b)) else m
  }

  lemma InSize(base: nat, m: Mem, a: nat)
    requires Loose(base, m) && a in m.free
    ensures a in m.size && a in m.ptr
  {
    hide Apart, Covers;
    assert LinkOk(base, m.free, m.ptr, a);
    assert a == base || a in Heads(base, m);
  }

  lemma NotBase(base: nat, m: Mem, b: nat)
    requires Loose(base, m) && b in m.free && b != base && b in m.size && b in m.ptr && End(m.size, b) == m.ptr[b]
    ensures m.ptr[b] != base
  {
  }

  /** All free blocks but b are apart from each other, and b from those behind it. */
  ghost predicate RightOk(base: nat, m: Mem, b: nat)
    requires Loose(base, m)
  {
    && (forall a, c :: a in FreeBlocks(base, m) && c in FreeBlocks(base, m) && a != b && c != b && a < c ==>
      End(m.size, a) < c)
    && (forall a :: a in FreeBlocks(base, m) && b in m.size && b < a ==> End(m.size, b) < a)
  }

  lemma NextGap(base: nat, m: Mem, b: nat)
    requires Loose(base, m) && b in m.free && b != base
    requires forall a, c :: a in FreeBlocks(base, m) && c in FreeBlocks(base, m) && a != b && c != b && a < c ==>
      End(m.size, a) < c
    ensures RightOk(base, JoinedNext(base, m, b), b)
  {
    hide Covers;
    InSize(base, m, b);
    assert LinkOk(base, m.free, m.ptr, b);
    var n, r := m.ptr[b], JoinedNext(base, m, b);
    assert forall a :: a in FreeBlocks(base, m) ==> a in Heads(base, m);
    if End(m.size, b) == n {
      NotBase(base, m, b);
      assert End(r.size, b) == End(m.size, n);
    }
  }

  lemma PrevGap(base: nat, m: Mem, t: nat, b: nat)
    requires Loose(base, m) && RightOk(base, m, b) && t in m.free && b in m.free && t < b
    requires t in m.ptr && m.ptr[t] == b
    ensures Gaps(FreeBlocks(base, JoinedPrev(base, m, t, b)), JoinedPrev(base, m, t, b).size)
  {
    hide Covers;
    InSize(base, m, t);
    InSize(base, m, b);
    assert LinkOk(base, m.free, m.ptr, t);
    var r := JoinedPrev(base, m, t, b);
    assert forall a :: a in FreeBlocks(base, m) ==> a in Heads(base, m);
    if End(m.size, t) == b {
      assert End(r.size, t) == End(m.size, b);
    }
  }

  /** Giving a live block back keeps everything, and takes exactly that block from the live ones. */
  lemma GivenKeeps(base: nat, m: Mem, t: nat, b: nat)
    requires HeapInv(base, m) && t in m.free && t < b && b in m.live && NoneBetween(m.free, t, b)
    ensures HeapInv(base, Given(base, m, t, b))
    ensures Given(base, m, t, b).live == m.live - {b} && Given(base, m, t, b).arena == m.arena &&
      t in Given(base, m, t, b).free
  {
    hide Circle, Memory, Gaps, NoneBetween, RightOk;
    InsertKeeps(base, m, t, b);
    var m1 := Insert(m, t, b);
    var m2 := JoinedNext(base, m1, b);
    InSize(base, m1, b);
    InSize(base, m1, t);
    LiveAbove(base, m, b);
    OldGaps(base, m, m1, b);
    NextGap(base, m1, b);
    if End(m1.size, b) == m1.ptr[b] {
      NotBase(base, m1, b);
      JoinKeeps(base, m1, b, m1.ptr[b]);
    }
    assert m2.ptr[t] == b;
    PrevGap(base, m2, t, b);
  }

  /** Some free block has at least n units. */
  ghost predicate Room(free: set<nat>, size: map<nat, nat>, n: nat) {
    exists a :: a in free && a in size && size[a] >= n
  }

  /** The list then has a block at least as large, and the live blocks keep their sizes. */
  lemma GivenRoom(base: nat, m: Mem, t: nat, b: nat)
    requires HeapInv(base, m) && t in m.free && t < b && b in m.live && NoneBetween(m.free, t, b)
    ensures b in m.size && Room(Given(base, m, t, b).free, Given(base, m, t, b).size, m.size[b])
    ensures forall a :: a in m.live && a != b ==>
      a in m.size && a in Given(base, m, t, b).size && Given(base, m, t, b).size[a] == m.size[a]
  {
    hide Circle, Memory, Gaps, NoneBetween;
    LiveAbove(base, m, b);
    forall a | a in m.live
      ensures a in m.size
    {
      LiveAbove(base, m, a);
    }
    InsertKeeps(base, m, t, b);
    var m1 := Insert(m, t, b);
    var m2 := JoinedNext(base, m1, b);
    InSize(base, m1, b);
    InSize(base, m1, t);
    if End(m1.size, b) == m1.ptr[b] {
      NotBase(base, m1, b);
      JoinKeeps(base, m1, b, m1.ptr[b]);
    }
    var m3 := Given(base, m, t, b);
    var a := if b in m3.free then b else t;
    assert a in m3.free && a in m3.size && m3.size[a] >= m.size[b];
  }

  lemma LiveAbove(base: nat, m: Mem, b: nat)
    requires Loose(base, m) && b in m.live
    ensures base < b && b in m.size
  {
  }

  lemma OldGaps(base: nat, m: Mem, m1: Mem, b: nat)
    requires HeapInv(base, m) && Loose(base, m1) && m1.size == m.size && m1.free == m.free + {b} && b !in m.free
    ensures forall a, c :: a in FreeBlocks(base, m1) && c in FreeBlocks(base, m1) && a != b && c != b && a < c ==>
      End(m1.size, a) < c
  {
  }

  /** malloc on an exact fit: the block after prev leaves the list. */
  ghost function TakenWhole(m: Mem, prev: nat, p: nat): Mem
    requires p in m.ptr
  {
    m.(ptr := m.ptr[prev := m.ptr[p]], free := m.free - {p}, live := m.live + {p})
  }

  lemma WholeKeeps(base: nat, m: Mem, prev: nat, p: nat)
    requires HeapInv(base, m) && prev in m.free && prev in m.ptr && p == m.ptr[prev] && p != base
    ensures p in m.ptr && p !in m.live && p in m.size && prev != p && HeapInv(base, TakenWhole(m, prev, p))
  {
    hide Circle, Apart, Covers;
    RemoveCircle(base, m.free, m.ptr, prev, p);
    assert Heads(base, TakenWhole(m, prev, p)) == Heads(base, m);
  }

  /** malloc on a larger block: the tail becomes a live block. */
  ghost function TakenTail(m: Mem, p: nat, n: nat): Mem
    requires p in m.size && n < m.size[p]
  {
    var q := p + UNIT * (m.size[p] - n);
    m.(size := m.size[p := m.size[p] - n][q := n], live := m.live + {q})
  }

  lemma TailKeeps(base: nat, m: Mem, p: nat, n: nat)
    requires HeapInv(base, m) && p in m.free && p != base && p in m.size && 0 < n < m.size[p]
    ensures p + UNIT * (m.size[p] - n) !in Heads(base, m) && HeapInv(base, TakenTail(m, p, n))
  {
    hide Circle, Apart, Covers, Sized;
    assert p in Heads(base, m);
    var q := p + UNIT * (m.size[p] - n);
    SplitBlock(base, Heads(base, m), m.size, m.arena, p, n);
    var r := TakenTail(m, p, n);
    AboveBase(base, Heads(base, m), m.size, p);
    assert q != base;
    assert Heads(base, r) == Heads(base, m) + {q};
  }

  lemma AboveBase(base: nat, heads: set<nat>, size: map<nat, nat>, p: nat)
    requires Sized(base, heads, size) && p in heads
    ensures base < p
  {
  }

  /** morecore's new block, before it is given to the free list. */
  ghost function Grown(m: Mem, h: nat, n: nat): Mem {
    m.(size := m.size[h := n], live := m.live + {h}, arena := m.arena + Region(h, n))
  }

  lemma GrownKeeps(base: nat, m: Mem, h: nat, n: nat)
    requires HeapInv(base, m) && base < h && n >= 1 && Region(h, n) !! m.arena
    ensures h !in m.live && h !in m.free && HeapInv(base, Grown(m, h, n))
  {
    hide Circle, Apart, Covers, Region;
    AddBlock(base, Heads(base, m), m.size, m.arena, h, n);
    assert Heads(base, Grown(m, h, n)) == Heads(base, m) + {h};
  }

  /** The empty heap after the first call of malloc. */
  lemma StartKeeps(base: nat)
    ensures HeapInv(base, Mem(map[base := base], map[base := 0], {base}, {}, {}))
  {
  }

  // ----------------------------------------------------------------------- in plain terms

  /** Every byte obtained from sbrk lies in exactly one free or live block. */
  lemma Partition(base: nat, m: Mem, x: nat)
    requires HeapInv(base, m)
    ensures x in m.arena <==> exists a :: Holds(base, m, a, x)
    ensures forall a, b :: Holds(base, m, a, x) && Holds(base, m, b, x) ==> a == b
  {
    hide Circle, Gaps;
    if x in m.arena {
      var a :| a in Heads(base, m) && a in m.size && a <= x < End(m.size, a);
      assert Holds(base, m, a, x);
    }
    if a :| Holds(base, m, a, x) {
      assert Inside(Heads(base, m), m.size, x);
    }
  }

  /** a is a free or a live block that x lies in. */
  ghost predicate Holds(base: nat, m: Mem, a: nat, x: nat) {
    a in Heads(base, m) && a in m.size && a <= x < End(m.size, a)
  }
}
