/**
 With a base aligned to the largest block, the free blocks are always the coarsest
 aligned tiling of the free pages, so the set of free pages determines them.
 */
module BuddyCanonical {
  import opened Sequences
  import opened Powers
  import opened BuddyModel
  import opened BuddyTheorems

  ghost predicate AlignedAll(bs: set<Block>) {
    forall b :: b in bs ==> b.order <= MAX_ORDER && Aligned(b.start, b.order)
  }

  /** No block below the largest order is free together with its upper buddy. */
  ghost predicate NoBuddies(free: set<Block>) {
    forall b :: b in free && b.order < MAX_ORDER && Aligned(b.start, b.order + 1) ==>
      Block(b.start + Pow2(b.order), b.order) !in free
  }

  ghost predicate Disjoint(bs: set<Block>) {
    forall b, c, p :: b in bs && c in bs && In(p, b) && In(p, c) ==> b == c
  }

  ghost predicate Canonical(s: Pool) {
    && AlignedAll(FreeBlocks(s.lists) + LiveBlocks(s.live))
    && NoBuddies(FreeBlocks(s.lists))
  }

  // ------------------------------------------------ the free pages determine the free blocks

  lemma MulOrder(x: int, y: int, d: int)
    requires d > 0 && x * d < (y + 1) * d
    ensures x <= y
  {
  }

  lemma MulMonotone(x: int, y: int, d: int)
    requires d > 0 && x <= y
    ensures x * d <= y * d
  {
  }

  lemma NestedMultiples(q: int, r: int, m: int, d: int, p: int)
    requires d > 0 && m > 0 && q * d <= p < q * d + d && r * d <= p < r * d + m * d
    ensures r * d <= q * d && q * d + d <= r * d + m * d
    ensures m == 1 ==> q == r
  {
    MulDistribute(q, 1, d);
    MulDistribute(r, m, d);
    MulOrder(r, q, d);
    MulOrder(q, r + m - 1, d);
    MulMonotone(r, q, d);
    MulMonotone(q + 1, r + m, d);
  }

  /** Of two aligned blocks that share a page, the smaller lies inside the larger. */
  lemma Nested(c: Block, b: Block, p: int)
    requires c.order <= b.order && Aligned(c.start, c.order) && Aligned(b.start, b.order)
    requires In(p, c) && In(p, b)
    ensures b.start <= c.start && c.start + Pow2(c.order) <= b.start + Pow2(b.order)
    ensures c.order == b.order ==> c == b
  {
    hide Aligned;
    AlignedDown(b.start, c.order, b.order);
    Pow2Add(b.order - c.order, c.order);
    var q := AlignedQuotient(c.start, c.order);
    var r := AlignedQuotient(b.start, c.order);
    NestedMultiples(q, r, Pow2(b.order - c.order), Pow2(c.order), p);
  }

  lemma NotBothHalves(free: set<Block>, run: Block)
    requires NoBuddies(free) && 0 < run.order <= MAX_ORDER && Aligned(run.start, run.order)
    ensures Low(run) !in free || High(run) !in free
  {
    hide Aligned;
  }

  /** A free aligned run of 2^k pages lies inside a single free block. */
  lemma {:induction false} FreeRunInOneBlock(free: set<Block>, a: nat, k: nat) returns (b: Block)
    requires AlignedAll(free) && NoBuddies(free)
    requires k <= MAX_ORDER && Aligned(a, k)
    requires forall p :: In(p, Block(a, k)) ==> Covered(free, p)
    ensures b in free && In(a, b) && b.order >= k
    decreases k
  {
    hide Aligned, Bit, NoBuddies;
    var run := Block(a, k);
    assert In(a, run);
    if k == 0 {
      assert Covered(free, a);
      b :| b in free && In(a, b);
    } else {
      var lo, hi := Low(run), High(run);
      AlignedDown(a, k - 1, k);
      AlignedShift(a, k - 1);
      forall p | In(p, lo) || In(p, hi)
        ensures Covered(free, p)
      {
        Halves(run, p);
      }
      b := FreeRunInOneBlock(free, lo.start, k - 1);
      var c := FreeRunInOneBlock(free, hi.start, k - 1);
      if b.order == k - 1 {
        Nested(lo, b, a);
        if c.order == k - 1 {
          Nested(hi, c, hi.start);
          NotBothHalves(free, run);
        }
        Halves(run, hi.start);
        Nested(run, c, hi.start);
        b := c;
      }
    }
  }

  lemma BlockIsFree(free: set<Block>, gree: set<Block>, b: Block)
    requires AlignedAll(free) && NoBuddies(free) && Disjoint(free)
    requires AlignedAll(gree) && NoBuddies(gree)
    requires forall p :: Covered(free, p) <==> Covered(gree, p)
    requires b in free
    ensures b in gree
  {
    var c := FreeRunInOneBlock(gree, b.start, b.order);
    Nested(b, c, b.start);
    forall p | In(p, c)
      ensures Covered(free, p)
    {
      assert Covered(gree, p);
    }
    var d := FreeRunInOneBlock(free, c.start, c.order);
    Nested(c, d, c.start);
    assert In(b.start, b) && In(b.start, d);
    assert d == b;
  }

  /** Two canonical sets of free blocks over the same free pages are equal. */
  lemma CanonicalUnique(free: set<Block>, gree: set<Block>)
    requires AlignedAll(free) && NoBuddies(free) && Disjoint(free)
    requires AlignedAll(gree) && NoBuddies(gree) && Disjoint(gree)
    requires forall p :: Covered(free, p) <==> Covered(gree, p)
    ensures free == gree
  {
    forall b | b in free
      ensures b in gree
    {
      BlockIsFree(free, gree, b);
    }
    forall b | b in gree
      ensures b in free
    {
      BlockIsFree(gree, free, b);
    }
  }

  // ------------------------------------------------ the operations keep the canonical form

  lemma AddUpperHalf(free: set<Block>, b: Block)
    requires NoBuddies(free) && b.order > 0 && Aligned(b.start, b.order) && Low(b) !in free
    ensures Aligned(b.start, b.order - 1) && Aligned(High(b).start, b.order - 1)
    ensures NoBuddies(free + {High(b)})
  {
    hide Aligned, Bit, Pow2, NoBuddies;
    AlignedDown(b.start, b.order - 1, b.order);
    AlignedShift(b.start, b.order - 1);
    UpperNotAligned(Low(b));
    AddedNoBuddies(free, High(b));
  }

  lemma {:induction false} SplitDownCanonical(lists: seq<seq<nat>>, others: set<Block>, n: nat, a: nat, k: nat, t: nat)
    requires t <= k <= MAX_ORDER
    requires Block(a, k) !in others && Tiled(lists, others + {Block(a, k)}, n)
    requires AlignedAll(FreeBlocks(lists) + others + {Block(a, k)}) && NoBuddies(FreeBlocks(lists))
    ensures AlignedAll(FreeBlocks(SplitDown(lists, a, k, t)) + others + {Block(a, t)})
    ensures NoBuddies(FreeBlocks(SplitDown(lists, a, k, t)))
    decreases k
  {
    hide Aligned, Bit, Tiling, NoBuddies;
    if k > t {
      var b := Block(a, k);
      SplitTiled(lists, others, n, b);
      assert others + {Low(b)} + {High(b)} - {High(b)} == others + {Low(b)};
      PushTiled(lists, others + {Low(b)} + {High(b)}, n, High(b));
      AddUpperHalf(FreeBlocks(lists), b);
      assert b in FreeBlocks(lists) + others + {b};
      assert AlignedAll(FreeBlocks(lists) + {High(b)} + others + {Low(b)});
      SplitDownCanonical(Push(lists, k - 1, a + Pow2(k - 1)), others, n, a, k - 1, t);
    }
  }

  lemma TakenNoBuddies(free: set<Block>, b: Block)
    requires NoBuddies(free)
    ensures NoBuddies(free - {b})
  {
  }

  lemma Regroup(free: set<Block>, live: set<Block>, b: Block)
    requires b in free
    ensures free - {b} + live + {b} == free + live
  {
  }

  lemma LiveMore(live: map<nat, nat>, a: nat, t: nat, free: set<Block>)
    requires a !in live
    ensures free + LiveBlocks(live) + {Block(a, t)} == free + LiveBlocks(live[a := t])
  {
    assert LiveBlocks(live[a := t]) == LiveBlocks(live) + {Block(a, t)};
  }

  lemma AllocKeepsCanonical(s: Pool, pages: nat)
    requires Inv(s) && Canonical(s)
    ensures Canonical(Alloc(s, pages).0)
  {
    hide Aligned, Bit, Tiling, NoBuddies, OwnersUniform, OrderFor, FirstFit, SplitDown, Pow2, FreeBlocks, LiveBlocks;
    if Alloc(s, pages).1.Some? {
      var t, k, a := OrderFor(pages), SourceOrder(s, pages), Alloc(s, pages).1.value;
      var b := Block(a, k);
      AllocatedFrom(s, pages);
      TakenNoBuddies(FreeBlocks(s.lists), b);
      var lists := Popped(s, k).lists;
      Regroup(FreeBlocks(s.lists), LiveBlocks(s.live), b);
      SplitDownCanonical(lists, LiveBlocks(s.live), s.n, a, k, t);
      LiveMore(s.live, a, t, FreeBlocks(SplitDown(lists, a, k, t)));
    }
  }

  /** With an aligned base the buddy joins the block into an aligned block of the next order. */
  lemma BuddyAligned(s: Pool, a: nat, k: nat)
    requires Aligned(s.base, MAX_ORDER) && k < MAX_ORDER && Aligned(a, k)
    ensures Buddy(s, a, k) == (if Aligned(a, k + 1) then a + Pow2(k) else a - Pow2(k))
    ensures !Aligned(a, k + 1) ==> Aligned(a - Pow2(k), k + 1)
  {
    hide Aligned, Bit, Pow2;
    AlignedBase(s.base, a, k, MAX_ORDER);
    AlignedNext(a, k);
    if !Aligned(a, k + 1) {
      AlignedShift(a - Pow2(k), k);
      AlignedNext(a - Pow2(k), k);
    }
  }

  lemma {:induction false} MergeCanonical(s: Pool, others: set<Block>, a: nat, k: nat)
    requires Aligned(s.base, MAX_ORDER)
    requires k <= MAX_ORDER && Block(a, k) !in others
    requires Tiled(s.lists, others + {Block(a, k)}, s.n)
    requires AlignedAll(FreeBlocks(s.lists) + others + {Block(a, k)}) && NoBuddies(FreeBlocks(s.lists))
    requires forall b :: b in FreeBlocks(s.lists) ==> b.start !in s.live && b.start !in s.owner && b.start < s.n
    ensures AlignedAll(FreeBlocks(Merge(s, a, k).lists) + others) && NoBuddies(FreeBlocks(Merge(s, a, k).lists))
    decreases MAX_ORDER - k
  {
    hide Aligned, Bit, Tiling, NoBuddies;
    assert Block(a, k) in FreeBlocks(s.lists) + others + {Block(a, k)};
    if k < MAX_ORDER {
      BuddyAligned(s, a, k);
    }
    if CanMerge(s, a, k) {
      var b := Buddy(s, a, k);
      var bb := Block(b, k);
      TakeTiled(s.lists, others + {Block(a, k)}, s.n, bb);
      var lists := s.lists[k := Without(s.lists[k], b)];
      var j := Block(Min(a, b), k + 1);
      assert {Low(j), High(j)} == {Block(a, k), bb};
      assert others + {Block(a, k)} + {bb} == others + {Low(j)} + {High(j)};
      JoinTiled(lists, others, s.n, j);
      TakenNoBuddies(FreeBlocks(s.lists), bb);
      assert Aligned(j.start, k + 1);
      MergeCanonical(s.(lists := lists), others, Min(a, b), k + 1);
    } else {
      PushTiled(s.lists, others + {Block(a, k)}, s.n, Block(a, k));
      PushedNoBuddies(s, a, k);
    }
  }

  lemma PushedNoBuddies(s: Pool, a: nat, k: nat)
    requires Aligned(s.base, MAX_ORDER)
    requires |s.lists| == MAX_ORDER + 1
    requires k <= MAX_ORDER && Aligned(a, k) && !CanMerge(s, a, k)
    requires NoBuddies(FreeBlocks(s.lists))
    requires forall b :: b in FreeBlocks(s.lists) ==> b.start !in s.live && b.start !in s.owner && b.start < s.n
    ensures NoBuddies(FreeBlocks(s.lists) + {Block(a, k)})
  {
    hide Aligned, Bit;
    if k < MAX_ORDER {
      BuddyAligned(s, a, k);
      AddedNoBuddies(FreeBlocks(s.lists), Block(a, k));
    }
  }

  lemma AddedNoBuddies(free: set<Block>, b: Block)
    requires NoBuddies(free) && Aligned(b.start, b.order)
    requires Aligned(b.start, b.order + 1) ==> Block(b.start + Pow2(b.order), b.order) !in free
    requires !Aligned(b.start, b.order + 1) ==>
      b.start < Pow2(b.order) || Block(b.start - Pow2(b.order), b.order) !in free
    ensures NoBuddies(free + {b})
  {
    hide Aligned, Bit, Pow2;
    forall c | c in free + {b} && c.order < MAX_ORDER && Aligned(c.start, c.order + 1)
      ensures Block(c.start + Pow2(c.order), c.order) !in free + {b}
    {
      UpperNotAligned(c);
      var d := Block(c.start + Pow2(c.order), c.order);
      assert d == b ==> b.start - Pow2(b.order) == c.start;
    }
  }

  lemma UpperNotAligned(c: Block)
    requires Aligned(c.start, c.order + 1)
    ensures !Aligned(c.start + Pow2(c.order), c.order + 1)
  {
    hide Aligned, Bit, Pow2;
    AlignedNext(c.start, c.order);
    AlignedShift(c.start, c.order);
    AlignedNext(c.start + Pow2(c.order), c.order);
  }

  lemma FreeKeepsCanonical(s: Pool, a: int)
    requires Inv(s) && Canonical(s) && Aligned(s.base, MAX_ORDER)
    ensures Canonical(Free(s, a))
  {
    if a >= 0 && a in s.live && a !in s.owner {
      var k := s.live[a];
      var live := s.live - {a};
      assert LiveBlocks(s.live) == LiveBlocks(live) + {Block(a, k)};
      forall b | b in FreeBlocks(s.lists)
        ensures b.start !in s.live && b.start !in s.owner && b.start < s.n
      {
        FreeBlockUnowned(s, b);
        assert In(b.start, b);
      }
      MergeTiled(s.(live := live), LiveBlocks(live), a, k);
      MergeCanonical(s.(live := live), LiveBlocks(live), a, k);
    }
  }
}
