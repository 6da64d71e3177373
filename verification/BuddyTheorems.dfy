/** What every run of the page-block allocator keeps, and what one call undoes. */
module BuddyTheorems {
  import opened Sequences
  import opened Powers
  import opened BuddyModel

  // ------------------------------------------------- tiling, for any base

  /** A live block is owned by a slab on all of its pages or on none, and free pages have no owner. */
  ghost predicate OwnersUniform(live: map<nat, nat>, owner: map<nat, nat>) {
    && (forall p :: p in owner ==> Covered(LiveBlocks(live), p))
    && (forall a, p :: a in live && In(p, Block(a, live[a])) ==> (p in owner <==> a in owner))
  }

  ghost predicate Inv(s: Pool) {
    && Tiled(s.lists, LiveBlocks(s.live), s.n)
    && (forall h :: h in s.live ==> s.live[h] <= MAX_ORDER)
    && OwnersUniform(s.live, s.owner)
  }

  lemma {:induction false} SplitDownTiled(lists: seq<seq<nat>>, others: set<Block>, n: nat, a: nat, k: nat, t: nat)
    requires t <= k <= MAX_ORDER
    requires Block(a, k) !in others && Tiled(lists, others + {Block(a, k)}, n)
    ensures Block(a, t) !in others && Tiled(SplitDown(lists, a, k, t), others + {Block(a, t)}, n)
    decreases k
  {
    if k > t {
      var b := Block(a, k);
      SplitTiled(lists, others, n, b);
      assert others + {Low(b)} + {High(b)} - {High(b)} == others + {Low(b)};
      PushTiled(lists, others + {Low(b)} + {High(b)}, n, High(b));
      SplitDownTiled(Push(lists, k - 1, a + Pow2(k - 1)), others, n, a, k - 1, t);
    }
  }

  /** The order of the free block that buddy_alloc will take, when there is one. */
  function SourceOrder(s: Pool, pages: nat): (k: nat)
    requires |s.lists| == MAX_ORDER + 1 && Alloc(s, pages).1.Some?
    ensures OrderFor(pages) <= k <= MAX_ORDER && s.lists[k] != [] && s.lists[k][0] == Alloc(s, pages).1.value
  {
    FirstFit(s.lists, OrderFor(pages))
  }

  /** The state between taking the source block off its list and splitting it. */
  function Popped(s: Pool, k: nat): Pool
    requires |s.lists| == MAX_ORDER + 1 && k <= MAX_ORDER && s.lists[k] != []
  {
    s.(lists := s.lists[k := s.lists[k][1..]])
  }

  /** The block taken by buddy_alloc is free, holds no owned page, and leaves the rest tiled. */
  lemma AllocatedFrom(s: Pool, pages: nat)
    requires Inv(s) && Alloc(s, pages).1.Some?
    ensures var b := Block(Alloc(s, pages).1.value, SourceOrder(s, pages));
            && b in FreeBlocks(s.lists) && b !in LiveBlocks(s.live)
            && FreeBlocks(Popped(s, b.order).lists) == FreeBlocks(s.lists) - {b}
            && Tiled(Popped(s, b.order).lists, LiveBlocks(s.live) + {b}, s.n)
            && b.start !in s.live && b.start + Pow2(b.order) <= s.n
            && (forall p :: In(p, b) ==> p !in s.owner && p !in s.live)
  {
    hide OrderFor, FirstFit, SplitDown, Pow2;
    var b := Block(Alloc(s, pages).1.value, SourceOrder(s, pages));
    TakeTiled(s.lists, LiveBlocks(s.live), s.n, b);
    assert Without(s.lists[b.order], b.start) == s.lists[b.order][1..];
    FreeBlockUnowned(s, b);
    assert In(b.start, b);
  }

  lemma FreeBlockUnowned(s: Pool, b: Block)
    requires Inv(s) && b in FreeBlocks(s.lists)
    ensures forall p :: In(p, b) ==> p !in s.owner && p !in s.live
    ensures b.start + Pow2(b.order) <= s.n
  {
  }

  lemma AllocKeepsInv(s: Pool, pages: nat)
    requires Inv(s)
    ensures Inv(Alloc(s, pages).0)
    ensures Alloc(s, pages).1.Some? ==>
              var a := Alloc(s, pages).1.value;
              && a !in s.live
              && Alloc(s, pages).0.live == s.live[a := OrderFor(pages)]
              && Alloc(s, pages).0.owner == s.owner
              && (forall p :: In(p, Block(a, OrderFor(pages))) ==> 0 <= p < s.n && !Covered(LiveBlocks(s.live), p))
  {
    hide OrderFor, FirstFit, SplitDown, Pow2, Tiling, OwnersUniform;
    if Alloc(s, pages).1.Some? {
      var t, k, a := OrderFor(pages), SourceOrder(s, pages), Alloc(s, pages).1.value;
      AllocatedFrom(s, pages);
      SplitDownTiled(Popped(s, k).lists, LiveBlocks(s.live), s.n, a, k, t);
      assert LiveBlocks(s.live[a := t]) == LiveBlocks(s.live) + {Block(a, t)};
      AllocKeepsOwners(s, a, t);
    }
  }

  lemma AllocKeepsOwners(s: Pool, a: nat, t: nat)
    requires OwnersUniform(s.live, s.owner) && a !in s.live
    requires Block(a, t) !in LiveBlocks(s.live)
    requires exists lists :: Tiled(lists, LiveBlocks(s.live) + {Block(a, t)}, s.n)
    ensures OwnersUniform(s.live[a := t], s.owner)
    ensures forall p :: In(p, Block(a, t)) ==> 0 <= p < s.n && !Covered(LiveBlocks(s.live), p)
  {
    var live := s.live[a := t];
    assert LiveBlocks(live) == LiveBlocks(s.live) + {Block(a, t)};
    forall p | In(p, Block(a, t))
      ensures 0 <= p < s.n && !Covered(LiveBlocks(s.live), p)
    {
    }
    forall p | p in s.owner
      ensures Covered(LiveBlocks(live), p)
    {
      var b :| b in LiveBlocks(s.live) && In(p, b);
      assert b in LiveBlocks(live);
    }
    assert In(a, Block(a, t));
  }

  lemma {:induction false} MergeTiled(s: Pool, others: set<Block>, a: nat, k: nat)
    requires k <= MAX_ORDER && Block(a, k) !in others
    requires Tiled(s.lists, others + {Block(a, k)}, s.n)
    ensures Tiled(Merge(s, a, k).lists, others, s.n)
    ensures Merge(s, a, k) == s.(lists := Merge(s, a, k).lists)
    decreases MAX_ORDER - k
  {
    if CanMerge(s, a, k) {
      var b := Buddy(s, a, k);
      var bb := Block(b, k);
      assert bb in FreeBlocks(s.lists);
      TakeTiled(s.lists, others + {Block(a, k)}, s.n, bb);
      var lists := s.lists[k := Without(s.lists[k], b)];
      var j := Block(Min(a, b), k + 1);
      assert {Low(j), High(j)} == {Block(a, k), bb};
      assert others + {Block(a, k)} + {bb} == others + {Low(j)} + {High(j)};
      JoinTiled(lists, others, s.n, j);
      MergeTiled(s.(lists := lists), others, Min(a, b), k + 1);
    } else {
      PushTiled(s.lists, others + {Block(a, k)}, s.n, Block(a, k));
      assert others + {Block(a, k)} - {Block(a, k)} == others;
    }
  }

  lemma FreeKeepsInv(s: Pool, a: int)
    requires Inv(s)
    ensures Inv(Free(s, a))
    ensures a >= 0 && a in s.live && a !in s.owner ==> Free(s, a) == s.(lists := Free(s, a).lists, live := s.live - {a})
  {
    if a >= 0 && a in s.live && a !in s.owner {
      var k := s.live[a];
      var live := s.live - {a};
      assert LiveBlocks(s.live) == LiveBlocks(live) + {Block(a, k)};
      MergeTiled(s.(live := live), LiveBlocks(live), a, k);
      forall p | p in s.owner
        ensures Covered(LiveBlocks(live), p)
      {
        var b :| b in LiveBlocks(s.live) && In(p, b);
        assert b != Block(a, k);
        assert b in LiveBlocks(live);
      }
    }
  }
}
