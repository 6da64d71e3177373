/** Whole runs of the page-block allocator from its initial state. */
module BuddyRuns {
  import opened Sequences
  import opened Powers
  import opened BuddyModel
  import opened BuddyTheorems
  import opened BuddyCanonical

  // ------------------------------------------------------------- initial state

  lemma PushExtends(lists: seq<seq<nat>>, curr: nat, k: nat)
    requires Listed(lists) && k <= MAX_ORDER && Tiling(FreeBlocks(lists), curr)
    ensures FreeBlocks(Push(lists, k, curr)) == FreeBlocks(lists) + {Block(curr, k)}
    ensures Listed(Push(lists, k, curr)) && Tiling(FreeBlocks(Push(lists, k, curr)), curr + Pow2(k))
  {
    hide Pow2;
    var free, b := FreeBlocks(lists), Block(curr, k);
    assert In(curr, b);
    assert b !in free;
    assert FreeBlocks(Push(lists, k, curr)) == free + {b};
    forall p | 0 <= p < curr + Pow2(k)
      ensures Covered(free + {b}, p)
    {
      if p < curr {
        assert Covered(free, p);
        var c :| c in free && In(p, c);
        assert c in free + {b};
      } else {
        assert In(p, b);
      }
    }
  }

  lemma {:induction false} InitListsTile(n: nat, curr: nat, lists: seq<seq<nat>>)
    requires curr <= n && Listed(lists) && Tiling(FreeBlocks(lists), curr)
    ensures Listed(InitLists(n, curr, lists)) && Tiling(FreeBlocks(InitLists(n, curr, lists)), n)
    decreases n - curr
  {
    hide Aligned, Tiling, FitOrder, Pow2, FreeBlocks, NoDup;
    if curr < n {
      var k := FitOrder(curr, n - curr, MAX_ORDER);
      PushExtends(lists, curr, k);
      InitListsTile(n, curr + Pow2(k), Push(lists, k, curr));
    }
  }

  lemma InitInv(base: nat, n: nat)
    ensures Inv(Init(base, n))
  {
    var lists := EmptyLists();
    assert FreeBlocks(lists) == {};
    InitListsTile(n, 0, lists);
    assert FreeBlocks(Init(base, n).lists) + LiveBlocks(map[]) == FreeBlocks(Init(base, n).lists);
  }

  /** After a block of order o < MAX_ORDER, the next order is strictly smaller. */
  lemma NextOrder(n: nat, curr: nat, o: nat)
    requires curr < n && o <= MAX_ORDER && Aligned(curr, o) && (o < MAX_ORDER ==> n - curr < Pow2(o))
    ensures var k := FitOrder(curr, n - curr, MAX_ORDER);
            && k <= o && (k < MAX_ORDER ==> k < o)
            && Aligned(curr + Pow2(k), k)
            && (k < MAX_ORDER ==> n - (curr + Pow2(k)) < Pow2(k))
  {
    hide Aligned, FitOrder, Bit, Pow2;
    var k := FitOrder(curr, n - curr, MAX_ORDER);
    Pow2Double(k);
    if k >= o && o < MAX_ORDER {
      Pow2Monotone(o, k);
      assert false;
    }
    AlignedShift(curr, k);
    if k < MAX_ORDER {
      AlignedDown(curr, k + 1, o);
      assert Pow2(k + 1) > n - curr;
    }
  }

  /** Every block placed so far has order at least o, so the next one has an order of its own. */
  lemma {:induction false} InitListsCanonical(n: nat, curr: nat, lists: seq<seq<nat>>, o: nat)
    requires curr <= n && Listed(lists) && Tiling(FreeBlocks(lists), curr)
    requires AlignedAll(FreeBlocks(lists)) && NoBuddies(FreeBlocks(lists))
    requires o <= MAX_ORDER && Aligned(curr, o) && (o < MAX_ORDER ==> n - curr < Pow2(o))
    requires forall b :: b in FreeBlocks(lists) ==> b.order >= o
    ensures AlignedAll(FreeBlocks(InitLists(n, curr, lists))) && NoBuddies(FreeBlocks(InitLists(n, curr, lists)))
    decreases n - curr
  {
    hide Aligned, Tiling, FitOrder, Pow2, FreeBlocks, NoDup;
    if curr < n {
      var k := FitOrder(curr, n - curr, MAX_ORDER);
      PushExtends(lists, curr, k);
      NextOrder(n, curr, o);
      InitListsCanonical(n, curr + Pow2(k), Push(lists, k, curr), k);
    }
  }

  lemma InitCanonical(base: nat, n: nat)
    ensures Canonical(Init(base, n))
  {
    var lists := EmptyLists();
    assert FreeBlocks(lists) == {};
    assert Aligned(0, MAX_ORDER) by {
      DivModUnique(0, Pow2(MAX_ORDER), 0, 0);
    }
    InitListsCanonical(n, 0, lists, MAX_ORDER);
    assert FreeBlocks(Init(base, n).lists) + LiveBlocks(map[]) == FreeBlocks(Init(base, n).lists);
  }

  // ---------------------------------------------------------------------- runs

  datatype Op = AllocPages(pages: nat) | FreePage(page: int) | Own(head: nat) | Disown(head: nat)

  function Step(s: Pool, op: Op): (r: Pool)
    requires |s.lists| == MAX_ORDER + 1
    requires forall h :: h in s.live ==> s.live[h] <= MAX_ORDER
  {
    match op
    case AllocPages(pages) => Alloc(s, pages).0
    case FreePage(page) => Free(s, page)
    case Own(head) => if head in s.live then Publish(s, head) else s
    case Disown(head) => if head in s.live then Unpublish(s, head) else s
  }

  lemma OwnersKeepInv(s: Pool, a: nat)
    requires Inv(s) && a in s.live
    ensures Inv(Publish(s, a)) && Inv(Unpublish(s, a))
  {
    var b := Block(a, s.live[a]);
    assert b in LiveBlocks(s.live);
    forall h, p | h in s.live && In(p, Block(h, s.live[h]))
      ensures In(p, b) <==> h == a
      ensures In(h, b) <==> h == a
    {
      assert Block(h, s.live[h]) in LiveBlocks(s.live);
      assert In(h, Block(h, s.live[h]));
    }
  }

  lemma StepKeepsInv(s: Pool, op: Op)
    requires Inv(s)
    ensures Inv(Step(s, op)) && Step(s, op).n == s.n && Step(s, op).base == s.base
    ensures Aligned(s.base, MAX_ORDER) && Canonical(s) ==> Canonical(Step(s, op))
  {
    hide Aligned, Tiling, OwnersUniform;
    match op
    case AllocPages(pages) =>
      AllocKeepsInv(s, pages);
      if Canonical(s) {
        AllocKeepsCanonical(s, pages);
      }
    case FreePage(page) =>
      FreeKeepsInv(s, page);
      if Aligned(s.base, MAX_ORDER) && Canonical(s) {
        FreeKeepsCanonical(s, page);
      }
    case Own(head) =>
      if head in s.live {
        OwnersKeepInv(s, head);
      }
    case Disown(head) =>
      if head in s.live {
        OwnersKeepInv(s, head);
      }
  }

  ghost function Run(s: Pool, ops: seq<Op>): (r: Pool)
    requires Inv(s)
    ensures Inv(r) && r.n == s.n && r.base == s.base
    ensures Aligned(s.base, MAX_ORDER) && Canonical(s) ==> Canonical(r)
    decreases |ops|
  {
    if ops == [] then s
    else
      StepKeepsInv(s, ops[0]);
      Run(Step(s, ops[0]), ops[1..])
  }

  ghost predicate Exactly1(bs: set<Block>, p: int) {
    exists b :: b in bs && In(p, b) && forall c :: c in bs && In(p, c) ==> c == b
  }

  /** In every reachable state each managed page lies in exactly one block, and that block is free or live, not both. */
  lemma TilingInEveryRun(base: nat, n: nat, ops: seq<Op>, p: int)
    requires 0 <= p < n
    ensures Inv(Init(base, n))
    ensures var s := Run(Init(base, n), ops);
            && FreeBlocks(s.lists) !! LiveBlocks(s.live)
            && Exactly1(FreeBlocks(s.lists) + LiveBlocks(s.live), p)
  {
    InitInv(base, n);
    var s := Run(Init(base, n), ops);
    assert Covered(FreeBlocks(s.lists) + LiveBlocks(s.live), p);
  }

  lemma CoveredIsNotLive(s: Pool, p: int)
    requires Inv(s)
    ensures Covered(FreeBlocks(s.lists), p) <==> 0 <= p < s.n && !Covered(LiveBlocks(s.live), p)
  {
    var all := FreeBlocks(s.lists) + LiveBlocks(s.live);
    if Covered(FreeBlocks(s.lists), p) {
      var b :| b in FreeBlocks(s.lists) && In(p, b);
      assert b in all;
    }
    if 0 <= p < s.n {
      assert Covered(all, p);
    }
  }

  /** The free blocks depend only on which pages are live. */
  lemma SameLivePagesSameFreeBlocks(s: Pool, t: Pool)
    requires Inv(s) && Canonical(s) && Inv(t) && Canonical(t) && s.n == t.n
    requires forall p :: Covered(LiveBlocks(s.live), p) <==> Covered(LiveBlocks(t.live), p)
    ensures FreeBlocks(s.lists) == FreeBlocks(t.lists)
  {
    var f, g := FreeBlocks(s.lists), FreeBlocks(t.lists);
    forall p
      ensures Covered(f, p) <==> Covered(g, p)
    {
      CoveredIsNotLive(s, p);
      CoveredIsNotLive(t, p);
    }
    assert AlignedAll(f) && AlignedAll(g);
    assert Disjoint(f) by { assert forall b :: b in f ==> b in f + LiveBlocks(s.live); }
    assert Disjoint(g) by { assert forall b :: b in g ==> b in g + LiveBlocks(t.live); }
    CanonicalUnique(f, g);
  }

  /** With an aligned base, once everything has been freed, in any order, the free blocks are those of buddy_init. */
  lemma AllFreedIsInit(base: nat, n: nat, ops: seq<Op>)
    requires Aligned(base, MAX_ORDER)
    ensures Inv(Init(base, n))
    ensures Run(Init(base, n), ops).live == map[] ==>
              FreeBlocks(Run(Init(base, n), ops).lists) == FreeBlocks(Init(base, n).lists)
  {
    InitInv(base, n);
    InitCanonical(base, n);
    var s := Run(Init(base, n), ops);
    if s.live == map[] {
      SameLivePagesSameFreeBlocks(s, Init(base, n));
    }
  }

  /** buddy_alloc fails exactly when no free block is large enough. */
  lemma AllocFailsIff(s: Pool, pages: nat)
    requires Inv(s) && pages > 0
    ensures Alloc(s, pages).1.None? <==> !exists b :: b in FreeBlocks(s.lists) && b.order >= OrderFor(pages)
  {
    var t := OrderFor(pages);
    if t <= MAX_ORDER {
      var k := FirstFit(s.lists, t);
      if k <= MAX_ORDER {
        assert Block(s.lists[k][0], k) in FreeBlocks(s.lists);
      }
    }
  }

  /** With an aligned base that means: exactly when no aligned run of that size is free. */
  lemma AllocFailsIffNoAlignedRun(s: Pool, pages: nat)
    requires Inv(s) && Canonical(s) && pages > 0 && OrderFor(pages) <= MAX_ORDER
    ensures Alloc(s, pages).1.None? <==>
              !exists a: nat :: Aligned(a, OrderFor(pages)) && FreeRun(s, a, OrderFor(pages))
  {
    hide Aligned, Tiling;
    var t := OrderFor(pages);
    AllocFailsIff(s, pages);
    if a: nat :| Aligned(a, t) && FreeRun(s, a, t) {
      var b := FreeRunInOneBlock(FreeBlocks(s.lists), a, t);
    }
    if b :| b in FreeBlocks(s.lists) && b.order >= t {
      Pow2Monotone(t, b.order);
      assert b in FreeBlocks(s.lists) + LiveBlocks(s.live);
      AlignedDown(b.start, t, b.order);
      assert FreeRun(s, b.start, t);
    }
  }

  ghost predicate FreeRun(s: Pool, a: nat, k: nat) {
    forall p :: In(p, Block(a, k)) ==> Covered(FreeBlocks(s.lists), p)
  }
}
