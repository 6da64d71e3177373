/** When freeing a block just allocated restores the allocator: exactly when, for any base. */
module BuddyRoundTrip {
  import opened Sequences
  import opened Powers
  import opened Wrappers
  import opened BuddyModel
  import opened BuddyTheorems
  import opened BuddyCanonical

  /**
   What a caller can check beforehand: the first block on the first list that is long enough has no address bit
   set between the requested order and its own, and has no free buddy.
   */
  ghost predicate Restorable(s: Pool, pages: nat)
    requires |s.lists| == MAX_ORDER + 1
  {
    var o := OrderFor(pages);
    o <= MAX_ORDER && FirstFit(s.lists, o) <= MAX_ORDER &&
    var k := FirstFit(s.lists, o);
    BitsClear(s.base + s.lists[k][0], o, k) && !CanMerge(s, s.lists[k][0], k)
  }

  /** Below the source order the lists were empty, so each order holds one upper half. */
  lemma {:induction false} SplitDownShape(lists: seq<seq<nat>>, a: nat, k: nat, t: nat, j: nat)
    requires |lists| == MAX_ORDER + 1 && t <= j <= k <= MAX_ORDER
    requires forall i :: t <= i < k ==> lists[i] == []
    ensures j < k ==> SplitDown(lists, a, k, j)[j] == [a + Pow2(j)]
    ensures j < k ==> SplitDown(lists, a, k, j + 1) == SplitDown(lists, a, k, j)[j := []]
    ensures forall i :: 0 <= i < j || k <= i <= MAX_ORDER ==> SplitDown(lists, a, k, j)[i] == lists[i]
    decreases k - j
  {
    hide Pow2;
    if j < k {
      SplitDownTail(lists, a, k, j);
      SplitDownShape(lists, a, k, t, j + 1);
    }
  }

  lemma {:induction false} SplitDownTail(lists: seq<seq<nat>>, a: nat, k: nat, j: nat)
    requires |lists| == MAX_ORDER + 1 && j < k <= MAX_ORDER
    ensures SplitDown(lists, a, k, j) == Push(SplitDown(lists, a, k, j + 1), j, a + Pow2(j))
    decreases k
  {
    hide Pow2;
    if j + 1 < k {
      SplitDownTail(Push(lists, k - 1, a + Pow2(k - 1)), a, k - 1, j);
    }
  }

  /** While the bits of the block's address are clear, merging undoes the splitting. */
  lemma {:induction false} MergeUndoesSplit(s: Pool, a: nat, k: nat, t: nat, j: nat)
    requires |s.lists| == MAX_ORDER + 1 && t <= j <= k <= MAX_ORDER
    requires forall i :: t <= i < k ==> s.lists[i] == []
    requires BitsClear(s.base + a, t, j)
    requires a + Pow2(k) <= s.n
    requires forall p :: In(p, Block(a, k)) ==> p !in s.owner && p !in s.live
    ensures Merge(s.(lists := SplitDown(s.lists, a, k, t)), a, t)
         == Merge(s.(lists := SplitDown(s.lists, a, k, j)), a, j)
    decreases j
  {
    hide Bit, SplitDown, Pow2;
    if t < j {
      MergeUndoesSplit(s, a, k, t, j - 1);
      SplitDownShape(s.lists, a, k, t, j - 1);
      Pow2Monotone(j - 1, k);
      var s' := s.(lists := SplitDown(s.lists, a, k, j - 1));
      assert !Bit(s.base + a, j - 1);
      assert Buddy(s', a, j - 1) == a + Pow2(j - 1);
      assert In(a + Pow2(j - 1), Block(a, k));
      assert CanMerge(s', a, j - 1);
      assert Without(s'.lists[j - 1], a + Pow2(j - 1)) == [];
    }
  }

  /** The block that Merge lists holds the freed page, and how far merging went shows in it. */
  lemma {:induction false} MergedBlock(s: Pool, others: set<Block>, a: nat, k: nat) returns (b: Block)
    requires k <= MAX_ORDER && Block(a, k) !in others
    requires Tiled(s.lists, others + {Block(a, k)}, s.n)
    ensures b in FreeBlocks(Merge(s, a, k).lists) && b.order >= k
    ensures b.start <= a && a + Pow2(k) <= b.start + Pow2(b.order)
    ensures if CanMerge(s, a, k) then b.order > k && (Buddy(s, a, k) < a ==> b.start < a)
            else b == Block(a, k)
    decreases MAX_ORDER - k
  {
    if CanMerge(s, a, k) {
      var c := Buddy(s, a, k);
      assert Block(c, k) in FreeBlocks(s.lists);
      TakeTiled(s.lists, others + {Block(a, k)}, s.n, Block(c, k));
      var lists := s.lists[k := Without(s.lists[k], c)];
      var j := Block(Min(a, c), k + 1);
      assert {Low(j), High(j)} == {Block(a, k), Block(c, k)};
      assert others + {Block(a, k)} + {Block(c, k)} == others + {Low(j)} + {High(j)};
      JoinTiled(lists, others, s.n, j);
      b := MergedBlock(s.(lists := lists), others, Min(a, c), k + 1);
    } else {
      b := Block(a, k);
    }
  }

  /**
   buddy_free of the block just returned by buddy_alloc restores the allocator, lists and
   all, if and only if the request was restorable.
   */
  lemma RoundTripIff(s: Pool, pages: nat)
    requires Inv(s) && Alloc(s, pages).1.Some?
    ensures Inv(Alloc(s, pages).0)
    ensures var (t, r) := Alloc(s, pages);
            && (Restorable(s, pages) ==> Free(t, r.value) == s)
            && (FreeBlocks(Free(t, r.value).lists) == FreeBlocks(s.lists) ==> Restorable(s, pages))
  {
    hide Bit, Tiling, OwnersUniform, OrderFor, Free, SplitDown, Merge, CanMerge, BitsClear;
    FreeAfterAlloc(s, pages);
    AllocatedFrom(s, pages);
    var a, o, k := Alloc(s, pages).1.value, OrderFor(pages), SourceOrder(s, pages);
    if Restorable(s, pages) {
      SplitThenMerge(s, a, k, o);
    } else {
      var b := SplitThenMergeElsewhere(s, a, k, o);
      DifferentBlocks(s, Alloc(s, pages).0, a, k, b);
    }
  }

  lemma FreeAfterAlloc(s: Pool, pages: nat)
    requires Inv(s) && Alloc(s, pages).1.Some?
    ensures Inv(Alloc(s, pages).0)
    ensures var (t, r) := Alloc(s, pages);
            var a, o, k := r.value, OrderFor(pages), SourceOrder(s, pages);
            Free(t, a) == Merge(Popped(s, k).(lists := SplitDown(Popped(s, k).lists, a, k, o)), a, o)
  {
    hide Tiling, OwnersUniform, OrderFor, Merge, SplitDown;
    AllocKeepsInv(s, pages);
    AllocatedFrom(s, pages);
    var (t, r) := Alloc(s, pages);
    assert t.live - {r.value} == s.live;
  }

  lemma SplitThenMerge(s: Pool, a: nat, k: nat, o: nat)
    requires |s.lists| == MAX_ORDER + 1 && o <= k <= MAX_ORDER && s.lists[k] != [] && s.lists[k][0] == a
    requires forall i :: o <= i < k ==> s.lists[i] == []
    requires a + Pow2(k) <= s.n && BitsClear(s.base + a, o, k) && !CanMerge(s, a, k)
    requires forall p :: In(p, Block(a, k)) ==> p !in s.owner && p !in s.live
    ensures Merge(Popped(s, k).(lists := SplitDown(Popped(s, k).lists, a, k, o)), a, o) == s
  {
    hide Bit, BitsClear, Pow2, Flip;
    var s0 := Popped(s, k);
    MergeUndoesSplit(s0, a, k, o, k);
    assert SplitDown(s0.lists, a, k, k) == s0.lists;
    assert s0.(lists := s0.lists) == s0;
    assert !CanMerge(s0, a, k);
    assert [a] + s.lists[k][1..] == s.lists[k];
    assert Push(s0.lists, k, a) == s.lists;
  }

  /** Otherwise the freed page ends up in a free block other than the one it came from. */
  lemma SplitThenMergeElsewhere(s: Pool, a: nat, k: nat, o: nat) returns (b: Block)
    requires |s.lists| == MAX_ORDER + 1 && o <= k <= MAX_ORDER && s.lists[k] != [] && s.lists[k][0] == a
    requires forall i :: o <= i < k ==> s.lists[i] == []
    requires Block(a, k) !in LiveBlocks(s.live)
    requires Tiled(Popped(s, k).lists, LiveBlocks(s.live) + {Block(a, k)}, s.n)
    requires a + Pow2(k) <= s.n && !(BitsClear(s.base + a, o, k) && !CanMerge(s, a, k))
    requires forall p :: In(p, Block(a, k)) ==> p !in s.owner && p !in s.live
    ensures b in FreeBlocks(Merge(Popped(s, k).(lists := SplitDown(Popped(s, k).lists, a, k, o)), a, o).lists)
    ensures In(a, b) && b != Block(a, k)
  {
    hide Bit, Tiled, Pow2;
    var s0 := Popped(s, k);
    var j := k;
    if !BitsClear(s.base + a, o, k) {
      j := FirstSetBit(s.base + a, o, k);
    } else {
      FlipMoves(s.base + a, k);
      assert CanMerge(s0, a, k);
    }
    MergeUndoesSplit(s0, a, k, o, j);
    var sj := s0.(lists := SplitDown(s0.lists, a, k, j));
    SplitDownTiled(s0.lists, LiveBlocks(s.live), s.n, a, k, j);
    b := MergedBlock(sj, LiveBlocks(s.live), a, j);
  }

  lemma FlipMoves(x: int, k: nat)
    ensures Flip(x, k) != x
  {
  }

  ghost predicate BitsClear(x: int, t: nat, k: nat) {
    forall j :: t <= j < k ==> !Bit(x, j)
  }

  lemma FirstSetBit(x: int, t: nat, k: nat) returns (j: nat)
    requires !BitsClear(x, t, k)
    ensures t <= j < k && Bit(x, j) && BitsClear(x, t, j)
  {
    hide Bit;
    j := t;
    while !Bit(x, j)
      invariant t <= j <= k && BitsClear(x, t, j)
      decreases k - j
    {
      j := j + 1;
    }
  }

  lemma DifferentBlocks(s: Pool, t: Pool, a: nat, k: nat, b: Block)
    requires Inv(t) && Block(a, k) in FreeBlocks(s.lists)
    requires b in FreeBlocks(Free(t, a).lists) && In(a, b) && b != Block(a, k)
    ensures FreeBlocks(Free(t, a).lists) != FreeBlocks(s.lists)
  {
    FreeKeepsInv(t, a);
    assert In(a, Block(a, k));
  }

  lemma AlignedBitsClear(x: int, t: nat, k: nat)
    requires Aligned(x, k)
    ensures BitsClear(x, t, k)
  {
    hide Aligned, Bit;
    forall j | t <= j < k
      ensures !Bit(x, j)
    {
      AlignedDown(x, j, k);
    }
  }

  /** With an aligned base every request is restorable, so alloc then free is the identity. */
  lemma AllocThenFree(s: Pool, pages: nat)
    requires Inv(s) && Canonical(s) && Aligned(s.base, MAX_ORDER) && Alloc(s, pages).1.Some?
    ensures Inv(Alloc(s, pages).0)
    ensures Free(Alloc(s, pages).0, Alloc(s, pages).1.value) == s
  {
    hide Aligned, Bit, Tiling, NoDup, OwnersUniform, OrderFor, FirstFit, Free, Pow2, SplitDown;
    RoundTripIff(s, pages);
    AllocatedFrom(s, pages);
    var a, k := Alloc(s, pages).1.value, SourceOrder(s, pages);
    assert Block(a, k) in FreeBlocks(s.lists) + LiveBlocks(s.live);
    AlignedBase(s.base, a, k, MAX_ORDER);
    AlignedBitsClear(s.base + a, OrderFor(pages), k);
    if k < MAX_ORDER {
      BuddyAligned(s, a, k);
    }
  }

  /**
   The region handed to the allocator is only page aligned (slab.c lines 238-239), so the
   round trip can fail: with two pages from page 1 on, one page taken and given back
   leaves two single pages where there was one block of two.
   */
  lemma RoundTripCanFail() returns (s: Pool, t: Pool)
    ensures s == Pool(1, 2, EmptyLists()[1 := [0]], map[], map[])
    ensures t == Pool(1, 2, EmptyLists()[0 := [1]], map[0 := 0], map[])
    ensures Init(s.base, s.n) == s && Alloc(s, 1) == (t, Some(0))
    ensures Free(t, 0).lists == EmptyLists()[0 := [0, 1]]
  {
    hide Alloc, Free, InitLists, EmptyLists;
    InitTwoPages(EmptyLists());
    s := Pool(1, 2, EmptyLists()[1 := [0]], map[], map[]);
    t := SinglePage(s, EmptyLists());
  }

  lemma InitTwoPages(e: seq<seq<nat>>)
    requires |e| == MAX_ORDER + 1 && forall k :: 0 <= k < |e| ==> e[k] == []
    ensures InitLists(2, 0, e) == e[1 := [0]]
  {
    assert Pow2(1) == 2 && Pow2(2) == 4 && Aligned(0, 1);
    FitOrderIs(0, 2, MAX_ORDER, 1);
    var one := Push(e, 1, 0);
    assert InitLists(2, 2, one) == one;
    assert [0] + e[1] == [0];
  }

  lemma SinglePage(s: Pool, e: seq<seq<nat>>) returns (t: Pool)
    requires |e| == MAX_ORDER + 1 && forall k :: 0 <= k < |e| ==> e[k] == []
    requires s == Pool(1, 2, e[1 := [0]], map[], map[])
    ensures t == Pool(1, 2, e[0 := [1]], map[0 := 0], map[])
    ensures Alloc(s, 1) == (t, Some(0))
    ensures Free(t, 0).lists == e[0 := [0, 1]]
  {
    assert OrderFor(1) == 0;
    assert FirstFit(s.lists, 0) == 1 by {
      assert FirstFit(s.lists, 1) == 1;
    }
    var lists := s.lists[1 := s.lists[1][1..]];
    assert s.lists[1][1..] == [];
    assert lists == e;
    assert SplitDown(lists, 0, 1, 0) == Push(e, 0, 1) by {
      assert SplitDown(Push(e, 0, 1), 0, 0, 0) == Push(e, 0, 1);
    }
    assert [1] + e[0] == [1];
    assert Push(e, 0, 1) == e[0 := [1]];
    t := Alloc(s, 1).0;
    assert t == Pool(1, 2, e[0 := [1]], map[0 := 0], map[]);
    var u := t.(live := t.live - {0});
    assert Bit(1, 0) && Buddy(u, 0, 0) == -1;
    assert [0] + [1] == [0, 1];
    assert Push(u.lists, 0, 0) == e[0 := [0, 1]];
  }

  lemma {:induction false} FitOrderIs(curr: nat, remaining: nat, k: nat, r: nat)
    requires remaining >= 1 && r <= k && Pow2(r) <= remaining < Pow2(r + 1) && Aligned(curr, r)
    ensures FitOrder(curr, remaining, k) == r
  {
    hide Aligned;
    if k > r {
      Pow2Monotone(r + 1, k);
      FitOrderIs(curr, remaining, k - 1, r);
    }
  }
}
