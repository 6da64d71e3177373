/**
 The page-block allocator as a function from state to state: free lists by order,
 the live blocks, and the slab that owns each page.  Pages are numbered from the
 start of the managed region; `base` is the page number of that start.
 */
module BuddyModel {
  import opened Powers
  import opened Sequences
  import opened Wrappers

  const MAX_ORDER: nat := 15

  datatype Block = Block(start: nat, order: nat)

  datatype Pool = Pool(
    base: nat,
    n: nat,
    lists: seq<seq<nat>>,
    live: map<nat, nat>,
    owner: map<nat, nat>)

  // ---------------------------------------------------------------- tilings

  predicate In(p: int, b: Block) {
    b.start <= p < b.start + Pow2(b.order)
  }

  ghost predicate Covered(bs: set<Block>, p: int) {
    exists b :: b in bs && In(p, b)
  }

  /** The blocks partition the pages 0..n: no overlap, no page lost. */
  ghost predicate Tiling(bs: set<Block>, n: nat) {
    && (forall b :: b in bs ==> b.start + Pow2(b.order) <= n)
    && (forall b, c, p :: b in bs && c in bs && In(p, b) && In(p, c) ==> b == c)
    && (forall p :: 0 <= p < n ==> Covered(bs, p))
  }

  function Low(b: Block): Block
    requires b.order > 0
  {
    Block(b.start, b.order - 1)
  }

  function High(b: Block): Block
    requires b.order > 0
  {
    Block(b.start + Pow2(b.order - 1), b.order - 1)
  }

  lemma Halves(b: Block, p: int)
    requires b.order > 0
    ensures In(p, b) <==> In(p, Low(b)) || In(p, High(b))
    ensures !(In(p, Low(b)) && In(p, High(b)))
  {
  }

  lemma TilingSplit(bs: set<Block>, n: nat, b: Block)
    requires Tiling(bs, n) && b in bs && b.order > 0
    ensures Tiling(bs - {b} + {Low(b), High(b)}, n)
  {
    var cs := bs - {b} + {Low(b), High(b)};
    forall c, d, p | c in cs && d in cs && In(p, c) && In(p, d)
      ensures c == d
    {
      Halves(b, p);
    }
    forall p | 0 <= p < n
      ensures Covered(cs, p)
    {
      assert Covered(bs, p);
      var c :| c in bs && In(p, c);
      Halves(b, p);
      if c == b {
        assert Low(b) in cs && High(b) in cs;
      } else {
        assert c in cs;
      }
    }
  }

  lemma TilingJoin(bs: set<Block>, n: nat, b: Block)
    requires b.order > 0 && Low(b) in bs && High(b) in bs
    requires Tiling(bs, n)
    ensures Tiling(bs - {Low(b), High(b)} + {b}, n)
  {
    var cs := bs - {Low(b), High(b)} + {b};
    forall c, d, p | c in cs && d in cs && In(p, c) && In(p, d)
      ensures c == d
    {
      Halves(b, p);
    }
    forall p | 0 <= p < n
      ensures Covered(cs, p)
    {
      assert Covered(bs, p);
      var c :| c in bs && In(p, c);
      Halves(b, p);
      assert (if c == Low(b) || c == High(b) then b else c) in cs;
    }
  }

  // ------------------------------------------------------------- free lists

  ghost predicate Listed(lists: seq<seq<nat>>) {
    |lists| == MAX_ORDER + 1 && forall k :: 0 <= k < |lists| ==> NoDup(lists[k])
  }

  ghost function FreeBlocks(lists: seq<seq<nat>>): (bs: set<Block>)
    ensures forall b :: b in bs <==> b.order < |lists| && b.start in lists[b.order]
  {
    set k: nat, a | k < |lists| && a in lists[k] :: Block(a, k)
  }

  ghost function LiveBlocks(live: map<nat, nat>): (bs: set<Block>)
    ensures forall b :: b in bs <==> b.start in live && b.order == live[b.start]
  {
    set a | a in live :: Block(a, live[a])
  }

  function Push(lists: seq<seq<nat>>, k: nat, a: nat): seq<seq<nat>>
    requires k < |lists|
  {
    lists[k := [a] + lists[k]]
  }

  /** The free blocks together with `others` partition the region. */
  ghost predicate Tiled(lists: seq<seq<nat>>, others: set<Block>, n: nat) {
    && Listed(lists)
    && FreeBlocks(lists) !! others
    && Tiling(FreeBlocks(lists) + others, n)
  }

  lemma PushTiled(lists: seq<seq<nat>>, others: set<Block>, n: nat, b: Block)
    requires Tiled(lists, others, n) && b in others && b.order <= MAX_ORDER
    ensures FreeBlocks(Push(lists, b.order, b.start)) == FreeBlocks(lists) + {b}
    ensures Tiled(Push(lists, b.order, b.start), others - {b}, n)
  {
    var lists' := Push(lists, b.order, b.start);
    assert b.start !in lists[b.order] by {
      assert b !in FreeBlocks(lists);
    }
    forall x
      ensures x in FreeBlocks(lists') <==> x in FreeBlocks(lists) + {b}
    {
    }
    assert FreeBlocks(lists') + (others - {b}) == FreeBlocks(lists) + others;
  }

  lemma TakeTiled(lists: seq<seq<nat>>, others: set<Block>, n: nat, b: Block)
    requires Tiled(lists, others, n) && b in FreeBlocks(lists)
    ensures FreeBlocks(lists[b.order := Without(lists[b.order], b.start)]) == FreeBlocks(lists) - {b}
    ensures Tiled(lists[b.order := Without(lists[b.order], b.start)], others + {b}, n)
  {
    var lists' := lists[b.order := Without(lists[b.order], b.start)];
    WithoutIsRemoval(lists[b.order], b.start);
    forall x
      ensures x in FreeBlocks(lists') <==> x in FreeBlocks(lists) - {b}
    {
    }
    assert FreeBlocks(lists') + (others + {b}) == FreeBlocks(lists) + others;
  }

  lemma SplitTiled(lists: seq<seq<nat>>, others: set<Block>, n: nat, b: Block)
    requires b !in others && Tiled(lists, others + {b}, n) && b.order > 0
    ensures Low(b) !in others && High(b) !in others
    ensures Tiled(lists, others + {Low(b)} + {High(b)}, n)
  {
    var all := FreeBlocks(lists) + (others + {b});
    TilingSplit(all, n, b);
    assert In(b.start, b) && In(Low(b).start, Low(b));
    assert In(High(b).start, High(b)) && In(High(b).start, b);
    assert all - {b} + {Low(b), High(b)} == FreeBlocks(lists) + (others + {Low(b)} + {High(b)});
  }

  lemma JoinTiled(lists: seq<seq<nat>>, others: set<Block>, n: nat, b: Block)
    requires b.order > 0 && Low(b) !in others && High(b) !in others
    requires Tiled(lists, others + {Low(b)} + {High(b)}, n)
    ensures b !in others
    ensures Tiled(lists, others + {b}, n)
  {
    var all := FreeBlocks(lists) + (others + {Low(b)} + {High(b)});
    TilingJoin(all, n, b);
    assert In(b.start, b) && In(Low(b).start, Low(b));
    assert Low(b) in all && Low(b) != b;
    assert b !in all;
    assert all - {Low(b), High(b)} + {b} == FreeBlocks(lists) + (others + {b});
  }

  // ------------------------------------------------------------- operations

  /** The smallest order whose block holds `pages` pages. */
  function OrderFor(pages: nat): (k: nat)
    ensures Pow2(k) >= pages && (k > 0 ==> Pow2(k - 1) < pages)
  {
    OrderFrom(pages, 0)
  }

  function OrderFrom(pages: nat, k: nat): (r: nat)
    requires k > 0 ==> Pow2(k - 1) < pages
    ensures r >= k && Pow2(r) >= pages && (r > 0 ==> Pow2(r - 1) < pages)
    decreases pages - Pow2(k)
  {
    if Pow2(k) >= pages then k else OrderFrom(pages, k + 1)
  }

  /** The first order from k up with a free block, or MAX_ORDER + 1. */
  function FirstFit(lists: seq<seq<nat>>, k: nat): (r: nat)
    requires |lists| == MAX_ORDER + 1 && k <= MAX_ORDER + 1
    ensures k <= r <= MAX_ORDER + 1
    ensures r <= MAX_ORDER ==> lists[r] != []
    ensures forall j :: k <= j < r ==> lists[j] == []
    decreases MAX_ORDER + 1 - k
  {
    if k > MAX_ORDER || lists[k] != [] then k else FirstFit(lists, k + 1)
  }

  /** Halve the block at `a` from order k down to order t, freeing each upper half. */
  function SplitDown(lists: seq<seq<nat>>, a: nat, k: nat, t: nat): (r: seq<seq<nat>>)
    requires |lists| == MAX_ORDER + 1 && t <= k <= MAX_ORDER
    ensures |r| == |lists|
    decreases k
  {
    if k == t then lists
    else SplitDown(Push(lists, k - 1, a + Pow2(k - 1)), a, k - 1, t)
  }

  function Alloc(s: Pool, pages: nat): (r: (Pool, Option<nat>))
    requires |s.lists| == MAX_ORDER + 1
  {
    if pages == 0 || OrderFor(pages) > MAX_ORDER then (s, None)
    else
      var t := OrderFor(pages);
      var k := FirstFit(s.lists, t);
      if k > MAX_ORDER then (s, None)
      else
        var a := s.lists[k][0];
        var lists := SplitDown(s.lists[k := s.lists[k][1..]], a, k, t);
        (s.(lists := lists, live := s.live[a := t]), Some(a))
  }

  /** The page at the byte address of page a with the bit of a 2^k-page block inverted. */
  function Buddy(s: Pool, a: nat, k: nat): int {
    Flip(s.base + a, k) - s.base
  }

  predicate CanMerge(s: Pool, a: nat, k: nat)
    requires |s.lists| == MAX_ORDER + 1
  {
    && k < MAX_ORDER
    && 0 <= Buddy(s, a, k) < s.n
    && Buddy(s, a, k) in s.lists[k]
    && Buddy(s, a, k) !in s.owner
    && Buddy(s, a, k) !in s.live
  }

  function Min(x: nat, y: nat): nat {
    if y < x then y else x
  }

  /** Merge the block of order k at page a with its free buddies, then list it. */
  function Merge(s: Pool, a: nat, k: nat): (r: Pool)
    requires |s.lists| == MAX_ORDER + 1 && k <= MAX_ORDER
    ensures |r.lists| == |s.lists|
    decreases MAX_ORDER - k
  {
    if CanMerge(s, a, k) then
      var b := Buddy(s, a, k);
      Merge(s.(lists := s.lists[k := Without(s.lists[k], b)]), Min(a, b), k + 1)
    else
      s.(lists := Push(s.lists, k, a))
  }

  /** buddy_free of a page index; anything but an unowned live head is refused. */
  function Free(s: Pool, a: int): (r: Pool)
    requires |s.lists| == MAX_ORDER + 1
    requires forall h :: h in s.live ==> s.live[h] <= MAX_ORDER
  {
    if a < 0 || a !in s.live || a in s.owner then s
    else Merge(s.(live := s.live - {a}), a, s.live[a])
  }

  // ---------------------------------------------------------- initial state

  /** The largest order, at most k, that fits in `remaining` pages and divides curr. */
  function FitOrder(curr: nat, remaining: nat, k: nat): (r: nat)
    requires remaining >= 1
    ensures r <= k && Pow2(r) <= remaining && Aligned(curr, r)
    ensures forall j :: r < j <= k ==> Pow2(j) > remaining || !Aligned(curr, j)
    decreases k
  {
    if k == 0 || (Pow2(k) <= remaining && Aligned(curr, k)) then k
    else FitOrder(curr, remaining, k - 1)
  }

  function InitLists(n: nat, curr: nat, lists: seq<seq<nat>>): (r: seq<seq<nat>>)
    requires |lists| == MAX_ORDER + 1 && curr <= n
    ensures |r| == MAX_ORDER + 1
    decreases n - curr
  {
    if curr == n then lists
    else
      var k := FitOrder(curr, n - curr, MAX_ORDER);
      InitLists(n, curr + Pow2(k), Push(lists, k, curr))
  }

  function EmptyLists(): (r: seq<seq<nat>>)
    ensures |r| == MAX_ORDER + 1 && forall k :: 0 <= k < |r| ==> r[k] == []
  {
    seq(MAX_ORDER + 1, _ => [])
  }

  function Init(base: nat, n: nat): (r: Pool) {
    Pool(base, n, InitLists(n, 0, EmptyLists()), map[], map[])
  }

  // ------------------------------------------------- page owners, set by slabs

  function PagesOf(s: Pool, a: nat): (ps: set<nat>)
    requires a in s.live
    ensures forall p :: p in ps <==> In(p, Block(a, s.live[a]))
  {
    set p: nat | p < a + Pow2(s.live[a]) && In(p, Block(a, s.live[a]))
  }

  /** Record the slab at head page a as the owner of every page of its block. */
  function Publish(s: Pool, a: nat): (r: Pool)
    requires a in s.live
  {
    s.(owner := s.owner + (map p | p in PagesOf(s, a) :: a))
  }

  function Unpublish(s: Pool, a: nat): (r: Pool)
    requires a in s.live
  {
    s.(owner := s.owner - PagesOf(s, a))
  }
}
