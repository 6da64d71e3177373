/** Facts about the intrusive free lists and the page metadata, over plain sequences. */
module FreeLists {
  import opened Powers
  import opened Sequences
  import opened Wrappers
  import opened BuddyModel
  import opened Chains

  const NULL: int := -1

  datatype BlockMeta = BlockMeta(
    freeOrder: nat,
    isFreeHead: bool,
    allocOrder: nat,
    isAllocHead: bool,
    owner: Option<nat>)

  ghost function LiveOf(meta: seq<BlockMeta>): (m: map<nat, nat>) {
    map p: nat | p < |meta| && meta[p].isAllocHead :: meta[p].allocOrder
  }

  ghost function OwnerOf(meta: seq<BlockMeta>): (m: map<nat, nat>) {
    map p: nat | p < |meta| && meta[p].owner.Some? :: meta[p].owner.value
  }

  // -------------------------------------------------- all lists and the flags

  /** Every list is well linked, and every listed page is flagged with its order. */
  ghost predicate Linked(heads: seq<int>, link: seq<int>, meta: seq<BlockMeta>, lists: seq<seq<nat>>) {
    && |heads| == MAX_ORDER + 1 == |lists| && |link| == |meta|
    && (forall k :: 0 <= k <= MAX_ORDER ==> Chain(NULL, heads[k], link, lists[k]))
    && (forall k :: 0 <= k <= MAX_ORDER ==> NoDup(lists[k]))
    && ListedFlagged(meta, lists)
  }

  predicate HeadOf(meta: seq<BlockMeta>, a: nat, k: nat) {
    a < |meta| && meta[a].isFreeHead && meta[a].freeOrder == k
  }

  ghost predicate ListedFlagged(meta: seq<BlockMeta>, lists: seq<seq<nat>>) {
    forall k: nat, a :: k < |lists| && a in lists[k] ==> HeadOf(meta, a, k)
  }

  /** Every page flagged as a free head, but `except`, is on the list of its order. */
  ghost predicate Flagged(meta: seq<BlockMeta>, lists: seq<seq<nat>>, except: int) {
    forall p :: 0 <= p < |meta| && meta[p].isFreeHead && p != except ==>
      meta[p].freeOrder < |lists| && p in lists[meta[p].freeOrder]
  }

  ghost predicate OnNoList(lists: seq<seq<nat>>, a: nat) {
    forall k :: 0 <= k < |lists| ==> a !in lists[k]
  }

  lemma NothingListed(heads: seq<int>, link: seq<int>, meta: seq<BlockMeta>)
    requires |heads| == MAX_ORDER + 1 && |link| == |meta|
    requires forall k :: 0 <= k <= MAX_ORDER ==> heads[k] == NULL
    requires forall p :: 0 <= p < |meta| ==> meta[p] == BlockMeta(0, false, 0, false, None)
    ensures Linked(heads, link, meta, EmptyLists()) && Flagged(meta, EmptyLists(), NULL)
    ensures LiveOf(meta) == map[] && OwnerOf(meta) == map[]
    ensures Listed(EmptyLists()) && Tiling(FreeBlocks(EmptyLists()), 0)
  {
  }

  lemma LinkedList(heads: seq<int>, link: seq<int>, meta: seq<BlockMeta>, lists: seq<seq<nat>>, k: nat)
    requires Linked(heads, link, meta, lists) && k <= MAX_ORDER
    ensures Chain(NULL, heads[k], link, lists[k]) && NoDup(lists[k])
  {
  }

  /** Only managed pages are listed. */
  lemma ListedManaged(heads: seq<int>, link: seq<int>, meta: seq<BlockMeta>, lists: seq<seq<nat>>, k: nat, p: nat)
    requires Linked(heads, link, meta, lists) && k <= MAX_ORDER
    ensures p in lists[k] ==> p < |meta|
  {
  }

  /** A head that is no managed page links no list. */
  lemma NotAPage(heads: seq<int>, link: seq<int>, meta: seq<BlockMeta>, order: nat)
    requires order <= MAX_ORDER < |heads| && heads[order] >= |link| && |link| == |meta|
    ensures forall ls :: !Linked(heads, link, meta, ls)
  {
  }

  lemma MetaMaps(meta: seq<BlockMeta>, a: nat, m: BlockMeta)
    requires a < |meta|
    ensures LiveOf(meta[a := m]) == if m.isAllocHead then LiveOf(meta)[a := m.allocOrder] else LiveOf(meta) - {a}
    ensures OwnerOf(meta[a := m]) == SetAt(OwnerOf(meta), a, m.owner)
  {
  }

  lemma SameMaps(meta: seq<BlockMeta>, a: nat, m: BlockMeta)
    requires a < |meta|
    ensures m.owner == meta[a].owner ==> OwnerOf(meta[a := m]) == OwnerOf(meta)
    ensures m.isAllocHead == meta[a].isAllocHead && m.allocOrder == meta[a].allocOrder ==>
      LiveOf(meta[a := m]) == LiveOf(meta)
  {
  }

  /**
   A change of one page's metadata that leaves its free-head record alone, or drops the record of an unlisted page.
   */
  lemma MetaChange(heads: seq<int>, link: seq<int>, meta: seq<BlockMeta>, lists: seq<seq<nat>>, a: nat, m: BlockMeta)
    requires Linked(heads, link, meta, lists) && Flagged(meta, lists, NULL) && a < |meta|
    requires m.freeOrder == meta[a].freeOrder
    requires m.isFreeHead == meta[a].isFreeHead || (!m.isFreeHead && OnNoList(lists, a))
    ensures Linked(heads, link, meta[a := m], lists) && Flagged(meta[a := m], lists, NULL)
    ensures LiveOf(meta[a := m]) == if m.isAllocHead then LiveOf(meta)[a := m.allocOrder] else LiveOf(meta) - {a}
    ensures OwnerOf(meta[a := m]) == SetAt(OwnerOf(meta), a, m.owner)
    ensures m.owner == meta[a].owner ==> OwnerOf(meta[a := m]) == OwnerOf(meta)
    ensures m.isAllocHead == meta[a].isAllocHead && m.allocOrder == meta[a].allocOrder ==>
      LiveOf(meta[a := m]) == LiveOf(meta)
  {
    hide Chain, NoDup, LiveOf, OwnerOf;
    MetaMaps(meta, a, m);
    SameMaps(meta, a, m);
  }

  lemma FlagThenPush(heads: seq<int>, link: seq<int>, meta: seq<BlockMeta>, lists: seq<seq<nat>>, order: nat, a: nat)
    requires Linked(heads, link, meta, lists) && Flagged(meta, lists, NULL)
    requires order <= MAX_ORDER && a < |meta| && OnNoList(lists, a)
    ensures var meta' := meta[a := meta[a].(isFreeHead := true, freeOrder := order)];
            && Linked(heads[order := a], link[a := heads[order]], meta', Push(lists, order, a))
            && Flagged(meta', Push(lists, order, a), NULL)
            && LiveOf(meta') == LiveOf(meta) && OwnerOf(meta') == OwnerOf(meta)
  {
  }

  lemma PopThenClear(heads: seq<int>, link: seq<int>, meta: seq<BlockMeta>, lists: seq<seq<nat>>, order: nat)
    requires Linked(heads, link, meta, lists) && Flagged(meta, lists, NULL)
    requires order <= MAX_ORDER && lists[order] != []
    ensures var a := lists[order][0];
            && heads[order] == a < |meta|
            && var meta' := meta[a := meta[a].(isFreeHead := false)];
            var lists' := lists[order := lists[order][1..]];
            && Linked(heads[order := link[a]], link, meta', lists') && Flagged(meta', lists', NULL)
            && LiveOf(meta') == LiveOf(meta) && OwnerOf(meta') == OwnerOf(meta)
  {
    var l := lists[order];
    assert Chain(NULL, heads[order], link, l);
    assert l[0] in l;
    ChainTail(NULL, link, l);
    OnlyOneList(heads, link, meta, lists, order, l[0]);
    DropPage(heads[order := link[l[0]]], link, meta, lists, order, l[0], l[1..]);
  }

  /** A page is on at most one list. */
  lemma OnlyOneList(heads: seq<int>, link: seq<int>, meta: seq<BlockMeta>, lists: seq<seq<nat>>, order: nat, a: nat)
    requires Linked(heads, link, meta, lists) && order <= MAX_ORDER && a in lists[order]
    ensures forall k :: 0 <= k <= MAX_ORDER && k != order ==> a !in lists[k]
  {
  }

  /** Taking page a off its list, relinked as `rest`, and clearing its flag. */
  lemma DropPage(heads: seq<int>, link: seq<int>, meta: seq<BlockMeta>, lists: seq<seq<nat>>, order: nat, a: nat,
      rest: seq<nat>)
    requires |heads| == MAX_ORDER + 1 == |lists| && |link| == |meta| && a < |meta| && order <= MAX_ORDER
    requires Flagged(meta, lists, NULL)
    requires ListedFlagged(meta, lists)
    requires forall k :: 0 <= k <= MAX_ORDER && k != order ==>
      Chain(NULL, heads[k], link, lists[k]) && NoDup(lists[k]) && a !in lists[k]
    requires Chain(NULL, heads[order], link, rest) && NoDup(rest) && a !in rest
    requires forall p :: p in lists[order] <==> p == a || p in rest
    ensures var meta' := meta[a := meta[a].(isFreeHead := false)];
            && Linked(heads, link, meta', lists[order := rest]) && Flagged(meta', lists[order := rest], NULL)
            && LiveOf(meta') == LiveOf(meta) && OwnerOf(meta') == OwnerOf(meta)
  {
    hide Chain, NoDup, LiveOf, OwnerOf;
    SameMaps(meta, a, meta[a].(isFreeHead := false));
    var lists' := lists[order := rest];
    assert forall k :: 0 <= k <= MAX_ORDER ==> Chain(NULL, heads[k], link, lists'[k]);
    assert forall k :: 0 <= k <= MAX_ORDER ==> NoDup(lists'[k]);
    DropFlags(meta, lists, order, a, rest);
  }

  lemma DropFlags(meta: seq<BlockMeta>, lists: seq<seq<nat>>, order: nat, a: nat, rest: seq<nat>)
    requires |lists| == MAX_ORDER + 1 && order <= MAX_ORDER && a < |meta|
    requires Flagged(meta, lists, NULL)
    requires ListedFlagged(meta, lists)
    requires forall k :: 0 <= k <= MAX_ORDER && k != order ==> a !in lists[k]
    requires a !in rest && forall p :: p in lists[order] <==> p == a || p in rest
    ensures var meta' := meta[a := meta[a].(isFreeHead := false)];
            var lists' := lists[order := rest];
            && Flagged(meta', lists', NULL)
            && ListedFlagged(meta', lists')
  {
  }

  lemma UnlinkThenClear(heads: seq<int>, link: seq<int>, meta: seq<BlockMeta>, lists: seq<seq<nat>>, order: nat, i: nat)
    requires Linked(heads, link, meta, lists) && Flagged(meta, lists, NULL)
    requires order <= MAX_ORDER && i < |lists[order]|
    ensures var l := lists[order];
            l[i] < |link| && (i > 0 ==> l[i - 1] < |link|) &&
            var meta' := meta[l[i] := meta[l[i]].(isFreeHead := false)];
            var lists' := lists[order := l[..i] + l[i + 1..]];
            var link' := if i > 0 then link[l[i - 1] := link[l[i]]] else link;
            var heads' := if i > 0 then heads else heads[order := link[l[i]]];
            && Linked(heads', link', meta', lists') && Flagged(meta', lists', NULL)
            && LiveOf(meta') == LiveOf(meta) && OwnerOf(meta') == OwnerOf(meta)
  {
    var l := lists[order];
    LinkedList(heads, link, meta, lists, order);
    if i == 0 {
      PopThenClear(heads, link, meta, lists, order);
      assert l[..0] + l[1..] == l[1..];
    } else {
      ChainUnlink(NULL, heads[order], link, l, i);
      UnlinkInner(heads, link, meta, lists, order, i);
    }
  }

  lemma UnlinkInner(heads: seq<int>, link: seq<int>, meta: seq<BlockMeta>, lists: seq<seq<nat>>, order: nat, i: nat)
    requires Linked(heads, link, meta, lists) && Flagged(meta, lists, NULL)
    requires order <= MAX_ORDER && 0 < i < |lists[order]|
    requires var l := lists[order];
             l[i] < |link| && l[i - 1] < |link| && NoDup(l)
             && Chain(NULL, heads[order], link[l[i - 1] := link[l[i]]], l[..i] + l[i + 1..])
    ensures var l := lists[order];
            var meta' := meta[l[i] := meta[l[i]].(isFreeHead := false)];
            var lists' := lists[order := l[..i] + l[i + 1..]];
            && Linked(heads, link[l[i - 1] := link[l[i]]], meta', lists') && Flagged(meta', lists', NULL)
            && LiveOf(meta') == LiveOf(meta) && OwnerOf(meta') == OwnerOf(meta)
  {
    var l := lists[order];
    assert l[i] in l && l[i - 1] in l;
    OnlyOneList(heads, link, meta, lists, order, l[i]);
    OnlyOneList(heads, link, meta, lists, order, l[i - 1]);
    forall k | 0 <= k <= MAX_ORDER && k != order
      ensures Chain(NULL, heads[k], link[l[i - 1] := link[l[i]]], lists[k])
    {
      ChainUntouched(NULL, heads[k], link, lists[k], l[i - 1], link[l[i]]);
    }
    SplitOut(l, i);
    DropPage(heads, link[l[i - 1] := link[l[i]]], meta, lists, order, l[i], l[..i] + l[i + 1..]);
  }

  /** The metadata test of the merge loop is membership of the free list and of nothing else. */
  lemma FlagMeansListed(heads: seq<int>, link: seq<int>, meta: seq<BlockMeta>, lists: seq<seq<nat>>, p: nat, order: nat)
    requires Linked(heads, link, meta, lists) && Flagged(meta, lists, NULL) && p < |meta| && order <= MAX_ORDER
    ensures meta[p].isFreeHead && meta[p].freeOrder == order <==> p in lists[order]
    ensures meta[p].owner.None? <==> p !in OwnerOf(meta)
    ensures meta[p].isAllocHead <==> p in LiveOf(meta)
    ensures meta[p].isAllocHead ==> LiveOf(meta)[p] == meta[p].allocOrder
  {
  }

  // ------------------------------------------------------------ blocks and lists

  /** No free list holds a page at or past the tiled part. */
  lemma NotListed(lists: seq<seq<nat>>, n: nat, p: nat)
    requires Tiling(FreeBlocks(lists), n) && p >= n
    ensures OnNoList(lists, p)
  {
    forall k | 0 <= k < |lists|
      ensures p !in lists[k]
    {
      assert Block(p, k) !in FreeBlocks(lists);
    }
  }

  lemma PendingNotListed(lists: seq<seq<nat>>, others: set<Block>, n: nat, b: Block, p: nat)
    requires Tiled(lists, others + {b}, n) && In(p, b)
    ensures OnNoList(lists, p)
  {
  }

  /** Splitting a pending block: its upper half lies in the region and is on no list. */
  lemma SplitHigh(lists: seq<seq<nat>>, others: set<Block>, n: nat, b: Block)
    requires 0 < b.order <= MAX_ORDER && b !in others && Tiled(lists, others + {b}, n)
    ensures High(b).start < n && OnNoList(lists, High(b).start)
    ensures Low(b) !in others
    ensures Tiled(Push(lists, b.order - 1, High(b).start), others + {Low(b)}, n)
  {
    assert In(High(b).start, b);
    PendingNotListed(lists, others, n, b, High(b).start);
    SplitTiled(lists, others, n, b);
    PushTiled(lists, others + {Low(b)} + {High(b)}, n, High(b));
    assert others + {Low(b)} + {High(b)} - {High(b)} == others + {Low(b)};
  }

  lemma SplitDownStep(lists: seq<seq<nat>>, a: nat, k: nat, t: nat)
    requires |lists| == MAX_ORDER + 1 && t <= k <= MAX_ORDER
    ensures SplitDown(lists, a, k, t)
         == if k == t then lists else SplitDown(Push(lists, k - 1, a + Pow2(k - 1)), a, k - 1, t)
  {
  }

  lemma InitListsStep(n: nat, curr: nat, lists: seq<seq<nat>>)
    requires curr <= n && |lists| == MAX_ORDER + 1
    ensures curr == n ==> InitLists(n, curr, lists) == lists
    ensures curr < n ==> var k := FitOrder(curr, n - curr, MAX_ORDER);
                         InitLists(n, curr, lists) == InitLists(n, curr + Pow2(k), Push(lists, k, curr))
  {
    hide FitOrder, Pow2;
  }

  /** One merge keeps the pending block apart from every other block. */
  lemma MergeStepTiled(s: Pool, others: set<Block>, a: nat, k: nat)
    requires |s.lists| == MAX_ORDER + 1 && k < MAX_ORDER && CanMerge(s, a, k) && Block(a, k) !in others
    requires Tiled(s.lists, others + {Block(a, k)}, s.n)
    ensures var b := Buddy(s, a, k);
            && Block(Min(a, b), k + 1) !in others
            && Tiled(s.lists[k := Without(s.lists[k], b)], others + {Block(Min(a, b), k + 1)}, s.n)
  {
    hide Bit, Tiling;
    var b := Buddy(s, a, k);
    TakeTiled(s.lists, others + {Block(a, k)}, s.n, Block(b, k));
    var j := Block(Min(a, b), k + 1);
    assert {Low(j), High(j)} == {Block(a, k), Block(b, k)};
    assert others + {Block(a, k)} + {Block(b, k)} == others + {Low(j)} + {High(j)};
    JoinTiled(s.lists[k := Without(s.lists[k], b)], others, s.n, j);
  }

  /** Merge, one round at a time. */
  lemma MergeStep(s: Pool, a: nat, k: nat)
    requires |s.lists| == MAX_ORDER + 1 && k <= MAX_ORDER
    ensures CanMerge(s, a, k) ==>
              var b := Buddy(s, a, k);
              Merge(s, a, k) == Merge(s.(lists := s.lists[k := Without(s.lists[k], b)]), Min(a, b), k + 1)
    ensures !CanMerge(s, a, k) ==> Merge(s, a, k) == s.(lists := Push(s.lists, k, a))
  {
  }

  // ------------------------------------------------------------ owners and addresses

  function SetAt(owner: map<nat, nat>, p: nat, slab: Option<nat>): map<nat, nat> {
    if slab.Some? then owner[p := slab.value] else owner - {p}
  }

  /** The owner map after the first `count` pages from `head` on were recorded. */
  ghost function OwnedUpTo(owner: map<nat, nat>, head: nat, count: nat, slab: Option<nat>): map<nat, nat> {
    if count == 0 then owner else SetAt(OwnedUpTo(owner, head, count - 1, slab), head + count - 1, slab)
  }

  lemma {:induction false} OwnedUpToAt(owner: map<nat, nat>, head: nat, count: nat, slab: Option<nat>)
    ensures forall p :: var o := OwnedUpTo(owner, head, count, slab);
      if head <= p < head + count then (p in o <==> slab.Some?) && (slab.Some? ==> o[p] == slab.value)
      else (p in o <==> p in owner) && (p in o ==> o[p] == owner[p])
  {
    if count > 0 {
      OwnedUpToAt(owner, head, count - 1, slab);
    }
  }

  lemma OwnedUpToIs(s: Pool, head: nat, slab: Option<nat>)
    requires head in s.live && (slab.Some? ==> slab.value == head)
    ensures s.(owner := OwnedUpTo(s.owner, head, Pow2(s.live[head]), slab))
         == if slab.Some? then Publish(s, head) else Unpublish(s, head)
  {
    hide Pow2, OwnedUpTo;
    OwnedUpToAt(s.owner, head, Pow2(s.live[head]), slab);
    assert OwnedUpTo(s.owner, head, Pow2(s.live[head]), slab)
        == if slab.Some? then Publish(s, head).owner else Unpublish(s, head).owner;
  }

  /** Flipping the bit of a 2^k-page block in a page's byte address flips bit k of its page number. */
  lemma XorPages(p: nat, k: nat)
    ensures Flip(p, k) >= 0
    ensures Xor(p * 4096, 4096 * Pow2(k)) == Flip(p, k) * 4096
  {
    hide Bit, Pow2, Xor, Flip;
    PowTwelve();
    Pow2Add(12, k);
    XorIsFlip(p * 4096, 12 + k);
    FlipScale(p, 12, k);
    assert Flip(p, k) * 4096 >= 0;
  }

  lemma PowTwelve()
    ensures Pow2(12) == 4096
  {
  }

  lemma PowFifteen()
    ensures Pow2(15) == 32768
  {
    PowTwelve();
    assert Pow2(15) == 8 * Pow2(12);
  }
}
