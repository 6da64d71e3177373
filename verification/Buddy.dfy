/**
 The page-block allocator as the kernel keeps it: an array of list heads, one link word
 in the first word of every free page, and a metadata record for every page.
 */
module Buddy {
  import opened Sequences
  import opened Powers
  import opened Wrappers
  import opened BuddyModel
  import opened BuddyTheorems
  import opened BuddyRuns
  import opened BuddyRoundTrip
  import opened Chains
  import opened FreeLists

  const BLOCK_SIZE: nat := 4096
  const INT_LIMIT: nat := 0x8000_0000
  const ADDRESSES: nat := 0x1_0000_0000_0000_0000

  /** Conversion of a 64-bit quotient to a C int. */
  function ToInt(x: nat): int {
    var low := x % 0x1_0000_0000;
    if low < INT_LIMIT then low else low - 0x1_0000_0000
  }

  /** addr_to_index, with the conversion of the quotient to int. */
  function IndexIn(start: nat, n: nat, a: nat): (r: int) {
    if a < start || (a - start) % BLOCK_SIZE != 0 then -1
    else
      var idx := ToInt((a - start) / BLOCK_SIZE);
      if idx < 0 || idx >= n then -1 else idx
  }

  /** An address 2^44 bytes or more past the start whose page number, cut to 32 bits, lands inside the region. */
  predicate AliasIn(start: nat, n: nat, a: nat) {
    && a >= start && (a - start) % BLOCK_SIZE == 0 && (a - start) / BLOCK_SIZE >= 0x1_0000_0000
    && ((a - start) / BLOCK_SIZE) % 0x1_0000_0000 < n
  }

  /** order_for_pages: double until the request fits. */
  method OrderForPages(pages: nat) returns (order: nat)
    requires pages <= 0x4000_0000
    ensures order == OrderFor(pages)
  {
    order := 0;
    var count := 1;
    while count < pages
      invariant count == Pow2(order)
      invariant order > 0 ==> Pow2(order - 1) < pages
      invariant OrderFrom(pages, order) == OrderFor(pages)
      decreases pages - count
    {
      order := order + 1;
      count := count * 2;
    }
  }

  /** The largest order that fits the remaining pages and is aligned at curr. */
  method PickOrder(curr: nat, remaining: nat) returns (order: nat)
    requires remaining >= 1
    ensures order == FitOrder(curr, remaining, MAX_ORDER)
  {
    order := MAX_ORDER;
    while order > 0 && !(Pow2(order) <= remaining && curr % Pow2(order) == 0)
      invariant 0 <= order <= MAX_ORDER
      invariant FitOrder(curr, remaining, order) == FitOrder(curr, remaining, MAX_ORDER)
    {
      order := order - 1;
    }
  }

  class Allocator {
    const start: nat
    const n: nat
    const freeArea: array<int>
    const link: array<int>
    const meta: array<BlockMeta>
    var outside: map<nat, int>
    ghost var lists: seq<seq<nat>>

    ghost predicate Shape()
      reads this
    {
      && freeArea.Length == MAX_ORDER + 1 == |lists|
      && link.Length == n && meta.Length == n && n < INT_LIMIT
      && freeArea != link && start > 0 && start % BLOCK_SIZE == 0 && start + n * BLOCK_SIZE <= ADDRESSES
    }

    /** The lists are well linked, and a page is flagged free head of order k exactly when it is on list k. */
    ghost predicate Valid()
      reads this, freeArea, link, meta
    {
      && Shape()
      && Linked(freeArea[..], link[..], meta[..], lists)
      && Flagged(meta[..], lists, NULL)
    }

    ghost function View(): Pool
      reads this, meta
    {
      Pool(start / BLOCK_SIZE, n, lists, LiveOf(meta[..]), OwnerOf(meta[..]))
    }

    function AddrToIndex(a: nat): (r: int) {
      IndexIn(start, n, a)
    }

    predicate Aliases(a: nat) {
      AliasIn(start, n, a)
    }

    function PageAddr(i: nat): nat {
      start + i * BLOCK_SIZE
    }

    /** The number of the page at an address, whether it is managed or not. */
    function PageNumber(a: nat): nat
      requires a >= start
    {
      (a - start) / BLOCK_SIZE
    }

    /** addr_to_index answers the index for a managed page and -1 for any other address, unless the address aliases. */
    lemma AddrToIndexExactIff(a: nat)
      requires n < INT_LIMIT && a < ADDRESSES
      ensures (AddrToIndex(a) == if a >= start && (a - start) % BLOCK_SIZE == 0 && (a - start) / BLOCK_SIZE < n
                                 then (a - start) / BLOCK_SIZE else -1)
         <==> !Aliases(a)
    {
    }

    /** An address with an index is that page's, or aliases it from outside the region. */
    lemma IndexOrAlias(a: nat)
      requires n < INT_LIMIT && AddrToIndex(a) >= 0
      ensures a >= start && AddrToIndex(a) < n && PageNumber(a) % 0x1_0000_0000 == AddrToIndex(a)
      ensures Aliases(a) <==> a != PageAddr(AddrToIndex(a))
      ensures Aliases(a) <==> PageNumber(a) >= n
      ensures Aliases(a) ==> PageNumber(a) >= 0x1_0000_0000
      ensures a == PageAddr(PageNumber(a))
    {
    }

    /** The address of page i is turned back into i. */
    lemma IndexOfPage(i: nat)
      requires i < n < INT_LIMIT
      ensures AddrToIndex(PageAddr(i)) == i
    {
    }

    lemma IndexOfMultiple(f: nat)
      requires Shape() && f < start / BLOCK_SIZE + n + 32768
      ensures var b := f - start / BLOCK_SIZE;
              AddrToIndex(f * BLOCK_SIZE) == (if 0 <= b < n then b else -1)
    {
    }

    /** The index of the flipped address is the buddy page when that page is managed, and -1 otherwise. */
    lemma BuddyIndex(a: nat, k: nat)
      requires Shape() && a < n && k <= MAX_ORDER
      ensures var b := Buddy(View(), a, k);
              && Xor(PageAddr(a), BLOCK_SIZE * Pow2(k)) == (start / BLOCK_SIZE + b) * BLOCK_SIZE
              && AddrToIndex(Xor(PageAddr(a), BLOCK_SIZE * Pow2(k))) == (if 0 <= b < n then b else -1)
    {
      hide Bit, Pow2, Xor;
      XorPages(start / BLOCK_SIZE + a, k);
      Pow2Monotone(k, MAX_ORDER);
      PowFifteen();
      IndexOfMultiple(Flip(start / BLOCK_SIZE + a, k));
    }

    /** Flag page `a` as the head of a free block and put it on the list of its order. */
    method FreeHead(order: nat, a: nat)
      requires Valid() && order <= MAX_ORDER && a < n && OnNoList(lists, a)
      modifies freeArea, link, meta, this`lists
      ensures Valid() && View() == old(View()).(lists := Push(old(lists), order, a))
    {
      hide Linked, Flagged, LiveOf, OwnerOf;
      FlagThenPush(freeArea[..], link[..], meta[..], lists, order, a);
      meta[a] := meta[a].(isFreeHead := true, freeOrder := order);
      link[a] := freeArea[order];
      freeArea[order] := a;
      lists := Push(lists, order, a);
      assert meta[..] == old(meta[..])[a := old(meta[a]).(isFreeHead := true, freeOrder := order)];
      assert link[..] == old(link[..])[a := old(freeArea[order])];
      assert freeArea[..] == old(freeArea[..])[order := a];
    }

    /** No lists of managed pages are linked from the heads any more. */
    ghost predicate Broken()
      reads freeArea, link, meta
    {
      forall ls :: !Linked(freeArea[..], link[..], meta[..], ls)
    }

    /** The page is flagged as a free head but on none of the lists, and an address outside the region heads one. */
    ghost predicate Stranded(idx: nat, order: nat, addr: nat)
      reads this, freeArea, link, meta
    {
      && Broken() && idx < meta.Length && order < freeArea.Length && addr >= start
      && meta[idx].isFreeHead && meta[idx].freeOrder == order && OnNoList(lists, idx)
      && freeArea[order] == PageNumber(addr) >= n
    }

    /** The end of buddy_free_order: flag the page the address has as its index, and push the address. */
    method FlagAndPush(order: nat, addr: nat)
      requires Valid() && order <= MAX_ORDER && AddrToIndex(addr) >= 0 && OnNoList(lists, AddrToIndex(addr))
      modifies freeArea, link, meta, this`lists, this`outside
      ensures !Aliases(addr) ==> Valid() && View() == old(View()).(lists := Push(old(lists), order, AddrToIndex(addr)))
      ensures Aliases(addr) ==> Stranded(AddrToIndex(addr), order, addr) && lists == old(lists)
    {
      hide Linked, Flagged, LiveOf, OwnerOf;
      IndexOrAlias(addr);
      var idx, p := AddrToIndex(addr), PageNumber(addr);
      if p < n {
        FreeHead(order, idx);
      } else {
        meta[idx] := meta[idx].(isFreeHead := true, freeOrder := order);
        outside := outside[p := freeArea[order]];
        freeArea[order] := p;
        NotAPage(freeArea[..], link[..], meta[..], order);
      }
    }

    /** pop_free, on a list that is not empty. */
    method PopFree(order: nat) returns (a: nat)
      requires Valid() && order <= MAX_ORDER && lists[order] != []
      modifies freeArea, meta, this`lists
      ensures Valid() && a == old(lists)[order][0] && a < n
      ensures View() == old(View()).(lists := old(lists)[order := old(lists)[order][1..]])
    {
      hide Linked, Flagged, LiveOf, OwnerOf;
      PopThenClear(freeArea[..], link[..], meta[..], lists, order);
      assert freeArea[..][order] == freeArea[order];
      a := freeArea[order];
      freeArea[order] := link[a];
      meta[a] := meta[a].(isFreeHead := false);
      lists := lists[order := lists[order][1..]];
      assert meta[..] == old(meta[..])[a := old(meta[a]).(isFreeHead := false)];
      assert link[..] == old(link[..]);
      assert freeArea[..] == old(freeArea[..])[order := old(link[a])];
    }

    /** The scan of remove_from_freelist: the page and its predecessor, or NULL when it is not listed. */
    method Scan(order: nat, a: nat) returns (prev: int, cur: int, ghost i: nat)
      requires Valid() && order <= MAX_ORDER
      ensures i <= |lists[order]| && a !in lists[order][..i]
      ensures prev == if i > 0 then lists[order][i - 1] else NULL
      ensures if i < |lists[order]| then cur == a == lists[order][i] else cur == NULL
    {
      hide Linked, Flagged, NoDup;
      ghost var l := lists[order];
      i := 0;
      LinkedList(freeArea[..], link[..], meta[..], lists, order);
      prev, cur := NULL, freeArea[order];
      while cur != NULL && cur != a
        invariant 0 <= i <= |l| && cur == (if i < |l| then l[i] else NULL)
        invariant prev == (if i > 0 then l[i - 1] else NULL)
        invariant a !in l[..i]
        decreases |l| - i
      {
        ChainAt(NULL, freeArea[order], link[..], l, i);
        prev := cur;
        cur := link[cur];
        i := i + 1;
      }
    }

    /** remove_from_freelist for a page number, managed or not, and the clearing of its head mark when it was found. */
    method RemoveFromFreelist(order: nat, a: nat) returns (removed: bool)
      requires Valid() && order <= MAX_ORDER
      modifies freeArea, link, meta, this`lists
      ensures Valid() && removed == (a in old(lists)[order]) && (!removed ==> View() == old(View()))
      ensures View() == old(View()).(lists := old(lists)[order := Without(old(lists)[order], a)])
    {
      hide Linked, Flagged, LiveOf, OwnerOf, Chain, NoDup, Without;
      var prev, cur, i := Scan(order, a);
      ghost var l := lists[order];
      if cur == NULL {
        assert l[..i] == l;
        WithoutAbsent(l, a);
        assert lists[order := l] == lists;
        return false;
      }
      WithoutAt(l, i);
      UnlinkThenClear(freeArea[..], link[..], meta[..], lists, order, i);
      var next := link[cur];
      if prev != NULL {
        link[prev] := next;
      } else {
        freeArea[order] := next;
      }
      meta[a] := meta[a].(isFreeHead := false);
      lists := lists[order := l[..i] + l[i + 1..]];
      assert meta[..] == old(meta[..])[a := old(meta[a]).(isFreeHead := false)];
      assert link[..] == if i > 0 then old(link[..])[prev := next] else old(link[..]);
      assert freeArea[..] == if i > 0 then old(freeArea[..]) else old(freeArea[..])[order := next];
      return true;
    }

    /** buddy_init: flag nothing, then cover the region with the largest aligned blocks that fit. */
    constructor (start: nat, n: nat)
      requires start > 0 && start % BLOCK_SIZE == 0 && n < INT_LIMIT && start + n * BLOCK_SIZE <= ADDRESSES
      ensures fresh(freeArea) && fresh(link) && fresh(meta)
      ensures this.start == start && this.n == n && Valid()
      ensures View() == Init(start / BLOCK_SIZE, n)
    {
      this.start, this.n, outside := start, n, map[];
      freeArea := new int[MAX_ORDER + 1](_ => NULL);
      link := new int[n](_ => 0);
      meta := new BlockMeta[n](_ => BlockMeta(0, false, 0, false, None));
      lists := EmptyLists();
      new;
      NothingListed(freeArea[..], link[..], meta[..]);
      CoverRegion();
    }

    method CoverRegion()
      requires Valid() && Listed(lists) && Tiling(FreeBlocks(lists), 0)
      modifies freeArea, link, meta, this`lists
      ensures Valid() && View() == old(View()).(lists := InitLists(n, 0, old(lists)))
    {
      hide FreeBlocks, InitLists, Linked, Flagged, Tiling, NoDup, FitOrder, Aligned, Pow2, LiveOf, OwnerOf;
      var curr := 0;
      while curr < n
        invariant 0 <= curr <= n && Valid() && View() == old(View()).(lists := lists)
        invariant Listed(lists) && Tiling(FreeBlocks(lists), curr)
        invariant InitLists(n, curr, lists) == InitLists(n, 0, old(lists))
      {
        var order := PickOrder(curr, n - curr);
        NotListed(lists, curr, curr);
        InitListsStep(n, curr, lists);
        PushExtends(lists, curr, order);
        FreeHead(order, curr);
        curr := curr + Pow2(order);
      }
      InitListsStep(n, curr, lists);
    }

    /** buddy_alloc, in page indices. */
    method BuddyAlloc(pages: nat) returns (r: Option<nat>)
      requires Valid() && Inv(View()) && pages <= 0x4000_0000
      modifies freeArea, link, meta, this`lists
      ensures Valid() && View() == Alloc(old(View()), pages).0
      ensures r == Alloc(old(View()), pages).1
    {
      hide OrderFor, FirstFit, SplitDown, Tiling, OwnersUniform, Linked, Flagged, Pow2, LiveOf, OwnerOf;
      if pages == 0 {
        return None;
      }
      var target := OrderForPages(pages);
      if target > MAX_ORDER {
        return None;
      }
      var k := FindOrder(target);
      if k > MAX_ORDER {
        return None;
      }
      AllocatedFrom(View(), pages);
      var a := PopFree(k);
      SplitBlock(a, k, target);
      MarkAllocated(a, target);
      r := Some(a);
    }

    /** The first order from `target` up whose list is not empty. */
    method FindOrder(target: nat) returns (k: nat)
      requires Valid() && target <= MAX_ORDER
      ensures k == FirstFit(lists, target)
    {
      hide Linked, Flagged;
      k := target;
      while k <= MAX_ORDER && freeArea[k] == NULL
        invariant target <= k <= MAX_ORDER + 1
        invariant FirstFit(lists, k) == FirstFit(lists, target)
      {
        LinkedList(freeArea[..], link[..], meta[..], lists, k);
        k := k + 1;
      }
      if k <= MAX_ORDER {
        LinkedList(freeArea[..], link[..], meta[..], lists, k);
      }
    }

    /** The splitting loop of buddy_alloc: free the upper half at every order below the source. */
    method SplitBlock(a: nat, source: nat, target: nat)
      requires Valid() && target <= source <= MAX_ORDER && a < n
      requires Block(a, source) !in LiveBlocks(View().live)
      requires Tiled(lists, LiveBlocks(View().live) + {Block(a, source)}, n)
      modifies freeArea, link, meta, this`lists
      ensures Valid() && View() == old(View()).(lists := SplitDown(old(lists), a, source, target))
      ensures OnNoList(lists, a)
    {
      hide Tiled, Linked, Flagged, FreeBlocks, LiveBlocks, LiveOf, OwnerOf, SplitDown, Pow2;
      ghost var live := LiveBlocks(View().live);
      var k := source;
      while k > target
        invariant target <= k <= source && Valid() && View() == old(View()).(lists := lists)
        invariant Block(a, k) !in live && Tiled(lists, live + {Block(a, k)}, n)
        invariant SplitDown(lists, a, k, target) == SplitDown(old(lists), a, source, target)
      {
        SplitHigh(lists, live, n, Block(a, k));
        SplitDownStep(lists, a, k, target);
        k := k - 1;
        var buddy := AddrToIndex(PageAddr(a) + BLOCK_SIZE * Pow2(k));
        IndexOfPage(a + Pow2(k));
        FreeHead(k, buddy);
      }
      SplitDownStep(lists, a, k, target);
      PendingNotListed(lists, live, n, Block(a, target), a);
    }

    method MarkAllocated(a: nat, order: nat)
      requires Valid() && a < n && OnNoList(lists, a)
      modifies meta
      ensures Valid() && View() == old(View()).(live := old(View()).live[a := order])
    {
      hide Linked, Flagged, LiveOf, OwnerOf;
      MetaChange(freeArea[..], link[..], meta[..], lists, a,
        meta[a].(isAllocHead := true, allocOrder := order, isFreeHead := false));
      meta[a] := meta[a].(isAllocHead := true, allocOrder := order, isFreeHead := false);
      assert meta[..] == old(meta[..])[a := meta[a]];
    }

    /**
     One round of buddy_free_order's loop.  From a managed page it takes the buddy off its list
     exactly when the model would; from an aliasing address it finds nothing to take.
     */
    method TakeBuddy(addr: nat, cur: nat) returns (taken: bool, buddy: nat)
      requires Valid() && cur < MAX_ORDER && AddrToIndex(addr) >= 0
      modifies freeArea, link, meta, this`lists
      ensures Valid() && (!taken ==> View() == old(View())) && (Aliases(addr) ==> !taken)
      ensures !Aliases(addr) ==> taken == CanMerge(old(View()), AddrToIndex(addr), cur)
      ensures taken ==> var b := Buddy(old(View()), AddrToIndex(addr), cur);
                        && b >= 0 && b < n && buddy == PageAddr(b)
                        && View() == old(View()).(lists := old(lists)[cur := Without(old(lists)[cur], b)])
    {
      hide Linked, Flagged, Xor, Flip, LiveOf, OwnerOf, Pow2, Buddy;
      IndexOrAlias(addr);
      buddy := Xor(addr, BLOCK_SIZE * Pow2(cur));
      var bidx := AddrToIndex(buddy);
      if Aliases(addr) {
        FarBuddy(addr, cur);
      } else {
        BuddyIndex(AddrToIndex(addr), cur);
      }
      if bidx < 0 {
        return false, buddy;
      }
      IndexOrAlias(buddy);
      FlagMeansListed(freeArea[..], link[..], meta[..], lists, bidx, cur);
      if !(meta[bidx].isFreeHead && meta[bidx].freeOrder == cur && meta[bidx].owner.None? && !meta[bidx].isAllocHead) {
        return false, buddy;
      }
      ListedManaged(freeArea[..], link[..], meta[..], lists, cur, PageNumber(buddy));
      taken := RemoveFromFreelist(cur, PageNumber(buddy));
    }

    /** From an aliasing address the flipped address is outside the region too. */
    lemma FarBuddy(addr: nat, cur: nat)
      requires Shape() && cur < MAX_ORDER && Aliases(addr)
      ensures Xor(addr, BLOCK_SIZE * Pow2(cur)) >= start && PageNumber(Xor(addr, BLOCK_SIZE * Pow2(cur))) >= n
    {
      hide Bit, Pow2, Xor;
      var f := addr / BLOCK_SIZE;
      XorPages(f, cur);
      Pow2Monotone(cur, MAX_ORDER);
      PowFifteen();
    }

    /**
     buddy_free_order: merge upwards while the buddy is a free head of the same order.  The address
     is the caller's; it need not be that of the page it has as its index.
     */
    method BuddyFreeOrder(ptr: nat, order: nat)
      requires Valid() && order <= MAX_ORDER && 0 < ptr < ADDRESSES && AddrToIndex(ptr) >= 0
      requires Block(AddrToIndex(ptr), order) !in LiveBlocks(View().live)
      requires Tiled(lists, LiveBlocks(View().live) + {Block(AddrToIndex(ptr), order)}, n)
      modifies freeArea, link, meta, this`lists, this`outside
      ensures !Aliases(ptr) ==> Valid() && View() == Merge(old(View()), AddrToIndex(ptr), order)
      ensures Aliases(ptr) ==> Stranded(AddrToIndex(ptr), order, ptr) && lists == old(lists)
    {
      hide Linked, Flagged, Tiled, FreeBlocks, LiveBlocks, Xor, Flip, LiveOf, OwnerOf, Pow2, Merge, Buddy;
      ghost var live := LiveBlocks(View().live);
      IndexOrAlias(ptr);
      var addr := ptr;
      var cur := order;
      ghost var page: nat := AddrToIndex(ptr);
      while cur < MAX_ORDER
        invariant order <= cur <= MAX_ORDER && Valid() && page < n && AddrToIndex(addr) == page
        invariant View() == old(View()).(lists := lists) && Aliases(addr) == Aliases(ptr)
        invariant Aliases(ptr) ==> addr == ptr && cur == order && lists == old(lists)
        invariant Block(page, cur) !in live && Tiled(lists, live + {Block(page, cur)}, n)
        invariant !Aliases(ptr) ==> Merge(View(), page, cur) == Merge(old(View()), AddrToIndex(ptr), order)
      {
        MergeStep(View(), page, cur);
        ghost var before := View();
        var taken, buddy := TakeBuddy(addr, cur);
        if !taken {
          break;
        }
        MergeStepTiled(before, live, page, cur);
        IndexOrAlias(addr);
        IndexOfPage(Buddy(before, page, cur));
        IndexOrAlias(buddy);
        if buddy < addr {
          addr := buddy;
          page := Buddy(before, page, cur);
        }
        cur := cur + 1;
      }
      PendingNotListed(lists, live, n, Block(page, cur), page);
      MergeStep(View(), page, cur);
      FlagAndPush(cur, addr);
    }

    /** What a free of this pointer ought to do: nothing for NULL, else free the page it has as its index. */
    ghost function Freed(s: Pool, ptr: nat): Pool
      requires |s.lists| == MAX_ORDER + 1 && forall h :: h in s.live ==> s.live[h] <= MAX_ORDER
    {
      if ptr == 0 then s else Free(s, AddrToIndex(ptr))
    }

    /** The pointer aliases a live page that is no slab's: a caller can tell before the call. */
    ghost predicate FreesByAlias(s: Pool, ptr: nat) {
      ptr != 0 && Aliases(ptr) && AddrToIndex(ptr) in s.live && AddrToIndex(ptr) !in s.owner
    }

    /**
     buddy_free: only an unowned live head is freed; anything else is refused.  It does what the
     model does for every pointer but one that aliases a live page: that page is flagged as free and
     the foreign address goes on the list instead of it.
     */
    method BuddyFree(ptr: nat)
      requires Valid() && Inv(View()) && ptr < ADDRESSES
      modifies freeArea, link, meta, this`lists, this`outside
      ensures Valid() && View() == Freed(old(View()), ptr) <==> !FreesByAlias(old(View()), ptr)
      ensures FreesByAlias(old(View()), ptr) ==> Stranded(AddrToIndex(ptr), old(View()).live[AddrToIndex(ptr)], ptr)
    {
      hide Linked, Flagged, Tiling, OwnersUniform, LiveOf, OwnerOf;
      if ptr == 0 {
        return;
      }
      var idx := AddrToIndex(ptr);
      if idx < 0 {
        AliasIndex(ptr);
        return;
      }
      FlagMeansListed(freeArea[..], link[..], meta[..], lists, idx, 0);
      if !meta[idx].isAllocHead || meta[idx].owner.Some? {
        return;
      }
      var order := meta[idx].allocOrder;
      ghost var live := View().live;
      assert LiveBlocks(live) == LiveBlocks(live - {idx}) + {Block(idx, order)};
      MetaChange(freeArea[..], link[..], meta[..], lists, idx, meta[idx].(isAllocHead := false));
      meta[idx] := meta[idx].(isAllocHead := false);
      assert meta[..] == old(meta[..])[idx := meta[idx]];
      BuddyFreeOrder(ptr, order);
    }

    lemma AliasIndex(a: nat)
      requires n < INT_LIMIT
      ensures Aliases(a) ==> AddrToIndex(a) >= 0
    {
    }

    /** The loops of slab.c that record, or forget, the owner of every page of a block. */
    method SetOwner(head: nat, order: nat, slab: Option<nat>)
      requires Valid() && head in View().live && View().live[head] == order && head + Pow2(order) <= n
      requires slab.Some? ==> slab.value == head
      modifies meta
      ensures Valid()
      ensures View() == if slab.Some? then Publish(old(View()), head) else Unpublish(old(View()), head)
    {
      hide Linked, Flagged, LiveOf, OwnerOf, Pow2;
      ghost var s := View();
      for i := 0 to Pow2(order)
        invariant Valid() && View() == s.(owner := OwnedUpTo(s.owner, head, i, slab))
      {
        ghost var before := meta[..];
        MetaChange(freeArea[..], link[..], meta[..], lists, head + i, meta[head + i].(owner := slab));
        meta[head + i] := meta[head + i].(owner := slab);
        assert meta[..] == before[head + i := meta[head + i]];
      }
      OwnedUpToIs(s, head, slab);
    }
  }

  /** A region of one page hands that page out. */
  lemma OnePage(base: nat)
    ensures Inv(Init(base, 1)) && Alloc(Init(base, 1), 1).1 == Some(0)
    ensures Alloc(Init(base, 1), 1).0.live == map[0 := 0] && Alloc(Init(base, 1), 1).0.owner == map[]
    ensures Inv(Alloc(Init(base, 1), 1).0)
  {
    hide Inv;
    InitInv(base, 1);
    AllocKeepsInv(Init(base, 1), 1);
    var e := EmptyLists();
    FitOrderIs(0, 1, MAX_ORDER, 0);
    assert InitLists(1, 1, Push(e, 0, 0)) == Push(e, 0, 0);
    assert OrderFor(1) == 0 && FirstFit(Push(e, 0, 0), 0) == 0;
  }

  /**
   A free that goes wrong: the only page of a region at 2 GiB is allocated and then freed through the
   address 2^44 bytes above it.  The page ends up flagged as free and on no list, and the foreign address
   is the head of the list of order 0.
   */
  method FarFreeStrands() returns (a: Allocator)
    ensures a.start == 0x8000_0000 && a.n == 1 && a.AddrToIndex(0x1000_8000_0000) == 0
    ensures a.Stranded(0, 0, 0x1000_8000_0000)
  {
    hide Inv, Init, Alloc;
    OnePage(0x8_0000);
    a := new Allocator(0x8000_0000, 1);
    var r := a.BuddyAlloc(1);
    a.BuddyFree(0x1000_8000_0000);
  }
}
