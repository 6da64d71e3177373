/** The page-table code: walk, mappages, uvmunmap, uvmcopy, freewalk and uvmfree. */
module PageTable {
  import opened PageTableModel
  import opened PageTableKernel

  /** PX(level, va) for the addresses va in page vp. */
  function PX(level: nat, vp: nat): nat
    requires level <= 2
  {
    if level == 2 then L2(vp) else if level == 1 then L1(vp) else L0(vp)
  }

  function PosAt(level: nat, vp: nat): Pos
    requires level <= 2
  {
    if level == 2 then Root else if level == 1 then Mid(L2(vp)) else Low(L2(vp), L1(vp))
  }

  function LowOf(vp: nat): Pos {
    Low(L2(vp), L1(vp))
  }

  ghost predicate SameElse(spaces: map<nat, Space>, spaces': map<nat, Space>, root: nat) {
    root in spaces && spaces'.Keys == spaces.Keys && forall r :: r in spaces && r != root ==> spaces'[r] == spaces[r]
  }

  /** Pages leave the pool only to become tables of the space. */
  ghost predicate TablesFrom(free: set<nat>, pages: set<nat>, free': set<nat>, pages': set<nat>) {
    free' <= free && pages' == pages + (free - free')
  }

  /** flat with n pages from vp on mapped to the pages from ppn on. */
  function MapRange(flat: map<nat, Leaf>, vp: nat, n: nat, ppn: nat, perm: nat): map<nat, Leaf> {
    if n == 0 then flat else MapRange(flat, vp, n - 1, ppn, perm)[vp + n - 1 := Leaf(ppn + n - 1, perm)]
  }

  lemma {:induction false} MapRangeAt(flat: map<nat, Leaf>, vp: nat, n: nat, ppn: nat, perm: nat, x: nat)
    ensures x in MapRange(flat, vp, n, ppn, perm) <==> x in flat || vp <= x < vp + n
    ensures vp <= x < vp + n ==> MapRange(flat, vp, n, ppn, perm)[x] == Leaf(ppn + (x - vp), perm)
    ensures x in flat && !(vp <= x < vp + n) ==> MapRange(flat, vp, n, ppn, perm)[x] == flat[x]
  {
    if n > 0 {
      MapRangeAt(flat, vp, n - 1, ppn, perm, x);
    }
  }

  ghost function Span(vp: nat, n: nat): set<nat> {
    if n == 0 then {} else Span(vp, n - 1) + {vp + n - 1}
  }

  lemma {:induction false} SpanAt(vp: nat, n: nat, x: nat)
    ensures x in Span(vp, n) <==> vp <= x < vp + n
  {
    if n > 0 {
      SpanAt(vp, n - 1, x);
    }
  }

  /** The physical pages that the mappings from vp to vp + n lead to. */
  ghost function LeafPages(flat: map<nat, Leaf>, vp: nat, n: nat): set<nat> {
    if n == 0 then {}
    else LeafPages(flat, vp, n - 1) + (if vp + n - 1 in flat then {flat[vp + n - 1].ppn} else {})
  }

  /** How many of the first n pages are mapped. */
  ghost function MappedCount(flat: map<nat, Leaf>, n: nat): nat {
    if n == 0 then 0 else MappedCount(flat, n - 1) + if n - 1 in flat then 1 else 0
  }

  lemma {:induction false} LeafCount(flat: map<nat, Leaf>, n: nat)
    ensures |LeafPages(flat, 0, n)| <= MappedCount(flat, n)
  {
    if n > 0 {
      LeafCount(flat, n - 1);
    }
  }

  lemma {:induction false} SameCount(fo: map<nat, Leaf>, fc: map<nat, Leaf>, n: nat)
    requires forall x :: 0 <= x < n ==> (x in fc <==> x in fo)
    ensures MappedCount(fc, n) == MappedCount(fo, n)
  {
    if n > 0 {
      SameCount(fo, fc, n - 1);
    }
  }

  lemma {:induction false} CountMore(flat: map<nat, Leaf>, i: nat, n: nat)
    requires i < n && i in flat
    ensures MappedCount(flat, i) + 1 <= MappedCount(flat, n)
  {
    if i + 1 < n {
      CountMore(flat, i, n - 1);
    }
  }

  /** The pool has no page beyond those that the copies of the first n pages take. */
  ghost predicate Exhausted(free: set<nat>, flat: map<nat, Leaf>, n: nat) {
    |free| <= MappedCount(flat, n)
  }

  ghost predicate AtMostOne(free: set<nat>) {
    |free| <= 1
  }

  /** What uvmcopy has copied before it gives up at page i, and the page it may still hold, are fewer than asked for. */
  lemma CopiedCount(fo: map<nat, Leaf>, fc0: map<nat, Leaf>, fc: map<nat, Leaf>, i: nat, n: nat, free: set<nat>)
    requires FlatCopied(fo, fc0, fc, i) && i < n && i in fo && AtMostOne(free)
    ensures Exhausted(free + LeafPages(fc, 0, i), fo, n)
  {
    LeafCount(fc, i);
    SameCount(fo, fc, i);
    CountMore(fo, i, n);
    UnionSize(free, LeafPages(fc, 0, i));
  }

  lemma UnionSize(a: set<nat>, b: set<nat>)
    ensures |a + b| <= |a| + |b|
  {
    assert a + b == a + (b - a);
    assert b == (b - a) + (b * a);
  }

  class Vm {
    var tables: map<nat, Table>
    var free: set<nat>
    var data: map<nat, seq<int>>
    ghost var spaces: map<nat, Space>

    ghost predicate Valid()
      reads this
    {
      Kernel(tables, free, spaces)
    }

    method Kalloc() returns (p: nat)
      requires Valid()
      modifies this`free
      ensures Valid() && (p == 0 <==> old(free) == {}) && (p == 0 ==> free == old(free))
      ensures p != 0 ==> p in old(free) && free == old(free) - {p} && Loose(free, spaces, p)
    {
      if free == {} {
        return 0;
      }
      p :| p in free;
      KernelTaken(tables, free, spaces, p);
      free := free - {p};
    }

    method Kfree(p: nat)
      requires Valid() && Loose(free, spaces, p)
      modifies this`free
      ensures Valid() && free == old(free) + {p}
    {
      KernelFreed(tables, free, spaces, p);
      free := free + {p};
    }

    /** walk's new table page: zeroed and entered in its parent. */
    method NewTable(root: nat, parent: nat, i: nat, ghost q: Pos) returns (p: nat)
      requires Valid() && root in spaces && q in spaces[root].at && parent == spaces[root].at[q] && !q.Low? &&
        i < ENTRIES
      requires (q.Root? ==> i < TOP) && Child(q, i) !in spaces[root].at
      modifies this`tables, this`free, this`spaces
      ensures Valid() && free <= old(free)
      ensures p == 0 ==> free == {} && free == old(free) && tables == old(tables) && spaces == old(spaces)
      ensures p != 0 ==>
        p in old(free) && free == old(free) - {p} && spaces == old(spaces)[root := Grown(old(spaces)[root], q, i, p)]
    {
      hide SpaceOk;
      p := Kalloc();
      if p == 0 {
        return;
      }
      PlacedOf(tables, spaces[root]);
      KernelGrown(tables, free, spaces, root, q, i, p);
      tables := tables[p := EmptyTable()];
      tables := tables[parent := tables[parent][i := Pte(p, true, 0)]];
      assert tables == WithTable(old(tables), parent, i, p);
      spaces := spaces[root := Grown(spaces[root], q, i, p)];
    }

    /** The table page with the entry for page vp, 0 if it is not there and cannot be made. */
    method Walk(root: nat, vp: nat, alloc: bool) returns (t: nat)
      requires Valid() && root in spaces && vp < VPAGES
      modifies this`tables, this`free, this`spaces
      ensures Valid() && SameElse(old(spaces), spaces, root) && spaces[root].flat == old(spaces)[root].flat
      ensures TablesFrom(old(free), old(spaces)[root].pos.Keys, free, spaces[root].pos.Keys)
      ensures t == 0 ==> LowOf(vp) !in spaces[root].at && vp !in spaces[root].flat && (alloc ==> free == {})
      ensures t != 0 ==> LowOf(vp) in spaces[root].at && t == spaces[root].at[LowOf(vp)]
      ensures t != 0 ==> t in tables && LeafOk(tables[t][L0(vp)], spaces[root].flat, vp)
      ensures !alloc ==> tables == old(tables) && free == old(free) && spaces == old(spaces)
    {
      hide Kernel, SpaceOk, L2, L1, L0, Vpn, LeafOk;
      RootAt(tables, free, spaces, root);
      VpnSplit(vp);
      t := root;
      var level := 2;
      while level > 0
        invariant level <= 2 && Valid() && SameElse(old(spaces), spaces, root) &&
          spaces[root].flat == old(spaces)[root].flat
        invariant TablesFrom(old(free), old(spaces)[root].pos.Keys, free, spaces[root].pos.Keys)
        invariant PosAt(level, vp) in spaces[root].at && t == spaces[root].at[PosAt(level, vp)]
        invariant !alloc ==> tables == old(tables) && free == old(free) && spaces == old(spaces)
      {
        ghost var q := PosAt(level, vp);
        var i := PX(level, vp);
        InnerAt(tables, free, spaces, root, q, i);
        if tables[t][i].valid {
          t := tables[t][i].ppn;
        } else {
          NoPath(tables, free, spaces, root, vp, level);
          if !alloc {
            return 0;
          }
          t := NewTable(root, t, i, q);
          if t == 0 {
            return;
          }
        }
        level := level - 1;
      }
      LeafAt(tables, free, spaces, root, vp);
    }

    /** Writes the entry for page vp in its table page. */
    method SetEntry(root: nat, vp: nat, t: nat, e: Pte)
      requires Valid() && root in spaces && vp < VPAGES && LowOf(vp) in spaces[root].at &&
        t == spaces[root].at[LowOf(vp)]
      requires e.valid ==> HasRWX(e.perm)
      modifies this`tables, this`spaces
      ensures Valid() && spaces == old(spaces)[root := Mapped(old(spaces)[root], vp, e)]
    {
      hide Kernel, SpaceOk, L2, L1, L0;
      KernelMapped(tables, free, spaces, root, vp, e);
      tables := tables[t := tables[t][L0(vp) := e]];
      spaces := spaces[root := Mapped(spaces[root], vp, e)];
    }

    /** Maps n pages from vp on; k of them are mapped when it gives up. */
    method Mappages(root: nat, vp: nat, n: nat, ppn: nat, perm: nat) returns (ok: bool, ghost k: nat)
      requires Valid() && root in spaces && n >= 1 && vp + n <= VPAGES && HasRWX(perm)
      requires forall x :: vp <= x < vp + n ==> x !in spaces[root].flat
      modifies this`tables, this`free, this`spaces
      ensures Valid() && SameElse(old(spaces), spaces, root)
      ensures TablesFrom(old(free), old(spaces)[root].pos.Keys, free, spaces[root].pos.Keys)
      ensures spaces[root].flat == MapRange(old(spaces)[root].flat, vp, k, ppn, perm)
      ensures if ok then k == n else k < n && free == {}
    {
      hide Kernel, L0, L1, L2, HasRWX, LowOf, MapRange;
      ghost var flat := spaces[root].flat;
      var a, last, pa := vp, vp + n - 1, ppn;
      k := 0;
      NoneMapped(flat, vp, ppn, perm);
      while true
        invariant k < n && a == vp + k && pa == ppn + k && last == vp + n - 1
        invariant Valid() && SameElse(old(spaces), spaces, root)
        invariant TablesFrom(old(free), old(spaces)[root].pos.Keys, free, spaces[root].pos.Keys)
        invariant spaces[root].flat == MapRange(flat, vp, k, ppn, perm)
        decreases n - k
      {
        var t: nat := Walk(root, a, true);
        if t == 0 {
          return false, k;
        }
        MapRangeAt(flat, vp, k, ppn, perm, a);
        NextMapped(flat, vp, k, ppn, perm);
        SetEntry(root, a, t, Pte(pa, true, perm));
        k := k + 1;
        if a == last {
          break;
        }
        a, pa := a + 1, pa + 1;
      }
      return true, k;
    }

    /** Removes the mappings from vp to vp + n, and gives their pages back if doFree. */
    method Uvmunmap(root: nat, vp: nat, n: nat, doFree: bool)
      requires Valid() && root in spaces && vp + n <= VPAGES &&
        (doFree ==> OwnLeaves(spaces[root].flat, vp, n, free, spaces))
      modifies this`tables, this`free, this`spaces
      ensures Valid()
      ensures spaces == old(spaces)[root := old(spaces)[root].(flat := old(spaces)[root].flat - Span(vp, n))]
      ensures free == old(free) + (if doFree then LeafPages(old(spaces)[root].flat, vp, n) else {})
    {
      hide Kernel, L0, L1, L2, LowOf, Span, LeafPages, OwnLeaves, Loose;
      ghost var sp := spaces[root];
      NothingRemoved(sp.flat, vp);
      for k := 0 to n
        invariant Valid() && root in spaces && spaces == old(spaces)[root := sp.(flat := sp.flat - Span(vp, k))]
        invariant free == old(free) + (if doFree then LeafPages(sp.flat, vp, k) else {})
      {
        var a := vp + k;
        VpnSplit(a);
        SpanAt(vp, k, a);
        NextRemoved(sp.flat, vp, k);
        var t: nat := Walk(root, a, false);
        if t != 0 && tables[t][L0(a)].valid {
          if doFree {
            StillLoose(sp.flat, vp, n, old(free), old(spaces), root, spaces, k);
            Kfree(tables[t][L0(a)].ppn);
          }
          SetEntry(root, a, t, EMPTY);
        }
      }
    }

    /** Copies the parent's first n pages, mappings and contents, into the child; undoes it all if memory runs out. */
    method Uvmcopy(parent: nat, child: nat, n: nat) returns (ok: bool)
      requires Valid() && parent in spaces && child in spaces && parent != child && n <= VPAGES
      requires forall x :: 0 <= x < n ==> x !in spaces[child].flat
      requires forall x :: x in spaces[parent].flat && x < n ==>
        spaces[parent].flat[x].ppn in data && spaces[parent].flat[x].ppn !in free
      modifies this
      ensures Valid() && SameElse(old(spaces), spaces, child) && DataKept(old(data), data, old(free))
      ensures ok ==> FlatCopied(spaces[parent].flat, old(spaces)[child].flat, spaces[child].flat, n)
      ensures ok ==> PagesCopied(spaces[parent].flat, spaces[child].flat, n, old(data), data, old(free))
      ensures ok ==> OwnLeaves(spaces[child].flat, 0, n, free, spaces)
      ensures ok ==>
        TablesFrom(old(free) - LeafPages(spaces[child].flat, 0, n), old(spaces)[child].pos.Keys, free,
          spaces[child].pos.Keys)
      ensures !ok ==> spaces[child].flat == old(spaces)[child].flat
      ensures !ok ==> TablesFrom(old(free), old(spaces)[child].pos.Keys, free, spaces[child].pos.Keys)
      ensures !ok ==> Exhausted(free, spaces[parent].flat, n)
    {
      hide Kernel, L0, L1, L2, LowOf, HasRWX, Span, LeafPages, OwnLeaves, Loose, MapRange, FlatCopied, PagesCopied,
        DataKept, TablesFrom, Exhausted, AtMostOne;
      ghost var fo, fc := spaces[parent].flat, spaces[child].flat;
      CopyNothing(fo, fc, data, free, spaces, child);
      for i := 0 to n
        invariant Valid() && SameElse(old(spaces), spaces, child) && DataKept(old(data), data, old(free))
        invariant FlatCopied(fo, fc, spaces[child].flat, i) &&
          PagesCopied(fo, spaces[child].flat, i, old(data), data, old(free))
        invariant OwnLeaves(spaces[child].flat, 0, i, free, spaces)
        invariant TablesFrom(old(free) - LeafPages(spaces[child].flat, 0, i), old(spaces)[child].pos.Keys, free,
          spaces[child].pos.Keys)
      {
        VpnSplit(i);
        NotYet(fo, fc, spaces[child].flat, i);
        var t: nat := Walk(parent, i, false);
        if t == 0 || !tables[t][L0(i)].valid {
          CopySkip(fo, fc, spaces[child].flat, i, old(data), data, old(free), free, spaces);
          continue;
        }
        var done := CopyPage(parent, child, i, tables[t][L0(i)], fc, old(data), old(free), old(spaces)[child].pos.Keys);
        if !done {
          CopiedCount(fo, fc, spaces[child].flat, i, n, free);
          UndoCopy(child, i, fo, fc, old(data), old(free), old(spaces)[child].pos.Keys);
          return false;
        }
      }
      return true;
    }

    /** uvmcopy's way out: the child's new mappings go, and their pages return to the pool. */
    method UndoCopy(child: nat, i: nat, ghost fo: map<nat, Leaf>, ghost fc: map<nat, Leaf>,
        ghost data0: map<nat, seq<int>>, ghost free0: set<nat>, ghost pages0: set<nat>)
      requires Valid() && child in spaces && i <= VPAGES && forall x :: 0 <= x < i ==> x !in fc
      requires FlatCopied(fo, fc, spaces[child].flat, i) && PagesCopied(fo, spaces[child].flat, i, data0, data, free0)
      requires OwnLeaves(spaces[child].flat, 0, i, free, spaces)
      requires TablesFrom(free0 - LeafPages(spaces[child].flat, 0, i), pages0, free, spaces[child].pos.Keys)
      modifies this`tables, this`free, this`spaces
      ensures Valid() && SameElse(old(spaces), spaces, child) && spaces[child].flat == fc
      ensures free == old(free) + LeafPages(old(spaces)[child].flat, 0, i)
      ensures TablesFrom(free0, pages0, free, spaces[child].pos.Keys)
    {
      hide Kernel, Span, LeafPages, OwnLeaves, FlatCopied, PagesCopied, TablesFrom;
      FromPool(fo, fc, spaces[child].flat, i, data0, data, free0);
      CopyUndone(fo, fc, spaces[child].flat, i, free0, pages0, free, spaces[child].pos.Keys);
      Uvmunmap(child, 0, i, true);
    }

    /** One turn of uvmcopy's loop: a new page, the contents, the mapping; on failure the page is given back. */
    method CopyPage(parent: nat, child: nat, i: nat, e: Pte, ghost fc: map<nat, Leaf>, ghost data0: map<nat, seq<int>>,
        ghost free0: set<nat>,
                    ghost pages0: set<nat>) returns (done: bool)
      requires Valid() && parent in spaces && child in spaces && parent != child && i < VPAGES && e.valid &&
        LeafOk(e, spaces[parent].flat, i)
      requires i !in spaces[child].flat && i !in fc && e.ppn in data0 && e.ppn !in free0
      requires FlatCopied(spaces[parent].flat, fc, spaces[child].flat, i) &&
        PagesCopied(spaces[parent].flat, spaces[child].flat, i, data0, data, free0)
      requires OwnLeaves(spaces[child].flat, 0, i, free, spaces) && DataKept(data0, data, free0)
      requires TablesFrom(free0 - LeafPages(spaces[child].flat, 0, i), pages0, free, spaces[child].pos.Keys)
      modifies this
      ensures Valid() && SameElse(old(spaces), spaces, child) && DataKept(data0, data, free0)
      ensures FlatCopied(spaces[parent].flat, fc, spaces[child].flat, if done then i + 1 else i)
      ensures PagesCopied(spaces[parent].flat, spaces[child].flat, if done then i + 1 else i, data0, data, free0)
      ensures OwnLeaves(spaces[child].flat, 0, if done then i + 1 else i, free, spaces)
      ensures TablesFrom(free0 - LeafPages(spaces[child].flat, 0, if done then i + 1 else i), pages0, free,
        spaces[child].pos.Keys)
      ensures !done ==> AtMostOne(free)
    {
      hide Kernel, Span, LeafPages, OwnLeaves, MapRange, FlatCopied, PagesCopied, DataKept, TablesFrom;
      var mem: nat := Kalloc();
      if mem == 0 {
        return false;
      }
      FreshPage(spaces[child].flat, i, free0, pages0, old(free), spaces[child].pos.Keys, mem);
      KeptAt(data0, data, free0, e.ppn);
      CopyData(spaces[parent].flat, spaces[child].flat, i, data0, data, free0, old(free), spaces, mem, data[e.ppn]);
      data := data[mem := data[e.ppn]];
      ghost var fl := spaces[child].flat;
      ghost var before := spaces;
      ghost var free1 := free;
      MapOne(fl, i, mem, e.perm);
      var ok, k := Mappages(child, i, 1, mem, e.perm);
      if !ok {
        CopyFailed(fl, i, free0, pages0, old(free), free1, free, before, spaces, child, mem);
        Kfree(mem);
        return false;
      }
      CopyStep(spaces[parent].flat, fc, fl, i, e, mem, data0, data, free0, pages0, old(free), free1, free, before,
        spaces, child);
      return true;
    }

    /** An empty page table, 0 if there is no page for it. */
    method Uvmcreate() returns (root: nat)
      requires Valid()
      modifies this`tables, this`free, this`spaces
      ensures Valid() && (root == 0 <==> old(free) == {}) && (root == 0 ==> free == old(free) && spaces == old(spaces))
      ensures root != 0 ==>
        root !in old(spaces) && spaces == old(spaces)[root := NewSpace(root)] && free == old(free) - {root}
    {
      hide Separate, Spaces;
      root := Kalloc();
      if root != 0 {
        KernelCreated(tables, free, spaces, root);
        tables := tables[root := EmptyTable()];
        spaces := spaces[root := NewSpace(root)];
      }
    }

    /** Frees the table page p at position q and all below it, which hold no leaf entries any more. */
    method Freewalk(p: nat, ghost sp: Space, ghost q: Pos)
      requires Valid() && Placed(sp) && sp.flat == map[] && q in sp.at && p == sp.at[q]
      requires Intact(tables, free, spaces, sp, Below(sp, q))
      modifies this`tables, this`free
      ensures Valid() && free == old(free) + Below(sp, q) && SameOutside(old(tables), tables, Below(sp, q))
      decreases Height(q)
    {
      hide Kernel, PageOk, EntryOk, Below, Done, Loose, Intact, SameOutside, Placed, Under, Towards;
      FirstPage(tables, free, spaces, sp, q);
      for i := 0 to ENTRIES
        invariant Valid() && free == old(free) + Done(sp, q, i) && p in tables &&
          SameOutside(old(tables), tables, Done(sp, q, i) + {p})
        invariant forall j :: i <= j < ENTRIES ==> EntryOk(tables[p][j], q, j, sp.at, sp.flat)
      {
        DoneNext(sp, q, i);
        FreeEntry(tables[p][i], sp, q, i);
        if tables[p][i].valid && !HasRWX(tables[p][i].perm) {
          ghost var before := tables;
          ChildIntact(old(tables), tables, old(free), free, spaces, sp, q, i);
          Freewalk(tables[p][i].ppn, sp, Child(q, i));
          ChildGone(old(tables), before, tables, sp, q, i);
          EntryCleared(old(tables), before, tables, sp, q, i);
          PageLast(old(free), spaces, sp, q);
          KernelOtherPage(tables, free, spaces, p, tables[p][i := EMPTY]);
          tables := tables[p := tables[p][i := EMPTY]];
        } else {
          assert Done(sp, q, i + 1) == Done(sp, q, i);
        }
      }
      AllDone(sp, q);
      PageLast(old(free), spaces, sp, q);
      Kfree(p);
    }

    /** Frees the first n pages' leaves and then the tables; no mapping may lie beyond them. */
    method Uvmfree(root: nat, n: nat)
      requires Valid() && root in spaces && n <= VPAGES && (forall x :: x in spaces[root].flat ==> x < n)
      requires OwnLeaves(spaces[root].flat, 0, n, free, spaces)
      modifies this`tables, this`free, this`spaces
      ensures Valid() && spaces == old(spaces) - {root}
      ensures free == old(free) + LeafPages(old(spaces)[root].flat, 0, n) + old(spaces)[root].pos.Keys
      ensures LeafPages(old(spaces)[root].flat, 0, n) !! old(spaces)[root].pos.Keys
    {
      hide Kernel, OwnLeaves, LeafPages, Span, SpaceOk, Below, Intact;
      LeavesApart(spaces[root].flat, n, free, spaces, root);
      EmptyAfter(spaces[root].flat, n);
      if n > 0 {
        Uvmunmap(root, 0, n, true);
      } else {
        NothingRemoved(spaces[root].flat, 0);
        assert spaces[root := spaces[root].(flat := spaces[root].flat - Span(0, n))] == spaces;
      }
      ghost var sp := spaces[root];
      Released(tables, free, spaces, root);
      spaces := spaces - {root};
      Freewalk(root, sp, Root);
      assert spaces == old(spaces) - {root};
    }
  }

  lemma RootAt(tables: map<nat, Table>, free: set<nat>, spaces: map<nat, Space>, r: nat)
    requires Kernel(tables, free, spaces) && r in spaces
    ensures Root in spaces[r].at && spaces[r].at[Root] == r && r != 0
  {
  }

  lemma InnerAt(tables: map<nat, Table>, free: set<nat>, spaces: map<nat, Space>, r: nat, q: Pos, i: nat)
    requires Kernel(tables, free, spaces) && r in spaces && q in spaces[r].at && !q.Low? && i < ENTRIES
    ensures spaces[r].at[q] in tables && spaces[r].at[q] != 0
    ensures var e := tables[spaces[r].at[q]][i];
            (e.valid <==> Child(q, i) in spaces[r].at) && (e.valid ==> e.ppn == spaces[r].at[Child(q, i)])
  {
  }

  /** Where the path breaks off, no mapping is. */
  lemma NoPath(tables: map<nat, Table>, free: set<nat>, spaces: map<nat, Space>, r: nat, vp: nat, level: nat)
    requires Kernel(tables, free, spaces) && r in spaces && vp < VPAGES && 1 <= level <= 2 &&
      PosAt(level - 1, vp) !in spaces[r].at
    ensures LowOf(vp) !in spaces[r].at && vp !in spaces[r].flat
  {
  }

  lemma LeafAt(tables: map<nat, Table>, free: set<nat>, spaces: map<nat, Space>, r: nat, vp: nat)
    requires Kernel(tables, free, spaces) && r in spaces && vp < VPAGES && LowOf(vp) in spaces[r].at
    ensures spaces[r].at[LowOf(vp)] != 0 && spaces[r].at[LowOf(vp)] in tables && L0(vp) < ENTRIES
    ensures LeafOk(tables[spaces[r].at[LowOf(vp)]][L0(vp)], spaces[r].flat, vp)
  {
    hide SpaceOk, L2, L1, L0, Vpn;
    VpnSplit(vp);
    PlacedOf(tables, spaces[r]);
    EntryAt(tables, spaces[r], LowOf(vp), L0(vp));
  }

  lemma NoneMapped(flat: map<nat, Leaf>, vp: nat, ppn: nat, perm: nat)
    ensures MapRange(flat, vp, 0, ppn, perm) == flat
  {
  }

  lemma NextMapped(flat: map<nat, Leaf>, vp: nat, k: nat, ppn: nat, perm: nat)
    ensures MapRange(flat, vp, k + 1, ppn, perm) == MapRange(flat, vp, k, ppn, perm)[vp + k := Leaf(ppn + k, perm)]
  {
  }

  /** The pages mapped there belong to nobody else, and to one mapping each. */
  ghost predicate OwnLeaves(flat: map<nat, Leaf>, vp: nat, n: nat, free: set<nat>, spaces: map<nat, Space>) {
    && (forall x :: x in flat && vp <= x < vp + n ==> Loose(free, spaces, flat[x].ppn))
    && (forall x, y :: x in flat && y in flat && vp <= x < y < vp + n ==> flat[x].ppn != flat[y].ppn)
  }

  lemma NothingRemoved(flat: map<nat, Leaf>, vp: nat)
    ensures flat - Span(vp, 0) == flat && LeafPages(flat, vp, 0) == {}
  {
  }

  lemma NextRemoved(flat: map<nat, Leaf>, vp: nat, k: nat)
    ensures flat - Span(vp, k + 1) == (flat - Span(vp, k)) - {vp + k}
    ensures vp + k !in flat ==> flat - Span(vp, k + 1) == flat - Span(vp, k)
    ensures LeafPages(flat, vp, k + 1) == LeafPages(flat, vp, k) + (if vp + k in flat then {flat[vp + k].ppn} else {})
  {
  }

  lemma {:induction false} LeafPagesFrom(flat: map<nat, Leaf>, vp: nat, k: nat, p: nat)
    ensures p in LeafPages(flat, vp, k) <==> exists x :: x in flat && vp <= x < vp + k && flat[x].ppn == p
  {
    if k > 0 {
      LeafPagesFrom(flat, vp, k - 1, p);
    }
  }

  lemma StillLoose(flat: map<nat, Leaf>, vp: nat, n: nat, free: set<nat>, spaces: map<nat, Space>, root: nat,
      spaces': map<nat, Space>, k: nat)
    requires OwnLeaves(flat, vp, n, free, spaces) && k < n && vp + k in flat && root in spaces
    requires spaces'.Keys == spaces.Keys && forall r :: r in spaces ==> spaces'[r].pos == spaces[r].pos
    ensures Loose(free + LeafPages(flat, vp, k), spaces', flat[vp + k].ppn)
  {
    LeafPagesFrom(flat, vp, k, flat[vp + k].ppn);
  }

  // ----------------------------------------------------------------------- copying an address space

  /** Below i the child has the parent's mappings with the same flags; from i on it is as before. */
  ghost predicate FlatCopied(fo: map<nat, Leaf>, fc0: map<nat, Leaf>, fc: map<nat, Leaf>, i: nat) {
    && (forall x :: x in fc && x < i ==> x in fo && fc[x].perm == fo[x].perm)
    && (forall x :: x in fo && x < i ==> x in fc)
    && (forall x :: x in fc && x >= i ==> x in fc0 && fc[x] == fc0[x])
    && (forall x :: x in fc0 && x >= i ==> x in fc)
  }

  /** Below i the child's pages come from the pool and hold what the parent's hold. */
  ghost predicate PagesCopied(fo: map<nat, Leaf>, fc: map<nat, Leaf>, i: nat, data0: map<nat, seq<int>>,
      data: map<nat, seq<int>>, free0: set<nat>)
  {
    forall x :: x in fc && x in fo && x < i ==>
      fc[x].ppn in free0 && fc[x].ppn in data && fo[x].ppn in data0 && data[fc[x].ppn] == data0[fo[x].ppn]
  }

  /** Contents change only in pages from the pool. */
  ghost predicate DataKept(data0: map<nat, seq<int>>, data: map<nat, seq<int>>, free0: set<nat>) {
    forall p :: p in data0 && p !in free0 ==> p in data && data[p] == data0[p]
  }

  lemma KeptAt(data0: map<nat, seq<int>>, data: map<nat, seq<int>>, free0: set<nat>, p: nat)
    requires DataKept(data0, data, free0) && p in data0 && p !in free0
    ensures p in data && data[p] == data0[p]
  {
  }

  lemma CopyNothing(fo: map<nat, Leaf>, fc: map<nat, Leaf>, data: map<nat, seq<int>>, free: set<nat>,
      spaces: map<nat, Space>, child: nat)
    requires child in spaces
    ensures FlatCopied(fo, fc, fc, 0) && PagesCopied(fo, fc, 0, data, data, free) && DataKept(data, data, free) &&
      OwnLeaves(fc, 0, 0, free, spaces)
    ensures TablesFrom(free - LeafPages(fc, 0, 0), spaces[child].pos.Keys, free, spaces[child].pos.Keys)
  {
  }

  lemma NotYet(fo: map<nat, Leaf>, fc0: map<nat, Leaf>, fc: map<nat, Leaf>, i: nat)
    requires FlatCopied(fo, fc0, fc, i) && i !in fc0
    ensures i !in fc
  {
  }

  lemma CopySkip(fo: map<nat, Leaf>, fc0: map<nat, Leaf>, fc: map<nat, Leaf>, i: nat, data0: map<nat, seq<int>>,
      data: map<nat, seq<int>>,
                 free0: set<nat>, free: set<nat>, spaces: map<nat, Space>)
    requires FlatCopied(fo, fc0, fc, i) && PagesCopied(fo, fc, i, data0, data, free0) &&
      OwnLeaves(fc, 0, i, free, spaces) && i !in fo && i !in fc0
    ensures FlatCopied(fo, fc0, fc, i + 1) && PagesCopied(fo, fc, i + 1, data0, data, free0) &&
      OwnLeaves(fc, 0, i + 1, free, spaces)
    ensures LeafPages(fc, 0, i + 1) == LeafPages(fc, 0, i)
  {
  }

  lemma CopyUndone(fo: map<nat, Leaf>, fc0: map<nat, Leaf>, fc: map<nat, Leaf>, i: nat, free0: set<nat>,
      pages0: set<nat>, free: set<nat>, pages: set<nat>)
    requires FlatCopied(fo, fc0, fc, i) && TablesFrom(free0 - LeafPages(fc, 0, i), pages0, free, pages)
    requires forall x :: 0 <= x < i ==> x !in fc0
    requires LeafPages(fc, 0, i) <= free0
    ensures fc - Span(0, i) == fc0 && TablesFrom(free0, pages0, free + LeafPages(fc, 0, i), pages)
  {
    forall x: nat
      ensures x in Span(0, i) <==> x < i
    {
      SpanAt(0, i, x);
    }
    assert free0 - (free + LeafPages(fc, 0, i)) == (free0 - LeafPages(fc, 0, i)) - free;
  }

  /** The pages the copy has mapped so far came from the pool. */
  lemma FromPool(fo: map<nat, Leaf>, fc0: map<nat, Leaf>, fc: map<nat, Leaf>, i: nat, data0: map<nat, seq<int>>,
      data: map<nat, seq<int>>, free0: set<nat>)
    requires FlatCopied(fo, fc0, fc, i) && PagesCopied(fo, fc, i, data0, data, free0)
    ensures LeafPages(fc, 0, i) <= free0
  {
    hide LeafPages;
    forall p | p in LeafPages(fc, 0, i)
      ensures p in free0
    {
      LeafPagesFrom(fc, 0, i, p);
    }
  }

  lemma MapOne(flat: map<nat, Leaf>, vp: nat, ppn: nat, perm: nat)
    ensures MapRange(flat, vp, 0, ppn, perm) == flat && MapRange(flat, vp, 1, ppn, perm) == flat[vp := Leaf(ppn, perm)]
  {
  }

  /** A page from what is left of the pool is in the pool and not yet used. */
  lemma FreshPage(fl: map<nat, Leaf>, i: nat, free0: set<nat>, pages0: set<nat>, free: set<nat>, pages: set<nat>,
      mem: nat)
    requires TablesFrom(free0 - LeafPages(fl, 0, i), pages0, free, pages) && mem in free
    ensures mem in free0 && mem !in LeafPages(fl, 0, i)
    ensures TablesFrom(free0 - (LeafPages(fl, 0, i) + {mem}), pages0, free - {mem}, pages)
  {
  }

  lemma CopyData(fo: map<nat, Leaf>, fl: map<nat, Leaf>, i: nat, data0: map<nat, seq<int>>, data: map<nat, seq<int>>,
      free0: set<nat>,
                 free: set<nat>, spaces: map<nat, Space>, mem: nat, v: seq<int>)
    requires PagesCopied(fo, fl, i, data0, data, free0) && DataKept(data0, data, free0) &&
      OwnLeaves(fl, 0, i, free, spaces)
    requires mem in free && mem in free0
    ensures PagesCopied(fo, fl, i, data0, data[mem := v], free0) && DataKept(data0, data[mem := v], free0)
  {
  }

  lemma LooseMoves(free: set<nat>, spaces: map<nat, Space>, free': set<nat>, spaces': map<nat, Space>, child: nat,
      p: nat)
    requires Loose(free, spaces, p) && SameElse(spaces, spaces', child) &&
      TablesFrom(free, spaces[child].pos.Keys, free', spaces'[child].pos.Keys)
    ensures Loose(free', spaces', p)
  {
  }

  lemma OwnMoves(fl: map<nat, Leaf>, i: nat, mem: nat, free: set<nat>, spaces: map<nat, Space>, free': set<nat>,
      spaces': map<nat, Space>, child: nat)
    requires OwnLeaves(fl, 0, i, free, spaces) && mem in free && SameElse(spaces, spaces', child)
    requires TablesFrom(free - {mem}, spaces[child].pos.Keys, free', spaces'[child].pos.Keys)
    ensures OwnLeaves(fl, 0, i, free', spaces') && OwnLeaves(fl, 0, i, free' + {mem}, spaces')
    ensures forall x :: x in fl && x < i ==> fl[x].ppn != mem
  {
  }

  lemma CopyFailed(fl: map<nat, Leaf>, i: nat, free0: set<nat>, pages0: set<nat>, free: set<nat>, free1: set<nat>,
      free2: set<nat>,
                   spaces: map<nat, Space>, spaces2: map<nat, Space>, child: nat, mem: nat)
    requires OwnLeaves(fl, 0, i, free, spaces) && mem in free && free1 == free - {mem} && Loose(free1, spaces, mem)
    requires SameElse(spaces, spaces2, child) &&
      TablesFrom(free1, spaces[child].pos.Keys, free2, spaces2[child].pos.Keys)
    requires TablesFrom(free0 - LeafPages(fl, 0, i), pages0, free, spaces[child].pos.Keys)
    ensures Loose(free2, spaces2, mem) && OwnLeaves(fl, 0, i, free2 + {mem}, spaces2)
    ensures TablesFrom(free0 - LeafPages(fl, 0, i), pages0, free2 + {mem}, spaces2[child].pos.Keys)
  {
    hide OwnLeaves, LeafPages, Loose;
    OwnMoves(fl, i, mem, free, spaces, free2, spaces2, child);
    LooseMoves(free1, spaces, free2, spaces2, child, mem);
    TablesTwice(free0 - LeafPages(fl, 0, i), pages0, free, spaces[child].pos.Keys, free2 + {mem},
      spaces2[child].pos.Keys, {mem});
  }

  lemma TablesTwice(f0: set<nat>, p0: set<nat>, f1: set<nat>, p1: set<nat>, f2: set<nat>, p2: set<nat>, kept: set<nat>)
    requires TablesFrom(f0, p0, f1, p1) && kept <= f1 && kept <= f2 && TablesFrom(f1 - kept, p1, f2 - kept, p2)
    ensures TablesFrom(f0, p0, f2, p2)
  {
    assert (f1 - kept) - (f2 - kept) == f1 - f2;
    assert f0 - f2 == (f0 - f1) + (f1 - f2);
  }

  lemma {:induction false} LeafPagesFrame(fl: map<nat, Leaf>, i: nat, k: nat, v: Leaf)
    requires k <= i
    ensures LeafPages(fl[i := v], 0, k) == LeafPages(fl, 0, k)
  {
    if k > 0 {
      LeafPagesFrame(fl, i, k - 1, v);
    }
  }

  lemma CopyStep(fo: map<nat, Leaf>, fc: map<nat, Leaf>, fl: map<nat, Leaf>, i: nat, e: Pte, mem: nat,
      data0: map<nat, seq<int>>, data: map<nat, seq<int>>,
                 free0: set<nat>, pages0: set<nat>, free: set<nat>, free1: set<nat>, free2: set<nat>,
                   spaces: map<nat, Space>, spaces2: map<nat, Space>, child: nat)
    requires FlatCopied(fo, fc, fl, i) && PagesCopied(fo, fl, i, data0, data, free0) &&
      OwnLeaves(fl, 0, i, free, spaces)
    requires e.valid && LeafOk(e, fo, i) && i !in fl && i !in fc && e.ppn in data0 && mem in data &&
      data[mem] == data0[e.ppn]
    requires mem in free && free1 == free - {mem} && Loose(free1, spaces, mem) && mem in free0 &&
      mem !in LeafPages(fl, 0, i)
    requires SameElse(spaces, spaces2, child) &&
      TablesFrom(free1, spaces[child].pos.Keys, free2, spaces2[child].pos.Keys)
    requires TablesFrom(free0 - (LeafPages(fl, 0, i) + {mem}), pages0, free1, spaces[child].pos.Keys)
    ensures var fl' := fl[i := Leaf(mem, e.perm)];
            && FlatCopied(fo, fc, fl', i + 1) && PagesCopied(fo, fl', i + 1, data0, data, free0) &&
              OwnLeaves(fl', 0, i + 1, free2, spaces2)
            && TablesFrom(free0 - LeafPages(fl', 0, i + 1), pages0, free2, spaces2[child].pos.Keys)
  {
    hide LeafPages, Loose, OwnLeaves, TablesFrom, FlatCopied, PagesCopied;
    var fl' := fl[i := Leaf(mem, e.perm)];
    CopyOneMore(fo, fc, fl, i, e, mem, data0, data, free0);
    OwnMoves(fl, i, mem, free, spaces, free2, spaces2, child);
    LooseMoves(free1, spaces, free2, spaces2, child, mem);
    OwnOneMore(fl, i, Leaf(mem, e.perm), free2, spaces2);
    LeafPagesFrame(fl, i, i, Leaf(mem, e.perm));
    NextRemoved(fl', 0, i);
    assert LeafPages(fl', 0, i + 1) == LeafPages(fl, 0, i) + {mem};
    assert free1 - {} == free1 && free2 - {} == free2;
    TablesTwice(free0 - (LeafPages(fl, 0, i) + {mem}), pages0, free1, spaces[child].pos.Keys, free2,
      spaces2[child].pos.Keys, {});
  }

  lemma CopyOneMore(fo: map<nat, Leaf>, fc: map<nat, Leaf>, fl: map<nat, Leaf>, i: nat, e: Pte, mem: nat,
      data0: map<nat, seq<int>>, data: map<nat, seq<int>>,
                    free0: set<nat>)
    requires FlatCopied(fo, fc, fl, i) && PagesCopied(fo, fl, i, data0, data, free0) && i !in fl && i !in fc
    requires e.valid && LeafOk(e, fo, i) && e.ppn in data0 && mem in data && data[mem] == data0[e.ppn] && mem in free0
    ensures FlatCopied(fo, fc, fl[i := Leaf(mem, e.perm)], i + 1) &&
      PagesCopied(fo, fl[i := Leaf(mem, e.perm)], i + 1, data0, data, free0)
  {
  }

  lemma OwnOneMore(fl: map<nat, Leaf>, i: nat, v: Leaf, free: set<nat>, spaces: map<nat, Space>)
    requires OwnLeaves(fl, 0, i, free, spaces) && Loose(free, spaces, v.ppn) && forall x :: x in fl && x < i ==>
      fl[x].ppn != v.ppn
    ensures OwnLeaves(fl[i := v], 0, i + 1, free, spaces)
  {
  }

  // ----------------------------------------------------------------------- freeing an address space

  function Height(q: Pos): nat {
    if q.Root? then 2 else if q.Mid? then 1 else 0
  }

  /** r is the position q or one below it. */
  predicate Under(q: Pos, r: Pos) {
    q == r || q.Root? || (q.Mid? && r.Low? && r.a == q.a)
  }

  /** The entry of q that leads towards r. */
  function Towards(q: Pos, r: Pos): nat {
    match q
    case Root => if r.Root? then 0 else r.a
    case Mid(_) => if r.Low? then r.b else 0
    case Low(_, _) => 0
  }

  ghost function Below(sp: Space, q: Pos): set<nat> {
    set x | x in sp.pos && Under(q, sp.pos[x])
  }

  /** The pages below the first i entries of q. */
  ghost function Done(sp: Space, q: Pos, i: nat): set<nat> {
    set x | x in sp.pos && Under(q, sp.pos[x]) && sp.pos[x] != q && Towards(q, sp.pos[x]) < i
  }

  ghost predicate IntactAt(tables: map<nat, Table>, free: set<nat>, spaces: map<nat, Space>, sp: Space, x: nat) {
    x in sp.pos && x in tables && PageOk(tables[x], sp.pos[x], sp.at, sp.flat) && Loose(free, spaces, x)
  }

  ghost predicate Intact(tables: map<nat, Table>, free: set<nat>, spaces: map<nat, Space>, sp: Space, pages: set<nat>) {
    forall x :: x in pages ==> IntactAt(tables, free, spaces, sp, x)
  }

  ghost predicate SameOutside(tables: map<nat, Table>, tables': map<nat, Table>, pages: set<nat>) {
    forall x :: x in tables ==> x in tables' && (x !in pages ==> tables'[x] == tables[x])
  }

  lemma FirstPage(tables: map<nat, Table>, free: set<nat>, spaces: map<nat, Space>, sp: Space, q: Pos)
    requires Placed(sp) && q in sp.at && Intact(tables, free, spaces, sp, Below(sp, q))
    ensures Done(sp, q, 0) == {} && sp.at[q] in tables && Loose(free, spaces, sp.at[q])
    ensures forall j :: 0 <= j < ENTRIES ==> EntryOk(tables[sp.at[q]][j], q, j, sp.at, sp.flat)
    ensures Intact(tables, free, spaces, sp, Below(sp, q) - Done(sp, q, 0) - {sp.at[q]})
    ensures SameOutside(tables, tables, Below(sp, q)) && SameOutside(tables, tables, Done(sp, q, 0) + {sp.at[q]})
  {
    hide EntryOk, Loose;
    assert sp.at[q] in Below(sp, q);
    assert IntactAt(tables, free, spaces, sp, sp.at[q]);
  }

  lemma DoneNext(sp: Space, q: Pos, i: nat)
    requires Placed(sp) && q in sp.at
    ensures !q.Low? ==>
      Done(sp, q, i + 1) == Done(sp, q, i) + Below(sp, Child(q, i)) && Done(sp, q, i) !! Below(sp, Child(q, i)) &&
      Below(sp, Child(q, i)) <= Below(sp, q)
    ensures !q.Low? ==> sp.at[q] !in Below(sp, Child(q, i))
    ensures q.Low? ==> Done(sp, q, i + 1) == Done(sp, q, i)
    ensures Done(sp, q, i) <= Below(sp, q) && sp.at[q] in Below(sp, q) && sp.at[q] !in Done(sp, q, i)
  {
  }

  lemma AllDone(sp: Space, q: Pos)
    requires Placed(sp) && q in sp.at
    ensures Below(sp, q) == Done(sp, q, ENTRIES) + {sp.at[q]}
  {
  }

  /** Without leaf mappings a valid entry is a pointer to a table page. */
  lemma FreeEntry(e: Pte, sp: Space, q: Pos, i: nat)
    requires Placed(sp) && q in sp.at && i < ENTRIES && EntryOk(e, q, i, sp.at, sp.flat) && sp.flat == map[]
    ensures e.valid ==>
      !HasRWX(e.perm) && !q.Low? && Child(q, i) in sp.at && e.ppn == sp.at[Child(q, i)] &&
      Height(Child(q, i)) < Height(q)
    ensures !e.valid && !q.Low? ==> Below(sp, Child(q, i)) == {}
  {
  }

  /** What is below an entry is untouched until the loop gets there. */
  lemma ChildIntact(tables: map<nat, Table>, tables': map<nat, Table>, free: set<nat>, free': set<nat>,
      spaces: map<nat, Space>, sp: Space, q: Pos, i: nat)
    requires Placed(sp) && q in sp.at && !q.Low? && Intact(tables, free, spaces, sp, Below(sp, q))
    requires SameOutside(tables, tables', Done(sp, q, i) + {sp.at[q]}) && free' == free + Done(sp, q, i)
    ensures Intact(tables', free', spaces, sp, Below(sp, Child(q, i)))
  {
    hide PageOk, Placed, Below, Done, Under, Towards;
    DoneNext(sp, q, i);
    forall x | x in Below(sp, Child(q, i))
      ensures IntactAt(tables', free', spaces, sp, x)
    {
      assert IntactAt(tables, free, spaces, sp, x);
    }
  }

  lemma ChildGone(tables: map<nat, Table>, before: map<nat, Table>, after: map<nat, Table>, sp: Space, q: Pos, i: nat)
    requires Placed(sp) && q in sp.at && !q.Low? && sp.at[q] in before
    requires SameOutside(tables, before, Done(sp, q, i) + {sp.at[q]}) &&
      SameOutside(before, after, Below(sp, Child(q, i)))
    ensures SameOutside(tables, after, Done(sp, q, i + 1) + {sp.at[q]})
    ensures sp.at[q] in after && after[sp.at[q]] == before[sp.at[q]]
  {
  }

  lemma EntryCleared(tables: map<nat, Table>, before: map<nat, Table>, after: map<nat, Table>, sp: Space, q: Pos,
      i: nat)
    requires Placed(sp) && q in sp.at && i < ENTRIES && sp.at[q] in before && sp.at[q] in after
    requires after[sp.at[q]] == before[sp.at[q]] && SameOutside(tables, after, Done(sp, q, i + 1) + {sp.at[q]})
    requires forall j :: i <= j < ENTRIES ==> EntryOk(before[sp.at[q]][j], q, j, sp.at, sp.flat)
    ensures var p := sp.at[q];
            var after' := after[p := after[p][i := EMPTY]];
            && SameOutside(tables, after', Done(sp, q, i + 1) + {p})
            && forall j :: i + 1 <= j < ENTRIES ==> EntryOk(after'[p][j], q, j, sp.at, sp.flat)
  {
  }

  lemma PageLast(free: set<nat>, spaces: map<nat, Space>, sp: Space, q: Pos)
    requires Placed(sp) && q in sp.at && Loose(free, spaces, sp.at[q])
    ensures Loose(free + Done(sp, q, ENTRIES), spaces, sp.at[q])
  {
  }

  lemma LeavesApart(flat: map<nat, Leaf>, n: nat, free: set<nat>, spaces: map<nat, Space>, root: nat)
    requires OwnLeaves(flat, 0, n, free, spaces) && root in spaces
    ensures LeafPages(flat, 0, n) !! spaces[root].pos.Keys
  {
  }

  lemma EmptyAfter(flat: map<nat, Leaf>, n: nat)
    requires forall x :: x in flat ==> x < n
    ensures flat - Span(0, n) == map[]
  {
    forall x: nat
      ensures x in Span(0, n) <==> x < n
    {
      SpanAt(0, n, x);
    }
  }

  /** A space that is given up: its table pages belong to nobody, and are all below its root. */
  lemma Released(tables: map<nat, Table>, free: set<nat>, spaces: map<nat, Space>, r: nat)
    requires Kernel(tables, free, spaces) && r in spaces
    ensures Kernel(tables, free, spaces - {r}) && Placed(spaces[r]) && Root in spaces[r].at && r == spaces[r].at[Root]
    ensures Below(spaces[r], Root) == spaces[r].pos.Keys
    ensures Intact(tables, free, spaces - {r}, spaces[r], Below(spaces[r], Root))
  {
  }
}
