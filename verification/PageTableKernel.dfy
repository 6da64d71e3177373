/** All address spaces together with the pool of free pages. */
module PageTableKernel {
  import opened PageTableModel

  /** No table page is shared or free. */
  ghost predicate Separate(free: set<nat>, spaces: map<nat, Space>) {
    && 0 !in free
    && (forall r, p :: r in spaces && p in spaces[r].pos ==> p !in free && p != 0)
    && (forall r, s, p :: r in spaces && s in spaces && p in spaces[r].pos && p in spaces[s].pos ==> r == s)
  }

  ghost predicate Spaces(tables: map<nat, Table>, spaces: map<nat, Space>) {
    forall r :: r in spaces ==> spaces[r].root == r && SpaceOk(tables, spaces[r])
  }

  ghost predicate Kernel(tables: map<nat, Table>, free: set<nat>, spaces: map<nat, Space>) {
    Separate(free, spaces) && Spaces(tables, spaces)
  }

  /** A page that is neither free nor a table page, nor the null page. */
  ghost predicate Loose(free: set<nat>, spaces: map<nat, Space>, p: nat) {
    p != 0 && p !in free && NoTable(spaces, p)
  }

  ghost predicate NoTable(spaces: map<nat, Space>, p: nat) {
    forall r :: r in spaces ==> p !in spaces[r].pos
  }

  /** A change of table pages of one space, and of a page that is no table, leaves the others alone. */
  lemma OthersKeep(tables: map<nat, Table>, tables': map<nat, Table>, free: set<nat>, spaces: map<nat, Space>, r: nat,
      sp: Space, n: nat)
    requires Kernel(tables, free, spaces) && r in spaces && sp.root == r && SpaceOk(tables', sp) && NoTable(spaces, n)
    requires forall p :: p in tables ==> p in tables' && (p !in spaces[r].pos && p != n ==> tables'[p] == tables[p])
    ensures Spaces(tables', spaces[r := sp])
  {
    hide SpaceOk;
    forall s | s in spaces && s != r
      ensures SpaceOk(tables', spaces[s])
    {
      assert forall p :: p in spaces[s].pos ==> p in tables by { hide Placed; PlacedOf(tables, spaces[s]); }
      SpaceFrame(tables, tables', spaces[s]);
    }
  }

  lemma KernelGrown(tables: map<nat, Table>, free: set<nat>, spaces: map<nat, Space>, r: nat, q: Pos, i: nat, p: nat)
    requires Kernel(tables, free, spaces) && r in spaces && q in spaces[r].at && !q.Low? && i < ENTRIES &&
      (q.Root? ==> i < TOP)
    requires Child(q, i) !in spaces[r].at && Loose(free, spaces, p)
    ensures spaces[r].at[q] in tables
    ensures Kernel(WithTable(tables, spaces[r].at[q], i, p), free, spaces[r := Grown(spaces[r], q, i, p)])
  {
    hide SpaceOk;
    GrownOk(tables, spaces[r], q, i, p);
    PlacedOf(tables, spaces[r]);
    OthersKeep(tables, WithTable(tables, spaces[r].at[q], i, p), free, spaces, r, Grown(spaces[r], q, i, p), p);
  }

  lemma KernelMapped(tables: map<nat, Table>, free: set<nat>, spaces: map<nat, Space>, r: nat, vp: nat, e: Pte)
    requires Kernel(tables, free, spaces) && r in spaces && vp < VPAGES && Low(L2(vp), L1(vp)) in spaces[r].at &&
      (e.valid ==> HasRWX(e.perm))
    ensures spaces[r].at[Low(L2(vp), L1(vp))] in tables && L0(vp) < ENTRIES
    ensures Kernel(WithEntry(tables, spaces[r].at[Low(L2(vp), L1(vp))], L0(vp), e), free,
      spaces[r := Mapped(spaces[r], vp, e)])
  {
    hide SpaceOk, L2, L1, L0;
    MappedOk(tables, spaces[r], vp, e);
    PlacedOf(tables, spaces[r]);
    OthersKeep(tables, WithEntry(tables, spaces[r].at[Low(L2(vp), L1(vp))], L0(vp), e), free, spaces, r,
      Mapped(spaces[r], vp, e), 0);
  }

  /** A page that is no table may change. */
  lemma KernelOtherPage(tables: map<nat, Table>, free: set<nat>, spaces: map<nat, Space>, p: nat, v: Table)
    requires Kernel(tables, free, spaces) && NoTable(spaces, p)
    ensures Kernel(tables[p := v], free, spaces)
  {
    hide SpaceOk;
    forall r | r in spaces
      ensures SpaceOk(tables[p := v], spaces[r])
    {
      PlacedOf(tables, spaces[r]);
      SpaceFrame(tables, tables[p := v], spaces[r]);
    }
  }

  lemma KernelFreed(tables: map<nat, Table>, free: set<nat>, spaces: map<nat, Space>, p: nat)
    requires Kernel(tables, free, spaces) && Loose(free, spaces, p)
    ensures Kernel(tables, free + {p}, spaces)
  {
  }

  lemma KernelTaken(tables: map<nat, Table>, free: set<nat>, spaces: map<nat, Space>, p: nat)
    requires Kernel(tables, free, spaces) && p in free
    ensures Kernel(tables, free - {p}, spaces) && Loose(free - {p}, spaces, p)
  {
  }

  ghost function NewSpace(p: nat): Space {
    Space(p, map[p := Root], map[Root := p], map[])
  }

  lemma NewSpaceOk(tables: map<nat, Table>, p: nat)
    requires p in tables && tables[p] == EmptyTable()
    ensures SpaceOk(tables, NewSpace(p))
  {
  }

  lemma KernelCreated(tables: map<nat, Table>, free: set<nat>, spaces: map<nat, Space>, p: nat)
    requires Kernel(tables, free, spaces) && Loose(free, spaces, p)
    ensures p !in spaces && Kernel(tables[p := EmptyTable()], free, spaces[p := NewSpace(p)])
  {
    hide SpaceOk;
    var tables' := tables[p := EmptyTable()];
    NewSpaceOk(tables', p);
    forall r | r in spaces
      ensures r != p && SpaceOk(tables', spaces[r])
    {
      PlacedOf(tables, spaces[r]);
      SpaceFrame(tables, tables', spaces[r]);
    }
  }
}
