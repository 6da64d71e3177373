/** Three-level page tables and the flat map from virtual pages to physical pages they stand for. */
module PageTableModel {
  import opened Powers

  const ENTRIES: nat := 512
  const TOP: nat := 256
  const VPAGES: nat := 0x400_0000

  /** An entry: physical page, valid bit, and the other flag bits shifted right by one, R, W and X lowest. */
  datatype Pte = Pte(ppn: nat, valid: bool, perm: nat)

  const EMPTY: Pte := Pte(0, false, 0)

  predicate HasRWX(perm: nat) {
    perm % 8 != 0
  }

  type Table = t: seq<Pte> | |t| == 512 witness seq(512, _ => Pte(0, false, 0))

  function EmptyTable(): Table {
    seq(512, _ => EMPTY)
  }

  // ----------------------------------------------------------------------- virtual page numbers

  function Vpn(a: nat, b: nat, c: nat): nat {
    a * 262144 + b * 512 + c
  }

  /** PX(2, va), PX(1, va) and PX(0, va) of the addresses va in page vp. */
  function L2(vp: nat): nat {
    vp / 262144
  }

  function L1(vp: nat): nat {
    vp / 512 % 512
  }

  function L0(vp: nat): nat {
    vp % 512
  }

  lemma VpnSplit(vp: nat)
    requires vp < VPAGES
    ensures L2(vp) < TOP && L1(vp) < ENTRIES && L0(vp) < ENTRIES && Vpn(L2(vp), L1(vp), L0(vp)) == vp
  {
  }

  lemma VpnJoin(a: nat, b: nat, c: nat)
    requires a < TOP && b < ENTRIES && c < ENTRIES
    ensures Vpn(a, b, c) < VPAGES && L2(Vpn(a, b, c)) == a && L1(Vpn(a, b, c)) == b && L0(Vpn(a, b, c)) == c
  {
    DivModUnique(Vpn(a, b, c), 262144, a, b * 512 + c);
    DivModUnique(Vpn(a, b, c), 512, a * 512 + b, c);
    DivModUnique(a * 512 + b, 512, a, b);
  }

  /** The index fields of an address below MAXVA, as PX cuts them out, are those of its page number. */
  lemma IndexFields(va: nat)
    requires va < VPAGES * 4096
    ensures va / 0x4000_0000 % 512 == L2(va / 4096) && va / 0x20_0000 % 512 == L1(va / 4096) &&
      va / 0x1000 % 512 == L0(va / 4096)
  {
  }

  // ----------------------------------------------------------------------- one address space

  /** Which part of the address space a table page covers. */
  datatype Pos = Root | Mid(a: nat) | Low(a: nat, b: nat)

  datatype Leaf = Leaf(ppn: nat, perm: nat)

  /** The pages of a page table with their positions, and the mappings it stands for. */
  datatype Space = Space(root: nat, pos: map<nat, Pos>, at: map<Pos, nat>, flat: map<nat, Leaf>)

  predicate InRange(q: Pos) {
    match q
    case Root => true
    case Mid(a) => a < TOP
    case Low(a, b) => a < TOP && b < ENTRIES
  }

  function Child(q: Pos, i: nat): Pos
    requires !q.Low?
  {
    if q.Root? then Mid(i) else Low(q.a, i)
  }

  /** Each page has one position and each position one page; below a page that is not there is none. */
  ghost predicate Placed(sp: Space) {
    && Root in sp.at && sp.at[Root] == sp.root
    && (forall p :: p in sp.pos ==> sp.pos[p] in sp.at && sp.at[sp.pos[p]] == p)
    && (forall q :: q in sp.at ==> sp.at[q] in sp.pos && sp.pos[sp.at[q]] == q && InRange(q))
    && (forall q :: q in sp.at && q.Low? ==> Mid(q.a) in sp.at)
  }

  ghost predicate InnerOk(e: Pte, at: map<Pos, nat>, q: Pos) {
    (e.valid <==> q in at) && (e.valid ==> e.ppn == at[q] && e.perm == 0)
  }

  ghost predicate LeafOk(e: Pte, flat: map<nat, Leaf>, vp: nat) {
    (e.valid <==> vp in flat) && (e.valid ==> HasRWX(e.perm) && flat[vp] == Leaf(e.ppn, e.perm))
  }

  ghost predicate EntryOk(e: Pte, q: Pos, i: nat, at: map<Pos, nat>, flat: map<nat, Leaf>) {
    if q.Low? then LeafOk(e, flat, Vpn(q.a, q.b, i)) else InnerOk(e, at, Child(q, i))
  }

  ghost predicate PageOk(t: Table, q: Pos, at: map<Pos, nat>, flat: map<nat, Leaf>) {
    forall i :: 0 <= i < ENTRIES ==> EntryOk(t[i], q, i, at, flat)
  }

  ghost predicate Pages(tables: map<nat, Table>, sp: Space) {
    forall p :: p in sp.pos ==> p in tables && PageOk(tables[p], sp.pos[p], sp.at, sp.flat)
  }

  ghost predicate FlatOk(sp: Space) {
    forall vp :: vp in sp.flat ==> vp < VPAGES && Low(L2(vp), L1(vp)) in sp.at
  }

  /** The tree agrees with the flat map. */
  ghost predicate SpaceOk(tables: map<nat, Table>, sp: Space) {
    Placed(sp) && Pages(tables, sp) && FlatOk(sp)
  }

  lemma EntryAt(tables: map<nat, Table>, sp: Space, q: Pos, i: nat)
    requires SpaceOk(tables, sp) && q in sp.at && i < ENTRIES
    ensures sp.at[q] in tables && EntryOk(tables[sp.at[q]][i], q, i, sp.at, sp.flat)
  {
  }

  /** Pages outside the space may change. */
  lemma SpaceFrame(tables: map<nat, Table>, tables': map<nat, Table>, sp: Space)
    requires SpaceOk(tables, sp) && forall p :: p in sp.pos ==>
      p in tables' && (p in tables ==> tables'[p] == tables[p])
    ensures SpaceOk(tables', sp)
  {
  }

  // ----------------------------------------------------------------------- a new table page

  ghost function Grown(sp: Space, q: Pos, i: nat, p: nat): Space
    requires !q.Low?
  {
    sp.(pos := sp.pos[p := Child(q, i)], at := sp.at[Child(q, i) := p])
  }

  ghost function WithTable(tables: map<nat, Table>, parent: nat, i: nat, p: nat): map<nat, Table>
    requires parent in tables && i < ENTRIES
  {
    tables[p := EmptyTable()][parent := tables[parent][i := Pte(p, true, 0)]]
  }

  lemma GrownPlaced(sp: Space, q: Pos, i: nat, p: nat)
    requires Placed(sp) && q in sp.at && !q.Low? && i < ENTRIES && (q.Root? ==> i < TOP) && Child(q, i) !in sp.at &&
      p !in sp.pos
    ensures Placed(Grown(sp, q, i, p))
  {
  }

  /** walk's new table page: the mappings stay as they are. */
  lemma GrownOk(tables: map<nat, Table>, sp: Space, q: Pos, i: nat, p: nat)
    requires SpaceOk(tables, sp) && q in sp.at && !q.Low? && i < ENTRIES && (q.Root? ==> i < TOP) &&
      Child(q, i) !in sp.at && p !in sp.pos
    ensures sp.at[q] in tables && SpaceOk(WithTable(tables, sp.at[q], i, p), Grown(sp, q, i, p))
  {
    hide EntryOk;
    GrownPlaced(sp, q, i, p);
    EntryAt(tables, sp, q, i);
    var tables', sp' := WithTable(tables, sp.at[q], i, p), Grown(sp, q, i, p);
    forall x | x in sp'.pos
      ensures x in tables' && PageOk(tables'[x], sp'.pos[x], sp'.at, sp'.flat)
    {
      forall j | 0 <= j < ENTRIES
        ensures EntryOk(tables'[x][j], sp'.pos[x], j, sp'.at, sp'.flat)
      {
        GrownEntry(tables, sp, q, i, p, x, j);
      }
    }
  }

  lemma GrownEntry(tables: map<nat, Table>, sp: Space, q: Pos, i: nat, p: nat, x: nat, j: nat)
    requires SpaceOk(tables, sp) && q in sp.at && !q.Low? && i < ENTRIES && (q.Root? ==> i < TOP) &&
      Child(q, i) !in sp.at && p !in sp.pos
    requires (x == p || x in sp.pos) && j < ENTRIES
    ensures sp.at[q] in tables && x in WithTable(tables, sp.at[q], i, p)
    ensures EntryOk(WithTable(tables, sp.at[q], i, p)[x][j], Grown(sp, q, i, p).pos[x], j, Grown(sp, q, i, p).at,
      sp.flat)
  {
    hide Pages, SpaceOk;
    assert Placed(sp) && FlatOk(sp) && sp.at[q] in tables &&
      (x in sp.pos ==> x in tables && EntryOk(tables[x][j], sp.pos[x], j, sp.at, sp.flat)) by {
      PlacedOf(tables, sp);
      EntryAt(tables, sp, q, j);
      if x in sp.pos {
        EntryAt(tables, sp, sp.pos[x], j);
      }
    }
    if x == p {
      NewEntry(sp, q, i, p, j);
    }
  }

  lemma PlacedOf(tables: map<nat, Table>, sp: Space)
    requires SpaceOk(tables, sp)
    ensures Placed(sp) && FlatOk(sp) && forall p :: p in sp.pos ==> p in tables
  {
  }

  lemma NewEntry(sp: Space, q: Pos, i: nat, p: nat, j: nat)
    requires Placed(sp) && FlatOk(sp) && q in sp.at && !q.Low? && i < ENTRIES && (q.Root? ==> i < TOP) &&
      Child(q, i) !in sp.at && j < ENTRIES
    ensures EntryOk(EMPTY, Child(q, i), j, Grown(sp, q, i, p).at, sp.flat)
  {
    if q.Mid? {
      VpnJoin(q.a, i, j);
    }
  }

  // ----------------------------------------------------------------------- a leaf entry

  ghost function Mapped(sp: Space, vp: nat, e: Pte): Space {
    sp.(flat := if e.valid then sp.flat[vp := Leaf(e.ppn, e.perm)] else sp.flat - {vp})
  }

  ghost function WithEntry(tables: map<nat, Table>, t: nat, i: nat, e: Pte): map<nat, Table>
    requires t in tables && i < ENTRIES
  {
    tables[t := tables[t][i := e]]
  }

  /** Writing a leaf entry changes exactly that page's mapping. */
  lemma MappedOk(tables: map<nat, Table>, sp: Space, vp: nat, e: Pte)
    requires SpaceOk(tables, sp) && vp < VPAGES && Low(L2(vp), L1(vp)) in sp.at && (e.valid ==> HasRWX(e.perm))
    ensures sp.at[Low(L2(vp), L1(vp))] in tables && L0(vp) < ENTRIES
    ensures SpaceOk(WithEntry(tables, sp.at[Low(L2(vp), L1(vp))], L0(vp), e), Mapped(sp, vp, e))
  {
    hide EntryOk;
    var q := Low(L2(vp), L1(vp));
    VpnSplit(vp);
    EntryAt(tables, sp, q, L0(vp));
    var tables', sp' := WithEntry(tables, sp.at[q], L0(vp), e), Mapped(sp, vp, e);
    forall x | x in sp'.pos
      ensures x in tables' && PageOk(tables'[x], sp'.pos[x], sp'.at, sp'.flat)
    {
      forall j | 0 <= j < ENTRIES
        ensures EntryOk(tables'[x][j], sp'.pos[x], j, sp'.at, sp'.flat)
      {
        MappedEntry(tables, sp, vp, e, x, j);
      }
    }
  }

  lemma MappedEntry(tables: map<nat, Table>, sp: Space, vp: nat, e: Pte, x: nat, j: nat)
    requires SpaceOk(tables, sp) && vp < VPAGES && Low(L2(vp), L1(vp)) in sp.at && (e.valid ==> HasRWX(e.perm))
    requires x in sp.pos && j < ENTRIES
    ensures var t := sp.at[Low(L2(vp), L1(vp))];
            t in tables && x in tables && L0(vp) < ENTRIES &&
            EntryOk(WithEntry(tables, t, L0(vp), e)[x][j], sp.pos[x], j, sp.at, Mapped(sp, vp, e).flat)
  {
    hide Pages, SpaceOk, L2, L1, L0, Vpn, HasRWX;
    VpnSplit(vp);
    PlacedOf(tables, sp);
    EntryAt(tables, sp, sp.pos[x], j);
    EntryAt(tables, sp, Low(L2(vp), L1(vp)), j);
    if sp.pos[x].Low? {
      VpnJoin(sp.pos[x].a, sp.pos[x].b, j);
    }
  }
}
