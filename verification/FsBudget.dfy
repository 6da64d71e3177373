/** How many different blocks a write and a truncation pass to log_write. */
module FsBudget {
  import opened FsFormat
  import opened FsModel
  import LogModel

  const MAXOPBLOCKS: nat := LogModel.MAXOPBLOCKS

  /** filewrite hands writei at most this many bytes in one operation. */
  const CHUNK: nat := (MAXOPBLOCKS - 1 - 1 - 2) / 2 * BSIZE

  const IPB: nat := BSIZE / 64

  function InodeBlock(sb: Super, i: nat): nat {
    i / IPB + sb.inodestart
  }

  /** The block of the free map that holds b's bit. */
  function MapOf(sb: Super, b: nat): nat {
    sb.bmapstart + b / BPB
  }

  /** How many blocks the free map has. */
  function MapCount(sb: Super): nat {
    if sb.size == 0 then 0 else (sb.size - 1) / BPB + 1
  }

  function Range(a: nat, n: nat): (r: set<nat>)
    ensures |r| == n && forall x :: x in r <==> a <= x < a + n
  {
    if n == 0 then {} else Range(a, n - 1) + {a + n - 1}
  }

  function MapBlocks(sb: Super): set<nat> {
    Range(sb.bmapstart, MapCount(sb))
  }

  lemma MapOfIn(sb: Super, b: nat)
    requires b < sb.size
    ensures MapOf(sb, b) in MapBlocks(sb)
  {
  }

  /** Every block that has changed has been logged. */
  ghost predicate Covered(before: seq<Block>, after: seq<Block>, logged: set<nat>) {
    |after| == |before| && forall b :: 0 <= b < |before| && b !in logged ==> after[b] == before[b]
  }

  lemma CoveredTrans(x: seq<Block>, y: seq<Block>, l: set<nat>, z: seq<Block>, l': set<nat>)
    requires Covered(x, y, l) && Covered(y, z, l') && l <= l'
    ensures Covered(x, z, l')
  {
  }

  lemma CoveredMore(x: seq<Block>, y: seq<Block>, l: set<nat>, b: nat)
    requires Covered(x, y, l)
    ensures Covered(x, y, l + {b})
  {
  }

  lemma CoveredOne(x: seq<Block>, b: nat, v: Block, l: set<nat>)
    requires b < |x| && b in l
    ensures Covered(x, x[b := v], l)
  {
  }

  // ----------------------------------------------------------------------- writing

  /** What the allocation of the indirect block and later changes of it log. */
  function IndPart(sb: Super, a: nat): set<nat> {
    if a == 0 then {} else {a, MapOf(sb, a)}
  }

  /** The blocks that the bytes from off to off + n lie in. */
  function Span(off: nat, n: nat): nat {
    (off % BSIZE + n + BSIZE - 1) / BSIZE
  }

  /** What has been logged after some turns of writei's loop: `data` blocks, and blocks `maps` of the free map. */
  ghost predicate Parts(sb: Super, before: set<nat>, logged: set<nat>, ind: nat, off: nat, turns: nat, data: set<nat>,
      maps: set<nat>)
  {
    && before <= logged <= before + IndPart(sb, ind) + data + maps && |data| <= turns && maps <= MapBlocks(sb)
    && |maps| + (if turns > 0 && off % BSIZE != 0 then 1 else 0) <= turns
  }

  ghost predicate Accounted(sb: Super, before: set<nat>, logged: set<nat>, ind: nat, off: nat, turns: nat) {
    exists data, maps :: Parts(sb, before, logged, ind, off, turns, data, maps)
  }

  lemma NothingLogged(sb: Super, blocks: seq<Block>, before: set<nat>, ind: nat, off: nat, n: nat)
    ensures Accounted(sb, before, before, ind, off, 0) && AtTurn(off, n, 0, 0)
    ensures Covered(blocks, blocks, before)
  {
    assert Parts(sb, before, before, ind, off, 0, {}, {});
  }

  /** What bmap may log: the indirect block and its allocation, and the allocation of the data block. */
  ghost predicate Mapped(sb: Super, logged: set<nat>, logged': set<nat>, ind: nat, ind': nat, addr: nat) {
    && logged <= logged' <= logged + IndPart(sb, ind') + (if addr == 0 then {} else {addr, MapOf(sb, addr)})
    && (ind != 0 ==> ind' == ind)
  }

  /** bmap found the disk full. */
  lemma LastTurn(sb: Super, before: set<nat>, logged: set<nat>, ind: nat, off: nat, turns: nat, logged': set<nat>,
      ind': nat)
    requires Accounted(sb, before, logged, ind, off, turns) && Mapped(sb, logged, logged', ind, ind', 0)
    ensures Accounted(sb, before, logged', ind', off, turns)
  {
    var data, maps :| Parts(sb, before, logged, ind, off, turns, data, maps);
    assert Parts(sb, before, logged', ind', off, turns, data, maps);
  }

  lemma Grown(before: set<nat>, logged: set<nat>, i: set<nat>, data: set<nat>, maps: set<nat>, logged': set<nat>,
      i': set<nat>, addr: nat, m: nat)
    requires before <= logged <= before + i + data + maps && i <= i'
    ensures logged <= logged' <= logged + i' + {addr, m} ==>
      before <= logged' + {addr} <= before + i' + (data + {addr}) + (maps + {m})
    ensures logged' == logged ==> before <= logged' + {addr} <= before + i' + (data + {addr}) + maps
  {
  }

  /** One more block written; a first block that the write does not fill was there before. */
  lemma NextTurn(sb: Super, before: set<nat>, logged: set<nat>, ind: nat, off: nat, turns: nat, logged': set<nat>,
      ind': nat, addr: nat)
    requires Accounted(sb, before, logged, ind, off, turns) && Mapped(sb, logged, logged', ind, ind', addr)
    requires 0 < addr < sb.size && (turns == 0 && off % BSIZE != 0 ==> logged' == logged)
    ensures Accounted(sb, before, logged' + {addr}, ind', off, turns + 1)
  {
    hide Parts;
    var data, maps :| Parts(sb, before, logged, ind, off, turns, data, maps);
    NextParts(sb, before, logged, ind, off, turns, logged', ind', addr, data, maps);
  }

  lemma NextParts(sb: Super, before: set<nat>, logged: set<nat>, ind: nat, off: nat, turns: nat, logged': set<nat>,
      ind': nat, addr: nat, data: set<nat>, maps: set<nat>)
    requires Parts(sb, before, logged, ind, off, turns, data, maps) && Mapped(sb, logged, logged', ind, ind', addr)
    requires 0 < addr < sb.size && (turns == 0 && off % BSIZE != 0 ==> logged' == logged)
    ensures var maps' := if turns == 0 && off % BSIZE != 0 then maps else maps + {MapOf(sb, addr)};
            Parts(sb, before, logged' + {addr}, ind', off, turns + 1, data + {addr}, maps')
  {
    hide MapBlocks, MapOf, IndPart;
    IndKept(sb, ind, ind');
    MapOfIn(sb, addr);
    OneMore(data, addr);
    OneMore(maps, MapOf(sb, addr));
    Grown(before, logged, IndPart(sb, ind), data, maps, logged', IndPart(sb, ind'), addr, MapOf(sb, addr));
  }

  lemma IndKept(sb: Super, a: nat, b: nat)
    requires a != 0 ==> b == a
    ensures IndPart(sb, a) <= IndPart(sb, b)
  {
  }

  /** What one turn of writei's loop may log; addr is 0 if there was no block to write to. */
  ghost predicate TurnLogged(sb: Super, logged: set<nat>, logged': set<nat>, ind: nat, ind': nat, addr: nat,
      there: bool)
  {
    exists l :: Mapped(sb, logged, l, ind, ind', addr) && (there ==> l == logged) &&
      logged' == if addr == 0 then l else l + {addr}
  }

  lemma AfterTurn(sb: Super, before: set<nat>, logged: set<nat>, ind: nat, off: nat, turns: nat, logged': set<nat>,
      ind': nat, addr: nat, there: bool)
    requires Accounted(sb, before, logged, ind, off, turns)
    requires TurnLogged(sb, logged, logged', ind, ind', addr, there)
    requires addr < sb.size && (turns == 0 && off % BSIZE != 0 ==> there)
    ensures Accounted(sb, before, logged', ind', off, if addr == 0 then turns else turns + 1) && logged <= logged'
  {
    hide Accounted;
    var l :| Mapped(sb, logged, l, ind, ind', addr) && (there ==> l == logged) &&
      logged' == if addr == 0 then l else l + {addr};
    if addr == 0 {
      LastTurn(sb, before, logged, ind, off, turns, l, ind');
    } else {
      NextTurn(sb, before, logged, ind, off, turns, l, ind', addr);
    }
  }

  /** The most different blocks that writei logs, the inode's among them. */
  function WriteBudget(off: nat, n: nat): nat {
    2 * Span(off, n) + 3 - if n > 0 && off % BSIZE != 0 then 1 else 0
  }

  /** Within the budget of a write, with room for the inode's block. */
  ghost predicate Affordable(sb: Super, before: set<nat>, logged: set<nat>, off: nat, n: nat) {
    && before <= logged && |logged - before| < WriteBudget(off, n)
    && |logged - before| < Span(off, n) + MapCount(sb) + 2
  }

  lemma Budget(sb: Super, before: set<nat>, logged: set<nat>, ind: nat, off: nat, turns: nat, n: nat, tot: nat)
    requires Accounted(sb, before, logged, ind, off, turns) && AtTurn(off, n, tot, turns) && ind < sb.size
    ensures Affordable(sb, before, logged, off, n)
  {
    var data, maps :| Parts(sb, before, logged, ind, off, turns, data, maps);
    Fewer(logged - before, IndPart(sb, ind) + data + maps);
    MapOfIn(sb, ind);
    Fewer(logged - before, {ind} + data + MapBlocks(sb));
  }

  lemma WithInode(sb: Super, before: set<nat>, logged: set<nat>, off: nat, n: nat, ib: nat)
    requires Affordable(sb, before, logged, off, n)
    ensures before <= logged + {ib} && |logged + {ib} - before| <= WriteBudget(off, n)
    ensures |logged + {ib} - before| <= Span(off, n) + MapCount(sb) + 2
  {
    hide Span, MapCount;
    OneMore(logged - before, ib);
    Fewer(logged + {ib} - before, logged - before + {ib});
  }

  lemma OneMore(a: set<nat>, x: nat)
    ensures |a + {x}| <= |a| + 1
  {
    assert x in a ==> a + {x} == a;
  }

  lemma Fewer(a: set<nat>, b: set<nat>)
    requires a <= b
    ensures |a| <= |b|
  {
    assert b == a + (b - a);
  }

  /** How far writei's loop is after some turns. */
  ghost predicate AtTurn(off: nat, n: nat, tot: nat, turns: nat) {
    tot <= n && turns <= Span(off, n) && (turns == 0 ==> tot == 0) && (turns > 0 ==> n > 0) &&
    (turns > 0 && tot < n ==> off % BSIZE + tot == turns * BSIZE)
  }

  lemma FirstTurn(off: nat, n: nat, tot: nat, turns: nat)
    requires AtTurn(off, n, tot, turns)
    ensures turns == 0 ==> tot == 0
  {
  }

  lemma TurnNext(off: nat, n: nat, tot: nat, turns: nat, m: nat)
    requires AtTurn(off, n, tot, turns) && tot < n
    requires m == if n - tot < BSIZE - (off + tot) % BSIZE then n - tot else BSIZE - (off + tot) % BSIZE
    ensures AtTurn(off, n, tot + m, turns + 1)
  {
  }

  /**
   One write of filewrite stays within MAXOPBLOCKS different blocks whatever the disk, and below it on a disk whose
   free map has at most three blocks.
   */
  lemma WriteFits(sb: Super, off: nat, n: nat)
    requires n <= CHUNK
    ensures WriteBudget(off, n) <= MAXOPBLOCKS
    ensures sb.size <= 3 * BPB ==> Span(off, n) + MapCount(sb) + 2 < MAXOPBLOCKS
  {
  }

  /** A truncation logs the inode and the free map: below MAXOPBLOCKS blocks with a map of at most eight. */
  lemma TruncFits(sb: Super)
    ensures MapCount(sb) + 1 < MAXOPBLOCKS <==> sb.size <= 8 * BPB
  {
  }

  // ----------------------------------------------------------------------- truncating

  ghost predicate MapsOnly(sb: Super, before: set<nat>, logged: set<nat>) {
    before <= logged <= before + MapBlocks(sb)
  }

  lemma NothingFreed(sb: Super, blocks: seq<Block>, logged: set<nat>)
    ensures MapsOnly(sb, logged, logged) && Covered(blocks, blocks, logged) && |logged - logged| == 0
  {
    assert logged - logged == {};
  }

  lemma OneFreed(sb: Super, x: seq<Block>, before: set<nat>, y: seq<Block>, logged: set<nat>, z: seq<Block>, b: nat)
    requires MapsOnly(sb, before, logged) && Covered(x, y, logged) && b < sb.size
    requires Covered(y, z, logged + {MapOf(sb, b)})
    ensures MapsOnly(sb, before, logged + {MapOf(sb, b)}) && Covered(x, z, logged + {MapOf(sb, b)})
  {
    hide Covered, MapBlocks, MapOf;
    MapOfIn(sb, b);
    CoveredTrans(x, y, logged, z, logged + {MapOf(sb, b)});
  }

  lemma TruncLogged(sb: Super, x: seq<Block>, l0: set<nat>, y: seq<Block>, l1: set<nat>, z: seq<Block>, l2: set<nat>,
      ib: nat)
    requires MapsOnly(sb, l0, l1) && Covered(x, y, l1) && MapsOnly(sb, l1, l2) && Covered(y, z, l2)
    ensures Covered(x, z, l2 + {ib}) && l0 <= l2 && |l2 + {ib} - l0| <= MapCount(sb) + 1
  {
    hide MapCount;
    Fewer(l2 + {ib} - l0, MapBlocks(sb) + {ib});
  }
}
