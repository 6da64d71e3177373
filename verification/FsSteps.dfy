/** Writing into a file's block and giving up all of a file's blocks. */
module FsSteps {
  import opened FsFormat
  import opened FsModel

  /** f with the bytes d at offset off, longer if need be. */
  function Spliced(f: seq<Byte>, off: nat, d: seq<Byte>): seq<Byte>
    requires off <= |f|
  {
    f[..off] + d + (if off + |d| < |f| then f[off + |d|..] else [])
  }

  /** Byte by byte: d from off on, f elsewhere. */
  lemma SplicedAt(f: seq<Byte>, off: nat, d: seq<Byte>)
    requires off <= |f|
    ensures |Spliced(f, off, d)| == Max(|f|, off + |d|)
    ensures forall k :: 0 <= k < |Spliced(f, off, d)| ==>
      Spliced(f, off, d)[k] == if off <= k < off + |d| then d[k - off] else f[k]
  {
  }

  lemma SplicedTwice(f: seq<Byte>, off: nat, d: seq<Byte>, e: seq<Byte>)
    requires off <= |f|
    ensures off + |d| <= |Spliced(f, off, d)|
    ensures Spliced(Spliced(f, off, d), off + |d|, e) == Spliced(f, off, d + e)
  {
  }

  function Overwritten(b: Block, o: nat, d: seq<Byte>): Block
    requires o + |d| <= BSIZE
  {
    b[..o] + d + b[o + |d|..]
  }

  function Max(x: nat, y: nat): nat {
    if x < y then y else x
  }

  // ----------------------------------------------------------------------- writing

  /** The bytes of the file that owns the block, after a write into its k-th block. */
  lemma WrittenByte(sb: Super, blocks: seq<Block>, ptrs: seq<seq<nat>>, owner: map<nat, (nat, nat)>, i: nat, k: nat,
      v: Block, x: nat)
    requires Links(ptrs, owner) && Owned(sb, ptrs, owner) && |blocks| == sb.size
    requires i < |ptrs| && |ptrs[i]| == SLOTS && k < MAXFILE && 0 < ptrs[i][DataSlot(k)] < sb.size
    ensures ByteAt(ptrs[i], blocks[ptrs[i][DataSlot(k)] := v], x) == if x / BSIZE == k then v[x % BSIZE]
      else ByteAt(ptrs[i], blocks, x)
  {
  }

  lemma SplicedBytes(p: seq<nat>, blocks: seq<Block>, blocks': seq<Block>, len: nat, off: nat, d: seq<Byte>, v: Block)
    requires off <= len && off % BSIZE + |d| <= BSIZE && d != []
    requires off / BSIZE < MAXFILE && |p| == SLOTS && p[DataSlot(off / BSIZE)] < |blocks|
    requires v == Overwritten(blocks[p[DataSlot(off / BSIZE)]], off % BSIZE, d)
    requires forall x: nat :: ByteAt(p, blocks', x) == if x / BSIZE == off / BSIZE then v[x % BSIZE]
      else ByteAt(p, blocks, x)
    ensures Content(p, Max(len, off + |d|), blocks') == Spliced(Content(p, len, blocks), off, d)
  {
  }

  lemma GrownNoHoles(p: seq<nat>, len: nat, off: nat, n: nat)
    requires NoHoles(p, len) && off <= len && off % BSIZE + n <= BSIZE
    requires off / BSIZE < MAXFILE && p[DataSlot(off / BSIZE)] != 0
    ensures NoHoles(p, Max(len, off + n))
  {
  }

  /** writei's change of one block: the file is spliced, no other file changes, all invariants hold. */
  lemma DataWrite(sb: Super, inodes: seq<Inode>, blocks: seq<Block>, ptrs: seq<seq<nat>>, owner: map<nat, (nat, nat)>,
      lens: seq<nat>,
                  i: nat, off: nat, d: seq<Byte>)
    requires Core(sb, inodes, blocks, ptrs, owner, lens) && i < |inodes| && off <= lens[i]
    requires d != [] && off % BSIZE + |d| <= BSIZE && off / BSIZE < MAXFILE && |ptrs[i]| == SLOTS &&
      ptrs[i][DataSlot(off / BSIZE)] != 0
    ensures var a := ptrs[i][DataSlot(off / BSIZE)];
            && a < sb.size == |blocks|
            && var blocks' := blocks[a := Overwritten(blocks[a], off % BSIZE, d)];
               var lens' := lens[i := Max(lens[i], off + |d|)];
            && Core(sb, inodes, blocks', ptrs, owner, lens')
            && Files(lens', ptrs, blocks') == Files(lens, ptrs,
              blocks)[i := Spliced(Content(ptrs[i], lens[i], blocks), off, d)]
  {
    hide Rep, Owned, Overwritten, Spliced, NoHoles, Content, Max, ByteAt;
    var k := off / BSIZE;
    var a := ptrs[i][DataSlot(k)];
    PointerInRange(sb, ptrs, owner, i, DataSlot(k));
    OwnerOf(ptrs, owner, i, DataSlot(k));
    var v := Overwritten(blocks[a], off % BSIZE, d);
    var blocks' := blocks[a := v];
    var lens' := lens[i := Max(lens[i], off + |d|)];
    RepsFrame(sb, inodes, blocks, blocks', ptrs, owner, a);
    BitsFrame(sb, blocks, blocks', owner.Keys);
    GrownNoHoles(ptrs[i], lens[i], off, |d|);
    forall x: nat
      ensures ByteAt(ptrs[i], blocks', x) == if x / BSIZE == k then v[x % BSIZE] else ByteAt(ptrs[i], blocks, x)
    {
      WrittenByte(sb, blocks, ptrs, owner, i, k, v, x);
    }
    SplicedBytes(ptrs[i], blocks, blocks', lens[i], off, d, v);
    forall j | 0 <= j < |ptrs| && j != i
      ensures Content(ptrs[j], lens[j], blocks') == Content(ptrs[j], lens[j], blocks)
    {
      OtherFile(sb, blocks, blocks', ptrs, owner, lens, j, i, DataSlot(k));
    }
  }

  lemma OtherFile(sb: Super, blocks: seq<Block>, blocks': seq<Block>, ptrs: seq<seq<nat>>, owner: map<nat, (nat, nat)>,
      lens: seq<nat>, j: nat, i: nat, s: nat)
    requires Links(ptrs, owner) && Owned(sb, ptrs, owner) && Filled(lens, ptrs) && j < |ptrs| && i < |ptrs| && i != j &&
      s < SLOTS && |ptrs[i]| == SLOTS
    requires ptrs[i][s] != 0 && DataSame(sb, blocks, blocks', ptrs[i][s])
    ensures Content(ptrs[j], lens[j], blocks') == Content(ptrs[j], lens[j], blocks)
  {
  }

  // ----------------------------------------------------------------------- truncating

  /** The data blocks given back so far, in the order of the file. */
  ghost function Gone(p: seq<nat>, n: nat): set<nat>
    requires |p| == SLOTS && n <= MAXFILE
  {
    set k | 0 <= k < n :: p[DataSlot(k)]
  }

  /** The next block to give back is still taken. */
  lemma StillTaken(ptrs: seq<seq<nat>>, owner: map<nat, (nat, nat)>, i: nat, n: nat, s: nat)
    requires Links(ptrs, owner) && i < |ptrs| && |ptrs[i]| == SLOTS && n <= MAXFILE && s < SLOTS
    requires ptrs[i][s] != 0 && forall k :: 0 <= k < n ==> DataSlot(k) != s
    ensures ptrs[i][s] in owner.Keys - Gone(ptrs[i], n)
  {
  }

  lemma GoneNext(p: seq<nat>, n: nat)
    requires |p| == SLOTS && n < MAXFILE
    ensures Gone(p, n + 1) == Gone(p, n) + {p[DataSlot(n)]}
  {
  }

  /** What is left of the owners when inode i has given up all its blocks. */
  ghost function Others(owner: map<nat, (nat, nat)>, i: nat): map<nat, (nat, nat)> {
    map b | b in owner && owner[b].0 != i :: owner[b]
  }

  lemma AllGone(sb: Super, ptrs: seq<seq<nat>>, owner: map<nat, (nat, nat)>, i: nat)
    requires 0 < sb.metaEnd && Links(ptrs, owner) && Owned(sb, ptrs, owner) && i < |ptrs| && |ptrs[i]| == SLOTS
    ensures Others(owner, i).Keys == owner.Keys - Gone(ptrs[i], MAXFILE) - {ptrs[i][NDIRECT]}
  {
    var p := ptrs[i];
    forall b | b in owner
      ensures owner[b].0 == i <==> b in Gone(p, MAXFILE) || b == p[NDIRECT]
    {
      assert OwnedAt(sb, ptrs, owner[b].0, owner[b].1, b);
      var s := owner[b].1;
      if owner[b].0 == i && s != NDIRECT {
        var k := if s < NDIRECT then s else s - 1;
        assert DataSlot(k) == s;
        assert p[DataSlot(k)] in Gone(p, MAXFILE);
      }
      if b == p[NDIRECT] {
        OwnerOf(ptrs, owner, i, NDIRECT);
      }
      if b in Gone(p, MAXFILE) {
        var k :| 0 <= k < MAXFILE && p[DataSlot(k)] == b;
        OwnerOf(ptrs, owner, i, DataSlot(k));
      }
    }
  }

  function NoPointers(n: nat): seq<nat> {
    seq(n, _ => 0)
  }

  lemma LinksDrop(sb: Super, ptrs: seq<seq<nat>>, owner: map<nat, (nat, nat)>, i: nat)
    requires Links(ptrs, owner) && Owned(sb, ptrs, owner) && i < |ptrs|
    ensures Links(ptrs[i := NoPointers(SLOTS)], Others(owner, i)) &&
      Owned(sb, ptrs[i := NoPointers(SLOTS)], Others(owner, i))
  {
  }

  /** itrunc's result: the file is empty, its blocks are free, no other file has changed. */
  lemma Truncated(sb: Super, inodes: seq<Inode>, blocks: seq<Block>, blocks': seq<Block>, ptrs: seq<seq<nat>>,
      owner: map<nat, (nat, nat)>,
                  lens: seq<nat>, i: nat)
    requires Core(sb, inodes, blocks, ptrs, owner, lens) && i < |inodes| && |ptrs[i]| == SLOTS &&
      DataSame(sb, blocks, blocks', 0)
    requires BitsOk(sb, blocks', owner.Keys - Gone(ptrs[i], MAXFILE) - {ptrs[i][NDIRECT]})
    ensures Core(sb, inodes[i := Inode(NoPointers(NDIRECT + 1), 0)], blocks', ptrs[i := NoPointers(SLOTS)],
      Others(owner, i), lens[i := 0])
    ensures Files(lens[i := 0], ptrs[i := NoPointers(SLOTS)], blocks') == Files(lens, ptrs, blocks)[i := []]
  {
    hide Rep, Links, Owned, NoHoles, Content, BitsOk, Gone, Others;
    ZeroNotOwned(sb, ptrs, owner);
    RepsFrame(sb, inodes, blocks, blocks', ptrs, owner, 0);
    FilesFrame(sb, lens, blocks, blocks', ptrs, owner, 0);
    AllGone(sb, ptrs, owner, i);
    LinksDrop(sb, ptrs, owner, i);
    NoneRep(blocks');
    assert Content(NoPointers(SLOTS), 0, blocks') == [];
    forall k | 0 <= k < |ptrs|
      ensures Files(lens[i := 0], ptrs[i := NoPointers(SLOTS)], blocks')[k] == if k == i then []
        else Files(lens, ptrs, blocks)[k]
    {
      if k != i {
        assert Files(lens, ptrs, blocks')[k] == Files(lens, ptrs, blocks)[k];
      }
    }
  }

  lemma ZeroNotOwned(sb: Super, ptrs: seq<seq<nat>>, owner: map<nat, (nat, nat)>)
    requires LayoutOk(sb) && Owned(sb, ptrs, owner)
    ensures 0 !in owner
  {
  }

  lemma NoneRep(blocks: seq<Block>)
    requires |blocks| > 0
    ensures Rep(NoPointers(NDIRECT + 1), blocks, NoPointers(SLOTS)) && NoHoles(NoPointers(SLOTS), 0)
  {
  }

  // ----------------------------------------------------------------------- in plain terms

  /** No block is pointed to from two places. */
  lemma PointersDistinct(ptrs: seq<seq<nat>>, owner: map<nat, (nat, nat)>, i: nat, s: nat, j: nat, t: nat)
    requires Links(ptrs, owner) && i < |ptrs| && j < |ptrs| && s < SLOTS && t < SLOTS && |ptrs[i]| == |ptrs[j]| == SLOTS
    requires ptrs[i][s] == ptrs[j][t] != 0
    ensures i == j && s == t
  {
  }

  ghost predicate PointsTo(ptrs: seq<seq<nat>>, i: nat, s: nat, b: nat) {
    i < |ptrs| && s < |ptrs[i]| && ptrs[i][s] == b
  }

  /** A bit of the free map is set exactly for a metadata block or a block some inode points to. */
  lemma FreeMapExact(sb: Super, inodes: seq<Inode>, blocks: seq<Block>, ptrs: seq<seq<nat>>,
      owner: map<nat, (nat, nat)>, lens: seq<nat>, b: nat)
    requires Core(sb, inodes, blocks, ptrs, owner, lens) && b < sb.size && |blocks| == sb.size
    ensures Used(sb, blocks, b) <==> b < sb.metaEnd || exists i, s :: PointsTo(ptrs, i, s, b)
  {
    hide Rep, NoHoles, Used;
    if b in owner {
      assert OwnedAt(sb, ptrs, owner[b].0, owner[b].1, b);
      assert PointsTo(ptrs, owner[b].0, owner[b].1, b);
    }
    if i, s :| PointsTo(ptrs, i, s, b) {
      OwnerOf(ptrs, owner, i, s);
    }
  }
}
