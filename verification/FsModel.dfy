/** Inodes, their block pointers and the free map, and what each change of one block keeps. */
module FsModel {
  import opened FsFormat

  datatype Super = Super(size: nat, inodestart: nat, bmapstart: nat, metaEnd: nat)

  /** The free map lies in the metadata blocks, which come before the data blocks. */
  predicate LayoutOk(sb: Super) {
    0 < sb.metaEnd <= sb.size < 0x7fff_e000 && sb.bmapstart + (sb.size - 1) / BPB < sb.metaEnd
  }

  datatype Inode = Inode(addrs: seq<nat>, size: nat)

  /** Where the pointer to a file's k-th data block is: slot 12 holds the indirect block. */
  function DataSlot(k: nat): nat {
    if k < NDIRECT then k else k + 1
  }

  /** Where the j-th word of the indirect block is among the pointers. */
  function IndSlot(j: nat): nat {
    NDIRECT + 1 + j
  }

  /** All the pointers of an inode: twelve direct, the indirect block, and the words in it. */
  ghost predicate Rep(addrs: seq<nat>, blocks: seq<Block>, p: seq<nat>) {
    && |addrs| == NDIRECT + 1 && |p| == SLOTS && p[..NDIRECT + 1] == addrs && p[NDIRECT] < |blocks|
    && forall j :: 0 <= j < NINDIRECT ==> p[IndSlot(j)] == IndirectWord(blocks, p[NDIRECT], j)
  }

  function IndirectWord(blocks: seq<Block>, a: nat, j: nat): nat
    requires j < NINDIRECT && a < |blocks|
  {
    if a == 0 then 0 else Word(blocks[a], j)
  }

  /** owner tells which inode and slot point to a block; so no two slots share one. */
  ghost predicate Links(ptrs: seq<seq<nat>>, owner: map<nat, (nat, nat)>) {
    && (forall i :: 0 <= i < |ptrs| ==> |ptrs[i]| == SLOTS)
    && forall i, s :: 0 <= i < |ptrs| && 0 <= s < SLOTS && ptrs[i][s] != 0 ==>
      ptrs[i][s] in owner && owner[ptrs[i][s]] == (i, s)
  }

  ghost predicate Owned(sb: Super, ptrs: seq<seq<nat>>, owner: map<nat, (nat, nat)>) {
    forall b :: b in owner ==> OwnedAt(sb, ptrs, owner[b].0, owner[b].1, b)
  }

  ghost predicate OwnedAt(sb: Super, ptrs: seq<seq<nat>>, i: nat, s: nat, b: nat) {
    sb.metaEnd <= b < sb.size && i < |ptrs| && s < SLOTS == |ptrs[i]| && ptrs[i][s] == b
  }

  predicate Used(sb: Super, blocks: seq<Block>, b: nat)
    requires LayoutOk(sb) && |blocks| == sb.size && b < sb.size
  {
    BitAt(blocks[sb.bmapstart + b / BPB], b % BPB)
  }

  /** The set bits of the free map are the metadata blocks and the taken data blocks. */
  ghost predicate BitsOk(sb: Super, blocks: seq<Block>, taken: set<nat>) {
    && LayoutOk(sb) && |blocks| == sb.size
    && forall b :: 0 <= b < sb.size ==> (Used(sb, blocks, b) <==> b < sb.metaEnd || b in taken)
  }

  /** Every block below the file's size is there. */
  ghost predicate NoHoles(p: seq<nat>, size: nat) {
    |p| == SLOTS && size <= MAXFILE * BSIZE && forall k :: 0 <= k < MAXFILE && k * BSIZE < size ==> p[DataSlot(k)] != 0
  }

  function ByteAt(p: seq<nat>, blocks: seq<Block>, x: nat): Byte {
    var k := x / BSIZE;
    if k < MAXFILE && |p| == SLOTS && p[DataSlot(k)] < |blocks| then blocks[p[DataSlot(k)]][x % BSIZE] else 0
  }

  /** What a reader of the file sees. */
  function Content(p: seq<nat>, size: nat, blocks: seq<Block>): (c: seq<Byte>)
    ensures |c| == size
  {
    seq(size, x requires 0 <= x => ByteAt(p, blocks, x))
  }

  ghost predicate Reps(inodes: seq<Inode>, blocks: seq<Block>, ptrs: seq<seq<nat>>) {
    |inodes| == |ptrs| && forall i :: 0 <= i < |ptrs| ==> Rep(inodes[i].addrs, blocks, ptrs[i])
  }

  ghost predicate Pointers(sb: Super, inodes: seq<Inode>, blocks: seq<Block>, ptrs: seq<seq<nat>>,
      owner: map<nat, (nat, nat)>)
  {
    Reps(inodes, blocks, ptrs) && Links(ptrs, owner) && Owned(sb, ptrs, owner)
  }

  ghost predicate Filled(lens: seq<nat>, ptrs: seq<seq<nat>>) {
    |lens| == |ptrs| && forall i :: 0 <= i < |ptrs| ==> NoHoles(ptrs[i], lens[i])
  }

  // ----------------------------------------------------------------------- frames

  /** No data block but b has changed. */
  ghost predicate DataSame(sb: Super, blocks: seq<Block>, blocks': seq<Block>, b: nat) {
    |blocks'| == |blocks| == sb.size && forall c :: sb.metaEnd <= c < sb.size && c != b ==> blocks'[c] == blocks[c]
  }

  ghost predicate MetaSame(sb: Super, blocks: seq<Block>, blocks': seq<Block>) {
    |blocks'| == |blocks| == sb.size && sb.metaEnd <= sb.size && forall c :: 0 <= c < sb.metaEnd ==>
      blocks'[c] == blocks[c]
  }

  lemma PointerInRange(sb: Super, ptrs: seq<seq<nat>>, owner: map<nat, (nat, nat)>, i: nat, s: nat)
    requires Links(ptrs, owner) && Owned(sb, ptrs, owner) && i < |ptrs| && s < SLOTS
    ensures ptrs[i][s] == 0 || sb.metaEnd <= ptrs[i][s] < sb.size
  {
  }

  lemma RepFrame(addrs: seq<nat>, blocks: seq<Block>, blocks': seq<Block>, p: seq<nat>)
    requires Rep(addrs, blocks, p) && |blocks'| == |blocks|
    requires p[NDIRECT] != 0 ==> blocks'[p[NDIRECT]] == blocks[p[NDIRECT]]
    ensures Rep(addrs, blocks', p)
  {
  }

  /** A change of one data block that is no inode's indirect block leaves all pointers as they are. */
  lemma RepsFrame(sb: Super, inodes: seq<Inode>, blocks: seq<Block>, blocks': seq<Block>, ptrs: seq<seq<nat>>,
      owner: map<nat, (nat, nat)>, b: nat)
    requires LayoutOk(sb) && Pointers(sb, inodes, blocks, ptrs, owner) && DataSame(sb, blocks, blocks', b)
    requires b !in owner || owner[b].1 != NDIRECT
    ensures Pointers(sb, inodes, blocks', ptrs, owner)
  {
  }

  lemma BitsFrame(sb: Super, blocks: seq<Block>, blocks': seq<Block>, taken: set<nat>)
    requires BitsOk(sb, blocks, taken) && MetaSame(sb, blocks, blocks')
    ensures BitsOk(sb, blocks', taken)
  {
    forall b | 0 <= b < sb.size
      ensures Used(sb, blocks', b) == Used(sb, blocks, b)
    {
    }
  }

  lemma ContentFrame(p: seq<nat>, p': seq<nat>, size: nat, blocks: seq<Block>, blocks': seq<Block>)
    requires NoHoles(p, size) && |p'| == SLOTS && |blocks'| == |blocks|
    requires forall k :: 0 <= k < MAXFILE && k * BSIZE < size ==>
      p'[DataSlot(k)] == p[DataSlot(k)] && (p[DataSlot(k)] < |blocks| ==>
        blocks'[p[DataSlot(k)]] == blocks[p[DataSlot(k)]])
    ensures Content(p', size, blocks') == Content(p, size, blocks)
  {
  }

  // ----------------------------------------------------------------------- the free map

  /** balloc's change: the block's bit is set and the block is zeroed. */
  function Allocated(sb: Super, blocks: seq<Block>, b: nat): seq<Block>
    requires LayoutOk(sb) && |blocks| == sb.size && b < sb.size
  {
    var m := sb.bmapstart + b / BPB;
    blocks[m := SetBitAt(blocks[m], b % BPB)][b := ZeroBlock()]
  }

  /** bfree's change: the block's bit is cleared. */
  function Freed(sb: Super, blocks: seq<Block>, b: nat): seq<Block>
    requires LayoutOk(sb) && |blocks| == sb.size && b < sb.size
  {
    var m := sb.bmapstart + b / BPB;
    blocks[m := ClearBitAt(blocks[m], b % BPB)]
  }

  lemma MapBlock(sb: Super, b: nat)
    requires LayoutOk(sb) && b < sb.size
    ensures sb.bmapstart + b / BPB < sb.metaEnd
  {
  }

  lemma AllocatedUsed(sb: Super, blocks: seq<Block>, b: nat, c: nat)
    requires LayoutOk(sb) && |blocks| == sb.size && sb.metaEnd <= b < sb.size && c < sb.size
    ensures Used(sb, Allocated(sb, blocks, b), c) <==> c == b || Used(sb, blocks, c)
  {
    hide BitAt, SetBitAt;
    MapBlock(sb, b);
    MapBlock(sb, c);
    BlockBits(blocks[sb.bmapstart + b / BPB], b % BPB, c % BPB);
  }

  lemma FreedUsed(sb: Super, blocks: seq<Block>, b: nat, c: nat)
    requires LayoutOk(sb) && |blocks| == sb.size && b < sb.size && c < sb.size
    ensures Used(sb, Freed(sb, blocks, b), c) <==> c != b && Used(sb, blocks, c)
  {
    hide BitAt, ClearBitAt;
    BlockBits(blocks[sb.bmapstart + b / BPB], b % BPB, c % BPB);
  }

  lemma AllocatedBits(sb: Super, blocks: seq<Block>, taken: set<nat>, b: nat)
    requires BitsOk(sb, blocks, taken) && b < sb.size && !Used(sb, blocks, b)
    ensures sb.metaEnd <= b && b !in taken
    ensures BitsOk(sb, Allocated(sb, blocks, b), taken + {b})
    ensures DataSame(sb, blocks, Allocated(sb, blocks, b), b) && Allocated(sb, blocks, b)[b] == ZeroBlock()
  {
    hide Used;
    MapBlock(sb, b);
    forall c | 0 <= c < sb.size
      ensures Used(sb, Allocated(sb, blocks, b), c) <==> c < sb.metaEnd || c in taken + {b}
    {
      AllocatedUsed(sb, blocks, b, c);
    }
  }

  lemma FreedBits(sb: Super, blocks: seq<Block>, taken: set<nat>, b: nat)
    requires BitsOk(sb, blocks, taken) && sb.metaEnd <= b < sb.size
    ensures BitsOk(sb, Freed(sb, blocks, b), taken - {b})
    ensures DataSame(sb, blocks, Freed(sb, blocks, b), 0)
  {
    hide Used;
    MapBlock(sb, b);
    forall c | 0 <= c < sb.size
      ensures Used(sb, Freed(sb, blocks, b), c) <==> c < sb.metaEnd || c in taken - {b}
    {
      FreedUsed(sb, blocks, b, c);
    }
  }

  // ----------------------------------------------------------------------- the whole invariant

  /**
   The pointers are sound, the free map is exact, and each file has all blocks below its
   length.  The lengths are the inodes' sizes between calls; during a write they run ahead.
   */
  ghost predicate Core(sb: Super, inodes: seq<Inode>, blocks: seq<Block>, ptrs: seq<seq<nat>>,
      owner: map<nat, (nat, nat)>, lens: seq<nat>)
  {
    && LayoutOk(sb) && |blocks| == sb.size && |inodes| == |ptrs| == |lens|
    && BitsOk(sb, blocks, owner.Keys)
    && Pointers(sb, inodes, blocks, ptrs, owner)
    && Filled(lens, ptrs)
  }

  /** Each file's contents. */
  ghost function Files(lens: seq<nat>, ptrs: seq<seq<nat>>, blocks: seq<Block>): (f: seq<seq<Byte>>)
    requires |lens| == |ptrs|
    ensures |f| == |lens|
  {
    seq(|lens|, i requires 0 <= i < |lens| => Content(ptrs[i], lens[i], blocks))
  }

  /** A block no file keeps data in may change without any file changing. */
  lemma FilesFrame(sb: Super, lens: seq<nat>, blocks: seq<Block>, blocks': seq<Block>, ptrs: seq<seq<nat>>,
      owner: map<nat, (nat, nat)>, b: nat)
    requires Links(ptrs, owner) && Owned(sb, ptrs, owner) && Filled(lens, ptrs) && DataSame(sb, blocks, blocks', b)
    requires b !in owner || owner[b].1 == NDIRECT
    ensures Files(lens, ptrs, blocks') == Files(lens, ptrs, blocks)
  {
    hide Content, Owned, NoHoles;
    forall i | 0 <= i < |ptrs|
      ensures Content(ptrs[i], lens[i], blocks') == Content(ptrs[i], lens[i], blocks)
    {
      forall k | 0 <= k < MAXFILE && k * BSIZE < lens[i]
        ensures ptrs[i][DataSlot(k)] < |blocks| ==> blocks'[ptrs[i][DataSlot(k)]] == blocks[ptrs[i][DataSlot(k)]]
      {
        HoleFree(ptrs[i], lens[i], k);
        PointerInRange(sb, ptrs, owner, i, DataSlot(k));
      }
      ContentFrame(ptrs[i], ptrs[i], lens[i], blocks, blocks');
    }
  }

  lemma HoleFree(p: seq<nat>, size: nat, k: nat)
    requires NoHoles(p, size) && k < MAXFILE && k * BSIZE < size
    ensures |p| == SLOTS && p[DataSlot(k)] != 0
  {
  }

  // ----------------------------------------------------------------------- linking a block

  function SetPtr(ptrs: seq<seq<nat>>, i: nat, s: nat, b: nat): seq<seq<nat>>
    requires i < |ptrs| && s < |ptrs[i]|
  {
    var p: seq<nat> := ptrs[i][s := b];
    ptrs[i := p]
  }

  lemma LinksAdd(sb: Super, ptrs: seq<seq<nat>>, owner: map<nat, (nat, nat)>, i: nat, s: nat, b: nat)
    requires Links(ptrs, owner) && Owned(sb, ptrs, owner) && i < |ptrs| && s < SLOTS && ptrs[i][s] == 0
    requires b !in owner && 0 < sb.metaEnd <= b < sb.size
    ensures Links(SetPtr(ptrs, i, s, b), owner[b := (i, s)])
    ensures Owned(sb, SetPtr(ptrs, i, s, b), owner[b := (i, s)])
  {
  }

  lemma LinkContent(p: seq<nat>, s: nat, b: nat, size: nat, blocks: seq<Block>)
    requires NoHoles(p, size) && s < SLOTS && p[s] == 0 && b != 0
    ensures NoHoles(p[s := b], size) && Content(p[s := b], size, blocks) == Content(p, size, blocks)
  {
  }

  lemma FilledAdd(lens: seq<nat>, ptrs: seq<seq<nat>>, i: nat, s: nat, b: nat, blocks: seq<Block>)
    requires Filled(lens, ptrs) && i < |ptrs| && s < SLOTS == |ptrs[i]| && ptrs[i][s] == 0 && b != 0
    ensures Filled(lens, SetPtr(ptrs, i, s, b))
    ensures Files(lens, SetPtr(ptrs, i, s, b), blocks) == Files(lens, ptrs, blocks)
  {
    hide NoHoles, Content;
    LinkContent(ptrs[i], s, b, lens[i], blocks);
  }

  lemma RepDirect(addrs: seq<nat>, blocks: seq<Block>, p: seq<nat>, s: nat, b: nat)
    requires Rep(addrs, blocks, p) && s <= NDIRECT && p[s] == 0 && b < |blocks|
    requires s == NDIRECT ==> blocks[b] == ZeroBlock()
    ensures Rep(addrs[s := b], blocks, p[s := b])
  {
  }

  /** A fresh block is hung into an inode's own pointers. */
  lemma LinkDirect(sb: Super, inodes: seq<Inode>, blocks: seq<Block>, blocks': seq<Block>, ptrs: seq<seq<nat>>,
      owner: map<nat, (nat, nat)>,
                   lens: seq<nat>, i: nat, s: nat, b: nat)
    requires Core(sb, inodes, blocks, ptrs, owner, lens) && i < |inodes| && s <= NDIRECT && ptrs[i][s] == 0
    requires b !in owner && sb.metaEnd <= b < sb.size && BitsOk(sb, blocks', owner.Keys + {b})
    requires DataSame(sb, blocks, blocks', b) && blocks'[b] == ZeroBlock()
    ensures |inodes[i].addrs| == NDIRECT + 1
    ensures var inodes' := inodes[i := inodes[i].(addrs := inodes[i].addrs[s := b])];
            Core(sb, inodes', blocks', SetPtr(ptrs, i, s, b), owner[b := (i, s)], lens)
    ensures Files(lens, SetPtr(ptrs, i, s, b), blocks') == Files(lens, ptrs, blocks)
  {
    hide Rep, BitsOk, Links, Owned, NoHoles, Content, Filled, Files;
    LinksShape(ptrs, owner, i);
    RepsFrame(sb, inodes, blocks, blocks', ptrs, owner, b);
    RepAddrs(inodes[i].addrs, blocks', ptrs[i]);
    FilesFrame(sb, lens, blocks, blocks', ptrs, owner, b);
    LinksAdd(sb, ptrs, owner, i, s, b);
    RepDirect(inodes[i].addrs, blocks', ptrs[i], s, b);
    FilledAdd(lens, ptrs, i, s, b, blocks');
    assert owner[b := (i, s)].Keys == owner.Keys + {b};
  }

  /** A fresh block is hung into an inode's indirect block. */
  lemma LinkIndirect(sb: Super, inodes: seq<Inode>, blocks: seq<Block>, blocks1: seq<Block>, ptrs: seq<seq<nat>>,
      owner: map<nat, (nat, nat)>,
                     lens: seq<nat>, i: nat, j: nat, b: nat)
    requires Core(sb, inodes, blocks, ptrs, owner, lens) && i < |inodes| && j < NINDIRECT
    requires |ptrs[i]| == SLOTS && ptrs[i][NDIRECT] != 0 && ptrs[i][IndSlot(j)] == 0
    requires b !in owner && sb.metaEnd <= b < sb.size && BitsOk(sb, blocks1, owner.Keys + {b})
    requires DataSame(sb, blocks, blocks1, b)
    ensures var a := ptrs[i][NDIRECT];
            && a < sb.size
            && var blocks2 := blocks1[a := SetWord(blocks1[a], j, b)];
            && Core(sb, inodes, blocks2, SetPtr(ptrs, i, IndSlot(j), b), owner[b := (i, IndSlot(j))], lens)
            && Files(lens, SetPtr(ptrs, i, IndSlot(j), b), blocks2) == Files(lens, ptrs, blocks)
  {
    hide Rep, BitsOk, Links, Owned, NoHoles, Content, Filled, Files;
    var a, s := ptrs[i][NDIRECT], IndSlot(j);
    PointerInRange(sb, ptrs, owner, i, NDIRECT);
    OwnerOf(ptrs, owner, i, NDIRECT);
    var blocks2 := blocks1[a := SetWord(blocks1[a], j, b)];
    RepsFrame(sb, inodes, blocks, blocks1, ptrs, owner, b);
    FilesFrame(sb, lens, blocks, blocks1, ptrs, owner, b);
    FilesFrame(sb, lens, blocks1, blocks2, ptrs, owner, a);
    BitsFrame(sb, blocks1, blocks2, owner.Keys + {b});
    LinksAdd(sb, ptrs, owner, i, s, b);
    FilledAdd(lens, ptrs, i, s, b, blocks2);
    RepsIndirect(sb, inodes, blocks1, ptrs, owner, i, j, b);
    assert owner[b := (i, s)].Keys == owner.Keys + {b};
  }

  lemma RepsIndirect(sb: Super, inodes: seq<Inode>, blocks: seq<Block>, ptrs: seq<seq<nat>>,
      owner: map<nat, (nat, nat)>, i: nat, j: nat, b: nat)
    requires LayoutOk(sb) && Pointers(sb, inodes, blocks, ptrs, owner) && |blocks| == sb.size && i < |inodes| &&
      j < NINDIRECT && b < UINT
    requires |ptrs[i]| == SLOTS && 0 < ptrs[i][NDIRECT] < sb.size
    ensures var a := ptrs[i][NDIRECT];
            Reps(inodes, blocks[a := SetWord(blocks[a], j, b)], SetPtr(ptrs, i, IndSlot(j), b))
  {
  }

  lemma OwnerOf(ptrs: seq<seq<nat>>, owner: map<nat, (nat, nat)>, i: nat, s: nat)
    requires Links(ptrs, owner) && i < |ptrs| && s < SLOTS
    ensures |ptrs[i]| == SLOTS
    ensures ptrs[i][s] != 0 ==> ptrs[i][s] in owner && owner[ptrs[i][s]] == (i, s)
  {
  }

  lemma LinksShape(ptrs: seq<seq<nat>>, owner: map<nat, (nat, nat)>, i: nat)
    requires Links(ptrs, owner) && i < |ptrs|
    ensures |ptrs[i]| == SLOTS
  {
  }

  lemma RepAddrs(addrs: seq<nat>, blocks: seq<Block>, p: seq<nat>)
    requires Rep(addrs, blocks, p)
    ensures |addrs| == NDIRECT + 1 && |p| == SLOTS
    ensures forall s :: 0 <= s <= NDIRECT ==> addrs[s] == p[s]
    ensures forall j :: 0 <= j < NINDIRECT && p[NDIRECT] == 0 ==> p[IndSlot(j)] == 0
    ensures forall j :: 0 <= j < NINDIRECT && 0 < p[NDIRECT] < |blocks| ==> p[IndSlot(j)] == Word(blocks[p[NDIRECT]], j)
  {
  }
}
