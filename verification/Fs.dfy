/** The file content layer: block allocation, block maps, truncation, reading and writing. */
module Fs {
  import opened FsFormat
  import opened FsModel
  import opened FsSteps
  import opened FsBudget

  /** The free map has no clear bit. */
  ghost predicate Full(sb: Super, blocks: seq<Block>) {
    LayoutOk(sb) && |blocks| == sb.size && forall b :: 0 <= b < sb.size ==> Used(sb, blocks, b)
  }

  ghost predicate Sizes(inodes: seq<Inode>, lens: seq<nat>) {
    |inodes| == |lens| && forall i :: 0 <= i < |inodes| ==> inodes[i].size == lens[i]
  }

  /** The bit that balloc's loops look at, and what they do to it. */
  lemma BitOf(sb: Super, blocks: seq<Block>, b: nat, bi: nat)
    requires LayoutOk(sb) && |blocks| == sb.size && b % BPB == 0 && bi < BPB && b + bi < sb.size
    ensures var m := sb.bmapstart + b / BPB;
            && m < sb.metaEnd
            && (Used(sb, blocks, b + bi) <==> BitAt(blocks[m], bi))
            && Allocated(sb, blocks, b + bi) == blocks[m := SetBitAt(blocks[m], bi)][b + bi := ZeroBlock()]
  {
  }

  /** writei refuses: past the end, wrapping around 32 bits, or longer than a file can be. */
  predicate BadWrite(size: nat, off: nat, n: nat) {
    off > size || off + n >= UINT || off + n > MAXFILE * BSIZE
  }

  /** What readi delivers. */
  function Readable(f: seq<Byte>, off: nat, n: nat): seq<Byte> {
    if off > |f| || off + n >= UINT then [] else f[off..if off + n > |f| then |f| else off + n]
  }

  // ----------------------------------------------------------------------- files as byte sequences

  datatype Op = Write(i: nat, off: nat, src: seq<Byte>) | Read(i: nat, off: nat, n: nat) | Trunc(i: nat)
  datatype Result = Count(n: int) | Bytes(d: seq<Byte>) | Done

  /** The arguments are an inode that exists and 32-bit numbers. */
  predicate Callable(op: Op, n: nat) {
    op.i < n &&
    match op
    case Write(_, off, src) => off < UINT && |src| < UINT
    case Read(_, off, len) => off < UINT && len < UINT
    case Trunc(_) => true
  }

  /** The answers an operation may give on the files f. */
  predicate Legal(f: seq<seq<Byte>>, op: Op, r: Result) {
    op.i < |f| &&
    match op
    case Write(i, off, src) =>
      r.Count? && if BadWrite(|f[i]|, off, |src|) then r.n == -1 else off <= |f[i]| && 0 <= r.n <= |src|
    case Read(i, off, n) => r.Bytes? && r.d == Readable(f[i], off, n)
    case Trunc(_) => r.Done?
  }

  /** A write that was not refused and did not write everything. */
  predicate Short(op: Op, r: Result) {
    op.Write? && r.Count? && 0 <= r.n < |op.src|
  }

  /** The files after an operation that answered r. */
  function Apply(f: seq<seq<Byte>>, op: Op, r: Result): (f': seq<seq<Byte>>)
    requires Legal(f, op, r)
    ensures |f'| == |f|
  {
    match op
    case Write(i, off, src) => if r.n == -1 then f else f[i := Spliced(f[i], off, src[..r.n])]
    case Read(_, _, _) => f
    case Trunc(i) => f[i := []]
  }

  ghost predicate Explained(f: seq<seq<Byte>>, ops: seq<Op>, rs: seq<Result>)
    requires |ops| == |rs|
    decreases |ops|, 0
  {
    ops == [] || (Explained(f, ops[..|ops| - 1], rs[..|rs| - 1]) &&
                  Legal(After(f, ops[..|ops| - 1], rs[..|rs| - 1]), ops[|ops| - 1], rs[|rs| - 1]))
  }

  ghost function After(f: seq<seq<Byte>>, ops: seq<Op>, rs: seq<Result>): (f': seq<seq<Byte>>)
    requires |ops| == |rs| && Explained(f, ops, rs)
    ensures |f'| == |f|
    decreases |ops|, 1
  {
    if ops == [] then f else Apply(After(f, ops[..|ops| - 1], rs[..|rs| - 1]), ops[|ops| - 1], rs[|rs| - 1])
  }

  lemma NothingAfter(f: seq<seq<Byte>>)
    ensures Explained(f, [], []) && After(f, [], []) == f
  {
  }

  lemma StepAfter(f: seq<seq<Byte>>, ops: seq<Op>, rs: seq<Result>, op: Op, r: Result)
    requires |ops| == |rs| && Explained(f, ops, rs) && Legal(After(f, ops, rs), op, r)
    ensures Explained(f, ops + [op], rs + [r]) && After(f, ops + [op], rs + [r]) == Apply(After(f, ops, rs), op, r)
  {
  }

  /** Operations on other inodes leave a file alone. */
  lemma {:induction false} OthersUntouched(f: seq<seq<Byte>>, ops: seq<Op>, rs: seq<Result>, j: nat)
    requires |ops| == |rs| && Explained(f, ops, rs) && j < |f| && forall op :: op in ops ==> op.i != j
    ensures After(f, ops, rs)[j] == f[j]
  {
    hide Legal;
    if ops != [] {
      assert ops[|ops| - 1] in ops;
      OthersUntouched(f, ops[..|ops| - 1], rs[..|rs| - 1], j);
    }
  }

  /** Reading back what was written. */
  lemma ReadAfterWrite(f: seq<Byte>, off: nat, d: seq<Byte>)
    requires off <= |f| && off + |d| < UINT
    ensures Readable(Spliced(f, off, d), off, |d|) == d
  {
  }

  /** What a read delivers, byte by byte: as much as is there, and nothing past the end or around 32 bits. */
  lemma ReadableBytes(f: seq<Byte>, off: nat, n: nat)
    ensures off <= |f| && off + n < UINT ==>
      && |Readable(f, off, n)| == (if n <= |f| - off then n else |f| - off)
      && forall k :: 0 <= k < |Readable(f, off, n)| ==> Readable(f, off, n)[k] == f[off + k]
    ensures off > |f| || off + n >= UINT ==> Readable(f, off, n) == []
  {
  }

  /** Operations on other inodes leave what a file was after the first k. */
  lemma {:induction false} KeptSince(f: seq<seq<Byte>>, ops: seq<Op>, rs: seq<Result>, k: nat, j: nat)
    requires |ops| == |rs| && Explained(f, ops, rs) && k <= |ops| && j < |f|
    requires forall m :: k <= m < |ops| ==> ops[m].i != j
    ensures Explained(f, ops[..k], rs[..k]) && After(f, ops, rs)[j] == After(f, ops[..k], rs[..k])[j]
  {
    hide Legal;
    if k == |ops| {
      assert ops[..k] == ops && rs[..k] == rs;
    } else {
      var n := |ops| - 1;
      KeptSince(f, ops[..n], rs[..n], k, j);
      assert ops[..n][..k] == ops[..k] && rs[..n][..k] == rs[..k];
    }
  }

  /**
   Whatever happens in between on other inodes, a write that was within the file and its limits, and was answered in
   full, reads back.
   */
  lemma ReadBackInRun(f: seq<seq<Byte>>, ops: seq<Op>, rs: seq<Result>, i: nat, off: nat, src: seq<Byte>)
    requires |ops| == |rs| >= 2 && Explained(f, ops, rs) && i < |f| && off <= |f[i]| && off + |src| <= 268 * 1024
    requires ops[0] == Write(i, off, src) && ops[|ops| - 1] == Read(i, off, |src|)
    requires forall m :: 1 <= m < |ops| - 1 ==> ops[m].i != i
    requires Short(ops[0], rs[0]) ==> src == []
    ensures rs[0] == Count(|src|) && rs[|ops| - 1] == Bytes(src)
  {
    hide Spliced;
    var n := |ops| - 1;
    KeptSince(f, ops[..n], rs[..n], 1, i);
    assert ops[..n][..1] == [ops[0]] && rs[..n][..1] == [rs[0]];
    FirstAfter(f, ops[0], rs[0]);
    ReadAfterWrite(f[i], off, src);
    assert src[..|src|] == src;
  }

  lemma FirstAfter(f: seq<seq<Byte>>, op: Op, r: Result)
    requires Explained(f, [op], [r])
    ensures Legal(f, op, r) && After(f, [op], [r]) == Apply(f, op, r)
  {
    hide Legal, Apply;
    assert [op][..0] == [] && [r][..0] == [];
  }

  /** The pointers with the first i cleared. */
  function Cleared(addrs: seq<nat>, i: nat): (r: seq<nat>)
    ensures |r| == |addrs|
  {
    seq(|addrs|, k requires 0 <= k < |addrs| => if k < i then 0 else addrs[k])
  }

  /** A moment of the file system, with where its blocks belong. */
  datatype State = State(inodes: seq<Inode>, blocks: seq<Block>, ptrs: seq<seq<nat>>, owner: map<nat, (nat, nat)>,
    lens: seq<nat>)

  /** The block pointers and the free map are sound, and the sizes are those of the files. */
  ghost predicate Good(sb: Super, s: State) {
    Core(sb, s.inodes, s.blocks, s.ptrs, s.owner, s.lens) && Sizes(s.inodes, s.lens)
  }

  ghost function FilesOf(s: State): seq<seq<Byte>>
    requires |s.lens| == |s.ptrs|
  {
    Files(s.lens, s.ptrs, s.blocks)
  }

  /** The operation leads from one sound disk to another as on byte sequences, and is short only on a full disk. */
  ghost predicate Performed(sb: Super, s: State, op: Op, r: Result, s': State) {
    && Good(sb, s) && Good(sb, s') && Legal(FilesOf(s), op, r) && FilesOf(s') == Apply(FilesOf(s), op, r)
    && (Short(op, r) ==> Full(sb, s'.blocks))
  }

  /**
   On a disk that is not full afterwards every write inside the file or at its end, up to the largest file, is
   answered in full, so files grow; and the bytes read back.
   */
  lemma AppendReadsBack(sb: Super, s: State, s1: State, s2: State, i: nat, off: nat, src: seq<Byte>, r1: Result,
      r2: Result)
    requires Performed(sb, s, Write(i, off, src), r1, s1) && Performed(sb, s1, Read(i, off, |src|), r2, s2)
    requires off <= |FilesOf(s)[i]| && off + |src| <= 268 * 1024 && !Full(sb, s1.blocks)
    ensures r1 == Count(|src|) && r2 == Bytes(src) && FilesOf(s2) == FilesOf(s1)
    ensures |FilesOf(s1)[i]| == Max(|FilesOf(s)[i]|, off + |src|)
    ensures forall j :: 0 <= j < |FilesOf(s)| && j != i ==> FilesOf(s1)[j] == FilesOf(s)[j]
  {
    hide Files, Full, Spliced, BitsOk, Pointers, Filled;
    SplicedAt(FilesOf(s)[i], off, src);
    ReadAfterWrite(FilesOf(s)[i], off, src);
    assert src[..|src|] == src;
  }

  /** A sound disk is full exactly when every data block is some inode's. */
  lemma FullIff(sb: Super, s: State)
    requires Good(sb, s)
    ensures Full(sb, s.blocks) <==> forall b :: sb.metaEnd <= b < sb.size ==> b in s.owner
    ensures forall b :: b in s.owner ==> exists i, k :: PointsTo(s.ptrs, i, k, b)
  {
    hide Rep, NoHoles, Used;
    forall b | b in s.owner
      ensures exists i, k :: PointsTo(s.ptrs, i, k, b)
    {
      assert OwnedAt(sb, s.ptrs, s.owner[b].0, s.owner[b].1, b);
      assert PointsTo(s.ptrs, s.owner[b].0, s.owner[b].1, b);
    }
  }

  class FileSystem {
    const sb: Super
    var blocks: seq<Block>
    var inodes: seq<Inode>
    var dinodes: seq<Inode>
    ghost var ptrs: seq<seq<nat>>
    ghost var owner: map<nat, (nat, nat)>
    ghost var lens: seq<nat>
    ghost var logged: set<nat> // the blocks passed to log_write

    ghost predicate Sound()
      reads this
    {
      Core(sb, inodes, blocks, ptrs, owner, lens)
    }

    ghost predicate Valid()
      reads this
    {
      Sound() && dinodes == inodes && Sizes(inodes, lens)
    }

    ghost function Contents(): seq<seq<Byte>>
      requires |lens| == |ptrs|
      reads this
    {
      Files(lens, ptrs, blocks)
    }

    ghost function Snapshot(): State
      reads this
    {
      State(inodes, blocks, ptrs, owner, lens)
    }

    constructor (sb: Super, blocks: seq<Block>, inodes: seq<Inode>, ghost ptrs: seq<seq<nat>>,
        ghost owner: map<nat, (nat, nat)>, ghost lens: seq<nat>)
      requires Core(sb, inodes, blocks, ptrs, owner, lens) && Sizes(inodes, lens)
      ensures Valid() && this.sb == sb && this.blocks == blocks && this.inodes == inodes &&
        Contents() == Files(lens, ptrs, blocks)
    {
      this.sb, this.blocks, this.inodes, this.dinodes := sb, blocks, inodes, inodes;
      this.ptrs, this.owner, this.lens, this.logged := ptrs, owner, lens, {};
    }

    /** Finds the first clear bit, sets it and zeroes the block; 0 when there is none. */
    method Balloc(ghost taken: set<nat>) returns (r: nat)
      requires BitsOk(sb, blocks, taken)
      modifies this`blocks, this`logged
      ensures r == 0 ==> blocks == old(blocks) && Full(sb, blocks) && logged == old(logged)
      ensures r != 0 ==> logged == old(logged) + {r, MapOf(sb, r)} && Covered(old(blocks), blocks, logged)
      ensures r != 0 ==> sb.metaEnd <= r < sb.size && r !in taken && BitsOk(sb, blocks, taken + {r})
      ensures r != 0 ==> DataSame(sb, old(blocks), blocks, r) && blocks[r] == ZeroBlock()
      ensures r != 0 ==> forall c :: 0 <= c < r ==> Used(sb, old(blocks), c)
    {
      hide BitAt, SetBitAt, ZeroBlock, Used, BitsOk, Allocated;
      LayoutOf(sb, blocks, taken);
      var b := 0;
      while b < sb.size
        invariant b % BPB == 0 && blocks == old(blocks) && logged == old(logged)
        invariant forall c :: 0 <= c < b && c < sb.size ==> Used(sb, blocks, c)
      {
        var bi := 0;
        while bi < BPB && b + bi < sb.size
          invariant bi <= BPB && blocks == old(blocks) && logged == old(logged)
          invariant forall c :: 0 <= c < b + bi && c < sb.size ==> Used(sb, blocks, c)
        {
          BitOf(sb, blocks, b, bi);
          var m := sb.bmapstart + b / BPB;
          if !BitAt(blocks[m], bi) {
            AllocatedBits(sb, blocks, taken, b + bi);
            blocks := blocks[m := SetBitAt(blocks[m], bi)];
            blocks := blocks[b + bi := ZeroBlock()];
            logged := logged + {b + bi, m};
            return b + bi;
          }
          bi := bi + 1;
        }
        b := b + BPB;
      }
      return 0;
    }

    /** Clears the bit of a taken block; the panic for a clear bit cannot happen. */
    method Bfree(b: nat, ghost taken: set<nat>)
      requires BitsOk(sb, blocks, taken) && b in taken && sb.metaEnd <= b < sb.size
      modifies this`blocks, this`logged
      ensures BitsOk(sb, blocks, taken - {b}) && DataSame(sb, old(blocks), blocks, 0)
      ensures logged == old(logged) + {MapOf(sb, b)} && Covered(old(blocks), blocks, logged)
    {
      hide BitAt, ClearBitAt;
      FreedBits(sb, blocks, taken, b);
      var m, bi := sb.bmapstart + b / BPB, b % BPB;
      MapBlock(sb, b);
      assert Used(sb, blocks, b);
      assert BitAt(blocks[m], bi);
      blocks := blocks[m := ClearBitAt(blocks[m], bi)];
      logged := logged + {m};
    }

    /** One of the inode's own pointers, with a block allocated for it if it has none. */
    method AddrOrAlloc(inum: nat, s: nat) returns (addr: nat)
      requires Sound() && inum < |inodes| && s <= NDIRECT
      modifies this`blocks, this`inodes, this`ptrs, this`owner, this`logged
      ensures Sound() && |inodes| == old(|inodes|) && Contents() == old(Contents())
      ensures forall i :: 0 <= i < |inodes| ==>
        inodes[i].size == old(inodes[i].size) && (i != inum ==> inodes[i] == old(inodes[i]))
      ensures addr == ptrs[inum][s] && (addr == 0 ==> Full(sb, blocks))
      ensures addr == 0 || old(ptrs[inum][s]) != 0 ==>
        blocks == old(blocks) && inodes == old(inodes) && ptrs == old(ptrs) && owner == old(owner) &&
        logged == old(logged)
      ensures addr != 0 && old(ptrs[inum][s]) == 0 ==> logged == old(logged) + {addr, MapOf(sb, addr)}
      ensures Covered(old(blocks), blocks, logged)
      ensures |ptrs| == old(|ptrs|) && |ptrs[inum]| == SLOTS && forall t :: 0 <= t < SLOTS && t != s ==>
        ptrs[inum][t] == old(ptrs[inum][t])
    {
      hide BitsOk, Rep, Links, Owned, Filled, Files;
      LinksShape(ptrs, owner, inum);
      RepAddrs(inodes[inum].addrs, blocks, ptrs[inum]);
      addr := inodes[inum].addrs[s];
      if addr == 0 {
        addr := Balloc(owner.Keys);
        if addr == 0 {
          return;
        }
        LinkDirect(sb, inodes, old(blocks), blocks, ptrs, owner, lens, inum, s, addr);
        inodes := inodes[inum := inodes[inum].(addrs := inodes[inum].addrs[s := addr])];
        ptrs := SetPtr(ptrs, inum, s, addr);
        owner := owner[addr := (inum, s)];
      }
    }

    /** The block that holds the file's bn-th block of data, allocated if it is missing; 0 when the disk is full. */
    method Bmap(inum: nat, bn: nat) returns (addr: nat)
      requires Sound() && inum < |inodes| && bn < MAXFILE
      modifies this`blocks, this`inodes, this`ptrs, this`owner, this`logged
      ensures Sound() && |inodes| == old(|inodes|) && Contents() == old(Contents())
      ensures forall i :: 0 <= i < |inodes| ==>
        inodes[i].size == old(inodes[i].size) && (i != inum ==> inodes[i] == old(inodes[i]))
      ensures |ptrs| == |inodes| && |ptrs[inum]| == SLOTS
      ensures addr == ptrs[inum][DataSlot(bn)] && (addr == 0 ==> Full(sb, blocks))
      ensures old(ptrs[inum][DataSlot(bn)]) != 0 ==>
        blocks == old(blocks) && inodes == old(inodes) && ptrs == old(ptrs) && owner == old(owner) &&
        logged == old(logged)
      ensures Mapped(sb, old(logged), logged, old(ptrs[inum][NDIRECT]), ptrs[inum][NDIRECT], addr)
      ensures Covered(old(blocks), blocks, logged)
    {
      hide BitsOk, Rep, Links, Owned, Filled, Files, Full, Covered, MapOf;
      LinksShape(ptrs, owner, inum);
      if bn < NDIRECT {
        addr := AddrOrAlloc(inum, bn);
        return;
      }
      var j := bn - NDIRECT;
      assert DataSlot(bn) == IndSlot(j);
      RepAddrs(inodes[inum].addrs, blocks, ptrs[inum]);
      var a := AddrOrAlloc(inum, NDIRECT);
      if a == 0 {
        return 0;
      }
      PointerInRange(sb, ptrs, owner, inum, NDIRECT);
      RepAddrs(inodes[inum].addrs, blocks, ptrs[inum]);
      ghost var l := logged;
      addr := Word(blocks[a], j);
      assert addr == ptrs[inum][IndSlot(j)];
      if addr == 0 {
        ghost var before := blocks;
        addr := Balloc(owner.Keys);
        if addr != 0 {
          LinkIndirect(sb, inodes, before, blocks, ptrs, owner, lens, inum, j, addr);
          ghost var middle, l1 := blocks, logged;
          blocks, logged := blocks[a := SetWord(blocks[a], j, addr)], logged + {a};
          CoveredOne(middle, a, SetWord(middle[a], j, addr), logged);
          CoveredTrans(old(blocks), before, l, middle, l1);
          CoveredTrans(old(blocks), middle, l1, blocks, logged);
          ptrs := SetPtr(ptrs, inum, IndSlot(j), addr);
          owner := owner[addr := (inum, IndSlot(j))];
        }
      }
    }

    /** Copies the inode to its place on disk. */
    method Iupdate(inum: nat)
      requires inum < |inodes| == |dinodes|
      modifies this`dinodes, this`logged
      ensures dinodes == old(dinodes)[inum := inodes[inum]] && logged == old(logged) + {InodeBlock(sb, inum)}
    {
      dinodes := dinodes[inum := inodes[inum]];
      logged := logged + {InodeBlock(sb, inum)};
    }

    /** Discards the contents of a file and frees its blocks. */
    method Itrunc(inum: nat)
      requires Valid() && inum < |inodes|
      modifies this
      ensures Valid() && |inodes| == old(|inodes|) && Contents() == old(Contents())[inum := []]
      ensures inodes == old(inodes)[inum := Inode(NoPointers(NDIRECT + 1), 0)]
      ensures Covered(old(blocks), blocks, logged) && InodeBlock(sb, inum) in logged
      ensures old(logged) <= logged && |logged - old(logged)| <= MapCount(sb) + 1
    {
      hide BitsOk, Rep, Links, Owned, Filled, Files, Gone, Others, Covered, MapsOnly;
      LinksShape(ptrs, owner, inum);
      ghost var p := ptrs[inum];
      RepAddrs(inodes[inum].addrs, blocks, p);
      assert p[..NDIRECT + 1] == inodes[inum].addrs;
      TruncDirect(inum);
      ghost var middle, l := blocks, logged;
      PointerInRange(sb, ptrs, owner, inum, NDIRECT);
      RepFrame(p[..NDIRECT + 1], old(blocks), blocks, p);
      TruncIndirect(inum);
      TruncLogged(sb, old(blocks), old(logged), middle, l, blocks, logged, InodeBlock(sb, inum));
      Truncated(sb, old(inodes), old(blocks), blocks, ptrs, owner, lens, inum);
      inodes := inodes[inum := inodes[inum].(size := 0)];
      ptrs, owner, lens := ptrs[inum := NoPointers(SLOTS)], Others(owner, inum), lens[inum := 0];
      assert inodes[inum].addrs == NoPointers(NDIRECT + 1);
      Iupdate(inum);
    }

    /** itrunc's first loop: the direct blocks. */
    method TruncDirect(inum: nat)
      requires Sound() && inum < |inodes|
      modifies this`blocks, this`inodes, this`logged
      ensures MapsOnly(sb, old(logged), logged) && Covered(old(blocks), blocks, logged)
      ensures DataSame(sb, old(blocks), blocks, 0) && |ptrs[inum]| == SLOTS
      ensures BitsOk(sb, blocks, owner.Keys - Gone(ptrs[inum], NDIRECT))
      ensures |old(inodes)[inum].addrs| == NDIRECT + 1
      ensures inodes == old(inodes)[inum := old(inodes)[inum].(addrs := Cleared(old(inodes)[inum].addrs, NDIRECT))]
    {
      hide BitsOk, Rep, Links, Owned, Filled, Files, Gone, MapOf, MapBlocks, Covered, MapsOnly;
      LinksShape(ptrs, owner, inum);
      ghost var p := ptrs[inum];
      RepAddrs(inodes[inum].addrs, blocks, p);
      NothingFreed(sb, blocks, logged);
      ghost var addrs := inodes[inum].addrs;
      NoneGone(p, owner.Keys);
      assert Cleared(addrs, 0) == addrs;
      for i := 0 to NDIRECT
        invariant DataSame(sb, old(blocks), blocks, 0) && BitsOk(sb, blocks, owner.Keys - Gone(p, i))
        invariant inodes == old(inodes)[inum := old(inodes)[inum].(addrs := Cleared(addrs, i))]
        invariant MapsOnly(sb, old(logged), logged) && Covered(old(blocks), blocks, logged)
      {
        assert inodes[inum].addrs[i] == p[DataSlot(i)];
        ghost var taken := owner.Keys - Gone(p, i);
        GoneNext(p, i);
        if inodes[inum].addrs[i] != 0 {
          StillTaken(ptrs, owner, inum, i, i);
          PointerInRange(sb, ptrs, owner, inum, i);
          ghost var before, l := blocks, logged;
          Bfree(inodes[inum].addrs[i], taken);
          OneFreed(sb, old(blocks), old(logged), before, l, blocks, p[DataSlot(i)]);
          assert taken - {p[DataSlot(i)]} == owner.Keys - Gone(p, i + 1);
          inodes := inodes[inum := inodes[inum].(addrs := inodes[inum].addrs[i := 0])];
        } else {
          ZeroNotOwned(sb, ptrs, owner);
          assert taken == owner.Keys - Gone(p, i + 1);
          assert Cleared(addrs, i)[i := 0] == Cleared(addrs, i);
        }
        assert Cleared(addrs, i)[i := 0] == Cleared(addrs, i + 1);
      }
    }

    /** itrunc's second loop: the blocks the indirect block points to, and it. */
    method TruncIndirect(inum: nat)
      requires LayoutOk(sb) && |blocks| == sb.size && Links(ptrs, owner) && Owned(sb, ptrs, owner)
      requires inum < |inodes| && inum < |ptrs| && |ptrs[inum]| == SLOTS
      requires Rep(ptrs[inum][..NDIRECT + 1], blocks, ptrs[inum]) &&
        BitsOk(sb, blocks, owner.Keys - Gone(ptrs[inum], NDIRECT))
      requires |inodes[inum].addrs| == NDIRECT + 1 && inodes[inum].addrs[NDIRECT] == ptrs[inum][NDIRECT]
      modifies this`blocks, this`inodes, this`logged
      ensures MapsOnly(sb, old(logged), logged) && Covered(old(blocks), blocks, logged)
      ensures DataSame(sb, old(blocks), blocks, 0)
      ensures BitsOk(sb, blocks, owner.Keys - Gone(ptrs[inum], MAXFILE) - {ptrs[inum][NDIRECT]})
      ensures inodes == old(inodes)[inum := old(inodes)[inum].(addrs := old(inodes)[inum].addrs[NDIRECT := 0])]
    {
      hide BitsOk, Rep, Links, Owned, Gone, Word, MapOf, MapBlocks, Covered, MapsOnly;
      ghost var p := ptrs[inum];
      NothingFreed(sb, blocks, logged);
      RepAddrs(p[..NDIRECT + 1], blocks, p);
      PointerInRange(sb, ptrs, owner, inum, NDIRECT);
      ZeroNotOwned(sb, ptrs, owner);
      if inodes[inum].addrs[NDIRECT] != 0 {
        var a := inodes[inum].addrs[NDIRECT];
        for j := 0 to NINDIRECT
          invariant inodes == old(inodes) && DataSame(sb, old(blocks), blocks, 0) &&
            BitsOk(sb, blocks, owner.Keys - Gone(p, NDIRECT + j))
          invariant MapsOnly(sb, old(logged), logged) && Covered(old(blocks), blocks, logged)
        {
          var addr := Word(blocks[a], j);
          assert addr == p[IndSlot(j)] == p[DataSlot(NDIRECT + j)];
          ghost var taken := owner.Keys - Gone(p, NDIRECT + j);
          GoneNext(p, NDIRECT + j);
          if addr != 0 {
            StillTaken(ptrs, owner, inum, NDIRECT + j, IndSlot(j));
            PointerInRange(sb, ptrs, owner, inum, IndSlot(j));
            ghost var before, l := blocks, logged;
            Bfree(addr, taken);
            OneFreed(sb, old(blocks), old(logged), before, l, blocks, addr);
            assert taken - {addr} == owner.Keys - Gone(p, NDIRECT + (j + 1));
          } else {
            assert taken == owner.Keys - Gone(p, NDIRECT + (j + 1));
          }
        }
        StillTaken(ptrs, owner, inum, MAXFILE, NDIRECT);
        ghost var before, l := blocks, logged;
        Bfree(a, owner.Keys - Gone(p, MAXFILE));
        OneFreed(sb, old(blocks), old(logged), before, l, blocks, a);
        inodes := inodes[inum := inodes[inum].(addrs := inodes[inum].addrs[NDIRECT := 0])];
      } else {
        forall k | NDIRECT <= k < MAXFILE
          ensures p[DataSlot(k)] == 0
        {
          assert DataSlot(k) == IndSlot(k - NDIRECT);
        }
        ZerosGone(p, owner.Keys, NDIRECT, MAXFILE);
        assert inodes[inum].addrs[NDIRECT := 0] == inodes[inum].addrs;
      }
    }

    /** Reads up to n bytes at offset off; nothing changes. */
    method Readi(inum: nat, off: nat, n: nat) returns (dst: seq<Byte>)
      requires Valid() && inum < |inodes| && off < UINT && n < UINT
      modifies this
      ensures Valid() && blocks == old(blocks) && inodes == old(inodes) && ptrs == old(ptrs) && owner == old(owner) &&
        lens == old(lens) && logged == old(logged)
      ensures dst == Readable(Contents()[inum], off, n)
      ensures off <= inodes[inum].size && off + n < UINT ==>
        && |Contents()[inum]| == inodes[inum].size
        && |dst| == (if n <= inodes[inum].size - off then n else inodes[inum].size - off)
        && forall k :: 0 <= k < |dst| ==> dst[k] == Contents()[inum][off + k]
    {
      hide BitsOk, Rep, Links, Owned, Filled, Files, Pointers, Full, Content;
      dst := [];
      var size := inodes[inum].size;
      FileLength(sb, inodes, blocks, ptrs, owner, lens, inum);
      ghost var f := Content(ptrs[inum], size, blocks);
      if off > size || (off + n) % UINT < off {
        return;
      }
      var len := if off + n > size then size - off else n;
      var tot := 0;
      while tot < len
        invariant tot <= len
        invariant blocks == old(blocks) && inodes == old(inodes) && ptrs == old(ptrs) && owner == old(owner) &&
          lens == old(lens) && dinodes == old(dinodes) && logged == old(logged)
        invariant dst == f[off..off + tot]
      {
        var o := off + tot;
        BlockThere(sb, inodes, blocks, ptrs, owner, lens, inum, o);
        var addr := Bmap(inum, o / BSIZE);
        if addr == 0 {
          break;
        }
        var m := if len - tot < BSIZE - o % BSIZE then len - tot else BSIZE - o % BSIZE;
        BlockBytes(ptrs[inum], blocks, size, o, m);
        dst := dst + blocks[addr][o % BSIZE..o % BSIZE + m];
        tot := tot + m;
      }
    }

    /** One turn of writei's loop: the bytes d, all in one block, at offset o; false if there is no block for them. */
    method WriteBlock(inum: nat, o: nat, d: seq<Byte>) returns (ok: bool)
      requires Sound() && inum < |inodes| && o <= lens[inum] && d != []
      requires o % BSIZE + |d| <= BSIZE && o / BSIZE < MAXFILE
      modifies this`blocks, this`inodes, this`ptrs, this`owner, this`lens, this`logged
      ensures Sound() && |inodes| == old(|inodes|) && |ptrs| == |lens| == |inodes| && |ptrs[inum]| == SLOTS
      ensures forall i :: 0 <= i < |inodes| ==>
        inodes[i].size == old(inodes[i].size) && (i != inum ==> inodes[i] == old(inodes[i]))
      ensures !ok ==> Full(sb, blocks) && lens == old(lens) && Contents() == old(Contents())
      ensures ok ==> lens == old(lens)[inum := Max(old(lens[inum]), o + |d|)]
      ensures ok ==> o <= |old(Contents())[inum]| && ptrs[inum][DataSlot(o / BSIZE)] != 0
      ensures ok ==> Contents() == old(Contents())[inum := Spliced(old(Contents())[inum], o, d)]
      ensures Covered(old(blocks), blocks, logged)
      ensures TurnLogged(sb, old(logged), logged, old(ptrs[inum][NDIRECT]), ptrs[inum][NDIRECT],
        if ok then ptrs[inum][DataSlot(o / BSIZE)] else 0, old(ptrs[inum][DataSlot(o / BSIZE)]) != 0)
    {
      hide BitsOk, Rep, Links, Owned, Filled, Files, Full, Content, Spliced, Overwritten, Mapped, Covered;
      LinksShape(ptrs, owner, inum);
      FileLength(sb, inodes, blocks, ptrs, owner, lens, inum);
      var addr := Bmap(inum, o / BSIZE);
      if addr == 0 {
        return false;
      }
      FileLength(sb, inodes, blocks, ptrs, owner, lens, inum);
      PointerInRange(sb, ptrs, owner, inum, DataSlot(o / BSIZE));
      DataWrite(sb, inodes, blocks, ptrs, owner, lens, inum, o, d);
      ghost var middle, l := blocks, logged;
      blocks, logged := blocks[addr := Overwritten(blocks[addr], o % BSIZE, d)], logged + {addr};
      CoveredOne(middle, addr, blocks[addr], logged);
      CoveredTrans(old(blocks), middle, l, blocks, logged);
      lens := lens[inum := Max(lens[inum], o + |d|)];
      return true;
    }

    /** writei's loop: writes src at offset off, block by block, until it is done or the disk is full. */
    method WriteBlocks(inum: nat, off: nat, src: seq<Byte>) returns (tot: nat)
      requires Sound() && inum < |inodes| && off <= lens[inum] && off + |src| <= MAXFILE * BSIZE
      modifies this`blocks, this`inodes, this`ptrs, this`owner, this`lens, this`logged
      ensures Sound() && |inodes| == old(|inodes|)
      ensures forall i :: 0 <= i < |inodes| ==>
        inodes[i].size == old(inodes[i].size) && (i != inum ==> inodes[i] == old(inodes[i]))
      ensures lens == old(lens)[inum := Max(old(lens[inum]), off + tot)]
      ensures tot <= |src| && off <= |old(Contents())[inum]| && (tot < |src| ==> Full(sb, blocks))
      ensures Contents() == old(Contents())[inum := Spliced(old(Contents())[inum], off, src[..tot])]
      ensures Covered(old(blocks), blocks, logged) && Affordable(sb, old(logged), logged, off, |src|)
    {
      hide Core, Files, Full, Content, Spliced, NoHoles;
      hide TurnLogged, Accounted, AtTurn, Covered, Affordable;
      var n := |src|;
      SizesOf(sb, inodes, blocks, ptrs, owner, lens);
      FileLength(sb, inodes, blocks, ptrs, owner, lens, inum);
      FileShape(sb, inodes, blocks, ptrs, owner, lens, inum);
      ghost var f := Contents()[inum];
      tot := 0;
      ghost var turns := 0;
      NothingLogged(sb, blocks, logged, ptrs[inum][NDIRECT], off, n);
      SplicedNothing(f, off);
      assert src[..0] == [];
      while tot < n
        invariant Sound() && |inodes| == old(|inodes|) && |lens| == |ptrs| == |inodes| && |ptrs[inum]| == SLOTS
        invariant forall i :: 0 <= i < |inodes| ==>
          inodes[i].size == old(inodes[i].size) && (i != inum ==> inodes[i] == old(inodes[i]))
        invariant lens == old(lens)[inum := Max(old(lens[inum]), off + tot)]
        invariant tot <= n && Contents() == old(Contents())[inum := Spliced(f, off, src[..tot])]
        invariant AtTurn(off, n, tot, turns) && Covered(old(blocks), blocks, logged)
        invariant Accounted(sb, old(logged), logged, ptrs[inum][NDIRECT], off, turns)
      {
        var o := off + tot;
        var m := if n - tot < BSIZE - o % BSIZE then n - tot else BSIZE - o % BSIZE;
        var d := src[tot..tot + m];
        FileShape(sb, inodes, blocks, ptrs, owner, lens, inum);
        FirstBlock(ptrs[inum], lens[inum], o);
        ghost var before, l, p := blocks, logged, ptrs[inum];
        var ok := WriteBlock(inum, o, d);
        FileShape(sb, inodes, blocks, ptrs, owner, lens, inum);
        FirstTurn(off, n, tot, turns);
        AfterTurn(sb, old(logged), l, p[NDIRECT], off, turns, logged, ptrs[inum][NDIRECT],
          if ok then ptrs[inum][DataSlot(o / BSIZE)] else 0, p[DataSlot(o / BSIZE)] != 0);
        CoveredTrans(old(blocks), before, l, blocks, logged);
        if !ok {
          break;
        }
        SplicedTwice(f, off, src[..tot], d);
        assert src[..tot] + d == src[..tot + m];
        TurnNext(off, n, tot, turns, m);
        tot, turns := tot + m, turns + 1;
      }
      FileShape(sb, inodes, blocks, ptrs, owner, lens, inum);
      Budget(sb, old(logged), logged, ptrs[inum][NDIRECT], off, turns, n, tot);
    }

    /** Writes src at offset off; what it logs, the inode's block included, is bounded by the size of the write. */
    method Writei(inum: nat, off: nat, src: seq<Byte>) returns (r: int)
      requires Valid() && inum < |inodes| && off < UINT && |src| < UINT
      modifies this
      ensures Valid() && |inodes| == old(|inodes|)
      ensures r == -1 <==> BadWrite(old(inodes[inum].size), off, |src|)
      ensures r == -1 <==> off > old(inodes[inum].size) || off + |src| > 268 * 1024
      ensures r == -1 ==> blocks == old(blocks) && inodes == old(inodes) && Contents() == old(Contents())
      ensures r != -1 ==> 0 <= r <= |src| && off <= |old(Contents())[inum]| && (r < |src| ==> Full(sb, blocks))
      ensures r != -1 ==> Contents() == old(Contents())[inum := Spliced(old(Contents())[inum], off, src[..r])]
      ensures forall i :: 0 <= i < |inodes| && i != inum ==> inodes[i] == old(inodes[i])
      ensures Covered(old(blocks), blocks, logged) && (r != -1 ==> InodeBlock(sb, inum) in logged)
      ensures old(logged) <= logged && |logged - old(logged)| <= WriteBudget(off, |src|)
      ensures |logged - old(logged)| <= Span(off, |src|) + MapCount(sb) + 2
    {
      hide Core, Files, Full, Content, Spliced, NoHoles;
      hide Covered, MapCount, Affordable, Span;
      var n := |src|;
      SizesOf(sb, inodes, blocks, ptrs, owner, lens);
      FileLength(sb, inodes, blocks, ptrs, owner, lens, inum);
      NothingFreed(sb, blocks, logged);
      if off > inodes[inum].size || (off + n) % UINT < off {
        return -1;
      }
      if off + n > MAXFILE * BSIZE {
        return -1;
      }
      var tot := WriteBlocks(inum, off, src);
      if off + tot > inodes[inum].size {
        Resized(sb, inodes, blocks, ptrs, owner, lens, inum, off + tot);
        inodes := inodes[inum := inodes[inum].(size := off + tot)];
      }
      CoveredMore(old(blocks), blocks, logged, InodeBlock(sb, inum));
      WithInode(sb, old(logged), logged, off, n, InodeBlock(sb, inum));
      Iupdate(inum);
      return tot;
    }

    /** One operation is legal on the byte sequences, acts on them as it should, and writes less only on a full disk. */
    method PerformOne(op: Op) returns (r: Result)
      requires Valid() && Callable(op, |inodes|)
      modifies this
      ensures Valid() && |inodes| == old(|inodes|)
      ensures Legal(old(Contents()), op, r) && Contents() == Apply(old(Contents()), op, r)
      ensures Performed(sb, old(Snapshot()), op, r, Snapshot())
    {
      hide Core, Files, Full, BadWrite, Spliced;
      SizesOf(sb, inodes, blocks, ptrs, owner, lens);
      match op {
        case Write(i, off, src) =>
          var n := Writei(i, off, src);
          r := Count(n);
        case Read(i, off, n) =>
          var d := Readi(i, off, n);
          r := Bytes(d);
        case Trunc(i) =>
          Itrunc(i);
          r := Done;
      }
    }

    /**
     Any sequence of operations acts on the files as on independent byte sequences, and a write comes out short
     only if the disk is full after it.  `states` are the states the file system went through, each a sound disk
     whose files are what the operations so far make of the first ones.
     */
    method Perform(ops: seq<Op>) returns (rs: seq<Result>, ghost states: seq<State>)
      requires Valid() && forall op :: op in ops ==> Callable(op, |inodes|)
      modifies this
      ensures Valid() && |rs| == |ops| && |states| == |ops| + 1
      ensures states[0] == old(Snapshot()) && states[|ops|] == Snapshot()
      ensures Explained(old(Contents()), ops, rs) && Contents() == After(old(Contents()), ops, rs)
      ensures forall k :: 0 <= k < |ops| ==> Performed(sb, states[k], ops[k], rs[k], states[k + 1])
    {
      hide Core, Files, Legal, Apply, Callable, Full, Short, Performed, Explained, After;
      rs, states := [], [Snapshot()];
      SizesOf(sb, inodes, blocks, ptrs, owner, lens);
      NothingAfter(Contents());
      for k := 0 to |ops|
        invariant |rs| == k && |states| == k + 1 && Valid() && |ptrs| == |lens| == |inodes| == old(|inodes|)
        invariant states[0] == old(Snapshot()) && states[k] == Snapshot()
        invariant Explained(old(Contents()), ops[..k], rs) && Contents() == After(old(Contents()), ops[..k], rs)
        invariant forall j :: 0 <= j < k ==> Performed(sb, states[j], ops[j], rs[j], states[j + 1])
      {
        assert ops[k] in ops;
        var r := PerformOne(ops[k]);
        SizesOf(sb, inodes, blocks, ptrs, owner, lens);
        StepAfter(old(Contents()), ops[..k], rs, ops[k], r);
        assert ops[..k] + [ops[k]] == ops[..k + 1];
        rs, states := rs + [r], states + [Snapshot()];
      }
      assert ops[..|ops|] == ops;
    }
  }

  lemma LayoutOf(sb: Super, blocks: seq<Block>, taken: set<nat>)
    requires BitsOk(sb, blocks, taken)
    ensures LayoutOk(sb) && |blocks| == sb.size
  {
  }

  lemma NoneGone(p: seq<nat>, keys: set<nat>)
    requires |p| == SLOTS
    ensures keys - Gone(p, 0) == keys
  {
  }

  lemma {:induction false} ZerosGone(p: seq<nat>, keys: set<nat>, m: nat, n: nat)
    requires |p| == SLOTS && m <= n <= MAXFILE && 0 !in keys && forall k :: m <= k < n ==> p[DataSlot(k)] == 0
    ensures keys - Gone(p, n) - {0} == keys - Gone(p, m)
    decreases n - m
  {
  }

  lemma FileLength(sb: Super, inodes: seq<Inode>, blocks: seq<Block>, ptrs: seq<seq<nat>>, owner: map<nat, (nat, nat)>,
      lens: seq<nat>, i: nat)
    requires Core(sb, inodes, blocks, ptrs, owner, lens) && i < |inodes|
    ensures lens[i] <= MAXFILE * BSIZE && Files(lens, ptrs, blocks)[i] == Content(ptrs[i], lens[i], blocks)
  {
  }

  lemma FileShape(sb: Super, inodes: seq<Inode>, blocks: seq<Block>, ptrs: seq<seq<nat>>, owner: map<nat, (nat, nat)>,
      lens: seq<nat>, i: nat)
    requires Core(sb, inodes, blocks, ptrs, owner, lens) && i < |inodes|
    ensures |ptrs[i]| == SLOTS && NoHoles(ptrs[i], lens[i]) && forall s :: 0 <= s < SLOTS ==> ptrs[i][s] < sb.size
  {
    hide BitsOk, Rep, NoHoles, Links, Owned;
    LinksShape(ptrs, owner, i);
    forall s | 0 <= s < SLOTS
      ensures ptrs[i][s] < sb.size
    {
      PointerInRange(sb, ptrs, owner, i, s);
    }
  }

  /** A block that the write does not fill from its start was there before. */
  lemma FirstBlock(p: seq<nat>, len: nat, o: nat)
    requires NoHoles(p, len) && o <= len && o / BSIZE < MAXFILE
    ensures o % BSIZE != 0 ==> p[DataSlot(o / BSIZE)] != 0
  {
  }

  /** Below the end of the file every block is there. */
  lemma BlockThere(sb: Super, inodes: seq<Inode>, blocks: seq<Block>, ptrs: seq<seq<nat>>, owner: map<nat, (nat, nat)>,
      lens: seq<nat>, i: nat, o: nat)
    requires Core(sb, inodes, blocks, ptrs, owner, lens) && i < |inodes| && o < lens[i]
    ensures o / BSIZE < MAXFILE && |ptrs[i]| == SLOTS && 0 < ptrs[i][DataSlot(o / BSIZE)] < |blocks|
  {
  }

  lemma BlockBytes(p: seq<nat>, blocks: seq<Block>, size: nat, o: nat, m: nat)
    requires |p| == SLOTS && o / BSIZE < MAXFILE && p[DataSlot(o / BSIZE)] < |blocks| && o + m <= size &&
      o % BSIZE + m <= BSIZE
    ensures blocks[p[DataSlot(o / BSIZE)]][o % BSIZE..o % BSIZE + m] == Content(p, size, blocks)[o..o + m]
  {
  }

  lemma SplicedNothing(f: seq<Byte>, off: nat)
    requires off <= |f|
    ensures Spliced(f, off, []) == f
  {
  }

  /** The size field plays no part in the block pointers. */
  lemma Resized(sb: Super, inodes: seq<Inode>, blocks: seq<Block>, ptrs: seq<seq<nat>>, owner: map<nat, (nat, nat)>,
      lens: seq<nat>, i: nat, size: nat)
    requires Core(sb, inodes, blocks, ptrs, owner, lens) && i < |inodes|
    ensures Core(sb, inodes[i := inodes[i].(size := size)], blocks, ptrs, owner, lens)
  {
  }

  lemma SizesOf(sb: Super, inodes: seq<Inode>, blocks: seq<Block>, ptrs: seq<seq<nat>>, owner: map<nat, (nat, nat)>,
      lens: seq<nat>)
    requires Core(sb, inodes, blocks, ptrs, owner, lens)
    ensures |lens| == |ptrs| == |inodes|
    ensures Sizes(inodes, lens) ==> forall i :: 0 <= i < |inodes| ==> |Files(lens, ptrs, blocks)[i]| == inodes[i].size
  {
  }

  // ----------------------------------------------------------------------- a fresh disk

  /** All blocks zero but for the bits of the first k blocks in the free map. */
  ghost function Marked(sb: Super, k: nat): (blocks: seq<Block>)
    requires LayoutOk(sb) && k <= sb.metaEnd
    ensures |blocks| == sb.size
  {
    if k == 0 then seq(sb.size, _ => ZeroBlock())
    else
      var m := sb.bmapstart + (k - 1) / BPB;
      MapBlock(sb, k - 1);
      Marked(sb, k - 1)[m := SetBitAt(Marked(sb, k - 1)[m], (k - 1) % BPB)]
  }

  lemma {:induction false} MarkedUsed(sb: Super, k: nat, b: nat)
    requires LayoutOk(sb) && k <= sb.metaEnd && b < sb.size
    ensures Used(sb, Marked(sb, k), b) <==> b < k
  {
    hide BitAt, SetBitAt;
    MapBlock(sb, b);
    if k == 0 {
      ZeroBits(b % BPB);
    } else {
      MarkedUsed(sb, k - 1, b);
      MapBlock(sb, k - 1);
      BlockBits(Marked(sb, k - 1)[sb.bmapstart + (k - 1) / BPB], (k - 1) % BPB, b % BPB);
    }
  }

  lemma ZeroBits(i: nat)
    requires i < BPB
    ensures !BitAt(ZeroBlock(), i)
  {
    ZeroHasNoBit(i % 8);
  }

  lemma {:induction false} ZeroHasNoBit(i: nat)
    ensures !HasBit(0, i)
  {
    if i > 0 {
      ZeroHasNoBit(i - 1);
    }
  }

  /** A freshly formatted disk, with any number of empty inodes, is one the file system can start from. */
  lemma FormattedIsSound(sb: Super, n: nat)
    requires LayoutOk(sb)
    ensures Core(sb, seq(n, _ => Inode(NoPointers(NDIRECT + 1), 0)), Marked(sb, sb.metaEnd),
      seq(n, _ => NoPointers(SLOTS)), map[], seq(n, _ => 0))
    ensures Sizes(seq(n, _ => Inode(NoPointers(NDIRECT + 1), 0)), seq(n, _ => 0))
    ensures sb.metaEnd < sb.size ==> !Full(sb, Marked(sb, sb.metaEnd))
  {
    hide Used, Rep, NoHoles, Marked;
    var blocks := Marked(sb, sb.metaEnd);
    forall b | 0 <= b < sb.size
      ensures Used(sb, blocks, b) <==> b < sb.metaEnd
    {
      MarkedUsed(sb, sb.metaEnd, b);
    }
    assert sb.metaEnd < sb.size ==> !Used(sb, blocks, sb.metaEnd);
    NoneRep(blocks);
  }
}
