/** The disk format of the file system: blocks of bytes, words in them, and bits of the free map. */
module FsFormat {
  import opened Powers

  const BSIZE: nat := 1024
  const BPB: nat := 8192
  const NDIRECT: nat := 12
  const NINDIRECT: nat := 256
  const MAXFILE: nat := 268
  const SLOTS: nat := 269
  const UINT: nat := 0x1_0000_0000

  type Byte = x: int | 0 <= x < 256
  type Block = b: seq<Byte> | |b| == 1024 witness seq(1024, _ => 0)

  function ZeroBlock(): Block {
    seq(1024, _ => 0)
  }

  // ----------------------------------------------------------------------- words

  function Join(b0: int, b1: int, b2: int, b3: int): int {
    b0 + 256 * (b1 + 256 * (b2 + 256 * b3))
  }

  /** The j-th little-endian 32-bit word of a block. */
  function Word(b: Block, j: nat): (w: nat)
    requires j < NINDIRECT
    ensures w < UINT
  {
    Join(b[4 * j], b[4 * j + 1], b[4 * j + 2], b[4 * j + 3])
  }

  function SetWord(b: Block, j: nat, w: nat): Block
    requires j < NINDIRECT && w < UINT
  {
    var w1, w2, w3 := w / 256, w / 256 / 256, w / 256 / 256 / 256;
    b[4 * j := w % 256][4 * j + 1 := w1 % 256][4 * j + 2 := w2 % 256][4 * j + 3 := w3]
  }

  lemma SetWordWord(b: Block, j: nat, w: nat, k: nat)
    requires j < NINDIRECT && w < UINT && k < NINDIRECT
    ensures Word(SetWord(b, j, w), k) == if k == j then w else Word(b, k)
  {
  }

  // ----------------------------------------------------------------------- bits

  /** Bit i of x: x & (1 << i) is not zero. */
  predicate HasBit(x: nat, i: nat) {
    if i == 0 then x % 2 == 1 else HasBit(x / 2, i - 1)
  }

  /** x | (1 << i) */
  function WithBit(x: nat, i: nat): nat {
    if i == 0 then x - x % 2 + 1 else 2 * WithBit(x / 2, i - 1) + x % 2
  }

  /** x & ~(1 << i) */
  function WithoutBit(x: nat, i: nat): nat {
    if i == 0 then x - x % 2 else 2 * WithoutBit(x / 2, i - 1) + x % 2
  }

  lemma {:induction false} OneBitSet(x: nat, i: nat, j: nat)
    ensures HasBit(WithBit(x, i), j) <==> i == j || HasBit(x, j)
  {
    if i > 0 && j > 0 {
      OneBitSet(x / 2, i - 1, j - 1);
      assert WithBit(x, i) / 2 == WithBit(x / 2, i - 1);
    }
  }

  lemma {:induction false} OneBitCleared(x: nat, i: nat, j: nat)
    ensures HasBit(WithoutBit(x, i), j) <==> i != j && HasBit(x, j)
  {
    if i > 0 && j > 0 {
      OneBitCleared(x / 2, i - 1, j - 1);
      assert WithoutBit(x, i) / 2 == WithoutBit(x / 2, i - 1);
    }
  }

  lemma {:induction false} BitWidth(x: nat, i: nat, n: nat)
    requires x < Pow2(n) && i < n
    ensures WithBit(x, i) < Pow2(n) && WithoutBit(x, i) < Pow2(n)
  {
    if i > 0 {
      BitWidth(x / 2, i - 1, n - 1);
    }
  }

  function OrMask(x: Byte, i: nat): (r: Byte)
    requires i < 8
  {
    BitWidth(x, i, 8);
    WithBit(x, i)
  }

  function AndNotMask(x: Byte, i: nat): (r: Byte)
    requires i < 8
  {
    BitWidth(x, i, 8);
    WithoutBit(x, i)
  }

  predicate BitAt(b: Block, i: nat)
    requires i < BPB
  {
    HasBit(b[i / 8], i % 8)
  }

  function SetBitAt(b: Block, i: nat): Block
    requires i < BPB
  {
    b[i / 8 := OrMask(b[i / 8], i % 8)]
  }

  function ClearBitAt(b: Block, i: nat): Block
    requires i < BPB
  {
    b[i / 8 := AndNotMask(b[i / 8], i % 8)]
  }

  lemma BlockBits(b: Block, i: nat, j: nat)
    requires i < BPB && j < BPB
    ensures BitAt(SetBitAt(b, i), j) <==> i == j || BitAt(b, j)
    ensures BitAt(ClearBitAt(b, i), j) <==> i != j && BitAt(b, j)
  {
    hide HasBit, WithBit, WithoutBit;
    OneBitSet(b[i / 8], i % 8, j % 8);
    OneBitCleared(b[i / 8], i % 8, j % 8);
  }
}
