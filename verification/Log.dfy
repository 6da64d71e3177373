/**
 The loops of log.c, with every block write recorded: what a crash after any one of them
 leaves for recovery.
 */
module Log {
  import opened LogModel
  import opened LogTheorems

  /** Recovery would leave the same home blocks from either disk. */
  ghost predicate SameDurable(start: nat, x: seq<Block>, y: seq<Block>) {
    && GoodDisk(start, x) && GoodDisk(start, y) && |x| == |y|
    && forall b :: Home(start, |x|, b) ==> Durable(start, x, b) == Durable(start, y, b)
  }

  /** Installing a logged block changes nothing for recovery. */
  lemma InstallDurable(start: nat, disk: seq<Block>, i: nat)
    requires GoodDisk(start, disk) && i < |Head(disk[start])|
    ensures var b := Head(disk[start])[i];
            Home(start, |disk|, b) && SameDurable(start, disk, disk[b := disk[LogBlock(start, i)]])
  {
  }

  /** With every logged block installed, erasing the header changes nothing for recovery. */
  lemma ClearDurable(start: nat, disk: seq<Block>)
    requires GoodDisk(start, disk)
    requires forall j :: 0 <= j < |Head(disk[start])| ==> disk[Head(disk[start])[j]] == disk[LogBlock(start, j)]
    ensures var disk' := disk[start := WithHead(disk[start], [])];
            Head(disk'[start]) == [] && SameDurable(start, disk, disk')
  {
  }

  /** Writing the header over copied blocks makes exactly those copies what recovery leaves. */
  lemma CommitDurable(start: nat, disk: seq<Block>, lh: seq<int>)
    requires DiskShape(start, disk) && LogShape(start, |disk|, lh)
    ensures var disk' := disk[start := WithHead(disk[start], lh)];
            && Head(disk'[start]) == lh && GoodDisk(start, disk')
            && (forall j :: 0 <= j < |lh| ==> Durable(start, disk', lh[j]) == disk[LogBlock(start, j)])
            && (forall b :: Home(start, |disk|, b) && b !in lh ==> Durable(start, disk', b) == disk[b])
  {
  }

  class LogState {
    const start: nat
    const block: array<int>
    var n: nat
    var disk: seq<Block>
    var cache: map<int, Block> // the buffers that may differ from the disk
    ghost var trace: seq<seq<Block>>

    ghost predicate Valid()
      reads this, block
    {
      && DiskShape(start, disk) && block.Length == LOGBLOCKS && n <= LOGBLOCKS
      && LogShape(start, |disk|, block[..n])
      && (forall b :: b in cache ==> Home(start, |disk|, b) && |cache[b]| == WORDS)
    }

    /** What bread finds: the cached block, or the disk's. */
    function Bread(b: int): Block
      requires 0 <= b < |disk|
      reads this
    {
      if b in cache then cache[b] else disk[b]
    }

    method Bwrite(b: int, v: Block)
      requires Valid() && 0 <= b < |disk| && |v| == WORDS && (b == start ==> HeadOk(v))
      modifies this`disk, this`cache, this`trace
      ensures Valid() && disk == old(disk)[b := v] && trace == old(trace) + [disk]
      ensures cache == old(cache) - {b} && Recorded(old(disk), old(trace), trace, disk)
    {
      disk := disk[b := v];
      cache := cache - {b};
      trace := trace + [disk];
      RecordedOne(old(disk), old(trace), b, v);
    }

    /** log_write of a modified buffer; false stands for the panic on a full log. */
    method LogWrite(b: int, v: Block) returns (ok: bool)
      requires Valid() && Home(start, |disk|, b) && |v| == WORDS
      modifies this`n, this`cache, block
      ensures Valid() && ok == (old(n) < LOGBLOCKS)
      ensures !ok ==> n == old(n) && block[..n] == old(block[..n]) && cache == old(cache)
      ensures ok ==> cache == old(cache)[b := v]
      ensures ok ==> block[..n] == if b in old(block[..n]) then old(block[..n]) else old(block[..n]) + [b]
    {
      if n >= LOGBLOCKS {
        return false;
      }
      ghost var lh := block[..n];
      var i := 0;
      while i < n && block[i] != b
        invariant 0 <= i <= n && b !in lh[..i] && block[..n] == lh
      {
        i := i + 1;
      }
      block[i] := b;
      if i == n {
        assert lh[..i] == lh;
        n := n + 1;
        assert block[..n] == lh + [b];
      } else {
        assert block[..n] == lh && lh[i] == b;
      }
      cache := cache[b := v];
      ok := true;
    }

    /** read_head; a negative count, for which no loop does anything until it is reset, is taken as 0. */
    method ReadHead()
      requires Valid() && GoodDisk(start, disk) && start !in cache
      modifies this`n, block
      ensures Valid() && block[..n] == Head(disk[start])
    {
      var hb := Bread(start);
      n := if hb[0] < 0 then 0 else hb[0];
      var i := 0;
      while i < n
        invariant 0 <= i <= n <= LOGBLOCKS == block.Length && n == |Head(disk[start])|
        invariant forall j :: 0 <= j < i ==> block[j] == Head(disk[start])[j]
      {
        block[i] := hb[i + 1];
        i := i + 1;
      }
      assert block[..n] == Head(disk[start]);
    }

    /** write_head: one block write. */
    method WriteHead()
      requires Valid() && start !in cache
      modifies this`disk, this`cache, this`trace
      ensures Valid() && disk == old(disk)[start := WithHead(old(disk)[start], block[..n])]
      ensures trace == old(trace) + [disk] && cache == old(cache) - {start}
      ensures Recorded(old(disk), old(trace), trace, disk)
    {
      var hb := Bread(start);
      ghost var lh := block[..n];
      var words := hb[0 := n];
      var i := 0;
      while i < n
        invariant 0 <= i <= n && |words| == WORDS && block[..n] == lh
        invariant Valid() && disk == old(disk) && cache == old(cache) && trace == old(trace)
        invariant words == [n] + lh[..i] + hb[1 + i..]
      {
        NextWord(n, lh, hb, i);
        words := words[1 + i := block[i]];
        i := i + 1;
      }
      assert lh[..n] == lh;
      Bwrite(start, words);
    }

    /** One round of install_trans. */
    method InstallOneBlock(tail: nat, ghost d0: seq<Block>)
      requires Valid() && tail < n && GoodDisk(start, d0) && Head(d0[start]) == block[..n]
      requires disk == Installed(start, d0, block[..n], tail)
      modifies this`disk, this`cache, this`trace
      ensures Valid() && disk == Installed(start, d0, block[..n], tail + 1)
      ensures cache == old(cache) - {block[tail]}
      ensures trace == old(trace) + [disk] && SameDurable(start, d0, disk)
      ensures Recorded(old(disk), old(trace), trace, disk)
    {
      hide Head, Durable, SameDurable, Recorded;
      ghost var lh := block[..n];
      InstalledFacts(start, d0, lh, tail);
      InstalledFacts(start, d0, lh, tail + 1);
      LogIndex(start, disk, lh, tail);
      assert LogBlock(start, tail) !in cache;
      var lbuf := Bread(LogBlock(start, tail));
      Bwrite(block[tail], lbuf);
    }

    /** install_trans: the home location of every logged block gets the log's copy. */
    method InstallTrans()
      requires Valid() && GoodDisk(start, disk) && Head(disk[start]) == block[..n]
      modifies this`disk, this`cache, this`trace
      ensures Valid() && disk == Installed(start, old(disk), block[..n], n)
      ensures cache == old(cache) - Members(block[..n])
      ensures Extends(start, old(disk), old(trace), trace) && Recorded(old(disk), old(trace), trace, disk)
    {
      hide Head, DiskShape, LogShape, SameDurable, Durable, Installed, Recorded;
      ghost var d0, lh := disk, block[..n];
      var tail := 0;
      InstalledZero(start, d0, lh);
      RecordedNone(disk, trace);
      while tail < n
        invariant 0 <= tail <= n && Valid() && disk == Installed(start, d0, lh, tail)
        invariant cache == old(cache) - Members(lh[..tail])
        invariant Extends(start, d0, old(trace), trace) && Recorded(d0, old(trace), trace, disk)
      {
        assert lh[..tail + 1] == lh[..tail] + [lh[tail]];
        ghost var d, t := disk, trace;
        InstallOneBlock(tail, d0);
        RecordedTrans(d0, old(trace), d, t, disk, trace);
        tail := tail + 1;
      }
      assert lh[..n] == lh;
    }

    /** write_log: each log block gets the cached contents of its logged block. */
    method WriteLog()
      requires Valid() && Head(disk[start]) == []
      modifies this`disk, this`cache, this`trace
      ensures Valid() && |disk| == |old(disk)| && cache == old(cache) && disk[start] == old(disk)[start]
      ensures forall j :: 0 <= j < n ==> disk[LogBlock(start, j)] == old(Bread(block[j]))
      ensures SameHome(start, disk, old(disk))
      ensures Extends(start, old(disk), old(trace), trace) && Recorded(old(disk), old(trace), trace, disk)
    {
      hide Head, SameDurable, Durable, Recorded;
      ghost var d0 := disk;
      var tail := 0;
      RecordedNone(disk, trace);
      while tail < n
        invariant 0 <= tail <= n && Valid() && |disk| == |d0| && cache == old(cache) && disk[start] == d0[start]
        invariant forall j :: 0 <= j < tail ==> disk[LogBlock(start, j)] == old(Bread(block[j]))
        invariant SameHome(start, disk, d0)
        invariant Extends(start, d0, old(trace), trace) && Recorded(d0, old(trace), trace, disk)
      {
        ghost var d, t := disk, trace;
        LogIndex(start, disk, block[..n], tail);
        assert block[..n][tail] == block[tail];
        var from := Bread(block[tail]);
        CopyDurable(start, d0, disk, tail, from);
        assert cache - {LogBlock(start, tail)} == cache;
        Bwrite(LogBlock(start, tail), from);
        RecordedTrans(d0, old(trace), d, t, disk, trace);
        tail := tail + 1;
      }
    }

    /** install_trans, then an empty header: the common end of commit and of recovery. */
    method InstallAndClear()
      requires Valid() && GoodDisk(start, disk) && Head(disk[start]) == block[..n]
      modifies this`disk, this`cache, this`trace, this`n
      ensures Valid() && n == 0 && Head(disk[start]) == [] && cache == old(cache) - Members(block[..old(n)])
      ensures |disk| == |old(disk)| && forall b :: Home(start, |disk|, b) ==> disk[b] == Durable(start, old(disk), b)
      ensures Extends(start, old(disk), old(trace), trace) && SameDurable(start, old(disk), disk)
      ensures Recorded(old(disk), old(trace), trace, disk)
    {
      hide Head, SameDurable, Durable, Installed, WithHead, Recorded;
      ghost var d0, lh := disk, block[..n];
      InstallTrans();
      InstalledFacts(start, d0, lh, n);
      ghost var d1, t1 := disk, trace;
      n := 0;
      ClearDurable(start, d1);
      assert block[..n] == [];
      WriteHead();
      RecordedTrans(d0, old(trace), d1, t1, disk, trace);
      SameDurableTrans(start, d0, d1, disk);
      RecoveredHome(start, d0, disk);
      assert start !in cache;
    }

    /** commit.  A crash at any moment leaves all of the transaction or none of it. */
    method Commit()
      requires Valid() && Head(disk[start]) == [] && Members(block[..n]) == cache.Keys
      modifies this`disk, this`cache, this`trace, this`n
      ensures Valid() && n == 0 && Head(disk[start]) == [] && cache == map[] && |disk| == |old(disk)|
      ensures forall b :: Home(start, |disk|, b) ==> disk[b] == old(Bread(b))
      ensures AllOrNothing(start, old(disk), disk, old(trace), trace) && Recorded(old(disk), old(trace), trace, disk)
    {
      hide Head, SameDurable, Durable, WithHead, Valid, DiskShape;
      if n > 0 {
        CommitTransaction();
      } else {
        assert cache == map[];
        assert SwitchAt(start, disk, disk, trace, trace, |trace|);
      }
    }

    /** commit, with something to commit. */
    method CommitTransaction()
      requires Valid() && Head(disk[start]) == [] && Members(block[..n]) == cache.Keys
      modifies this`disk, this`cache, this`trace, this`n
      ensures Valid() && n == 0 && Head(disk[start]) == [] && cache == map[] && |disk| == |old(disk)|
      ensures forall b :: Home(start, |disk|, b) ==> disk[b] == old(Bread(b))
      ensures AllOrNothing(start, old(disk), disk, old(trace), trace) && Recorded(old(disk), old(trace), trace, disk)
    {
      hide Head, SameDurable, Durable, WithHead, AllOrNothing, Recorded;
      ghost var d0, lh, seen := disk, block[..n], cache;
      WriteLog();
      ghost var d1, t1 := disk, trace;
      WriteHead();
      CommitDurable(start, d1, lh);
      ghost var d2, t2 := disk, trace;
      assert cache == seen;
      RecordedTrans(d0, old(trace), d1, t1, d2, t2);
      InstallAndClear();
      RecordedTrans(d0, old(trace), d2, t2, disk, trace);
      CommittedAll(start, d0, d2, disk, old(trace), t1, trace);
    }

    /** recover_from_log.  A crash at any moment of it leaves the same to recover. */
    method RecoverFromLog()
      requires Valid() && GoodDisk(start, disk) && cache == map[]
      modifies this`disk, this`cache, this`trace, this`n, block
      ensures Valid() && n == 0 && Head(disk[start]) == [] && cache == map[] && |disk| == |old(disk)|
      ensures forall b :: Home(start, |disk|, b) ==> disk[b] == Durable(start, old(disk), b)
      ensures Extends(start, old(disk), old(trace), trace) && Recorded(old(disk), old(trace), trace, disk)
    {
      hide Head, SameDurable, Durable, Recorded;
      ReadHead();
      InstallAndClear();
    }
  }

  /** One copy into the log area, with the header still empty. */
  lemma CopyDurable(start: nat, d0: seq<Block>, d: seq<Block>, i: nat, v: Block)
    requires DiskShape(start, d0) && DiskShape(start, d) && |d| == |d0| && d[start] == d0[start]
    requires Head(d0[start]) == [] && SameHome(start, d, d0) && i < LOGBLOCKS && |v| == WORDS
    ensures SameDurable(start, d0, d[LogBlock(start, i) := v]) && SameHome(start, d[LogBlock(start, i) := v], d0)
  {
  }

  lemma RecoveredHome(start: nat, d0: seq<Block>, d: seq<Block>)
    requires SameDurable(start, d0, d) && Head(d[start]) == []
    ensures forall b :: Home(start, |d|, b) ==> d[b] == Durable(start, d0, b)
  {
  }

  /** Disks before write k recover to the old home blocks, the disks from it on to the new ones. */
  ghost predicate SwitchAt(start: nat, before: seq<Block>, after: seq<Block>, t: seq<seq<Block>>, t': seq<seq<Block>>,
      k: nat)
  {
    && |t| <= k <= |t'|
    && (forall i :: |t| <= i < k ==> SameDurable(start, before, t'[i]))
    && (forall i :: k <= i < |t'| ==> SameDurable(start, after, t'[i]))
  }

  ghost predicate AllOrNothing(start: nat, before: seq<Block>, after: seq<Block>, t: seq<seq<Block>>,
      t': seq<seq<Block>>)
  {
    t <= t' && exists k :: SwitchAt(start, before, after, t, t', k)
  }

  lemma SameDurableSym(start: nat, x: seq<Block>, y: seq<Block>)
    requires SameDurable(start, x, y)
    ensures SameDurable(start, y, x)
  {
  }

  /** The traces of the parts of commit, put together. */
  lemma CommittedAll(start: nat, d0: seq<Block>, d2: seq<Block>, d4: seq<Block>, t0: seq<seq<Block>>,
      t1: seq<seq<Block>>, t: seq<seq<Block>>)
    requires Extends(start, d0, t0, t1) && Extends(start, d2, t1 + [d2], t) && SameDurable(start, d2, d4)
    ensures AllOrNothing(start, d0, d4, t0, t)
  {
    hide SameDurable;
    SameDurableSym(start, d2, d4);
    forall i | |t1| <= i < |t|
      ensures SameDurable(start, d4, t[i])
    {
      if i == |t1| {
        assert t[i] == (t1 + [d2])[i] == d2;
      } else {
        SameDurableTrans(start, d4, d2, t[i]);
      }
    }
    forall i | |t0| <= i < |t1|
      ensures SameDurable(start, d0, t[i])
    {
      assert t[i] == (t1 + [d2])[i] == t1[i];
    }
    assert SwitchAt(start, d0, d4, t0, t, |t1|);
  }

  function Members(l: seq<int>): set<int> {
    set b | b in l
  }

  /** The disks differ in at most one block. */
  ghost predicate OneWrite(x: seq<Block>, y: seq<Block>) {
    |x| == |y| && exists b :: 0 <= b < |x| && DiffersAt(x, y, b)
  }

  ghost predicate DiffersAt(x: seq<Block>, y: seq<Block>, b: nat)
    requires b < |x| == |y|
  {
    y == x[b := y[b]]
  }

  /** The later part of the trace is every block write, one at a time, that leads from disk x to disk y. */
  ghost predicate Recorded(x: seq<Block>, before: seq<seq<Block>>, after: seq<seq<Block>>, y: seq<Block>) {
    && before <= after && y == DiskAt(x, before, after, |after|)
    && forall k :: |before| <= k < |after| ==> OneWrite(DiskAt(x, before, after, k), after[k])
  }

  /** The disk before write k: x, or what the write before it left. */
  ghost function DiskAt(x: seq<Block>, before: seq<seq<Block>>, after: seq<seq<Block>>, k: nat): seq<Block>
    requires k <= |after|
  {
    if k <= |before| then x else after[k - 1]
  }

  lemma RecordedOne(x: seq<Block>, t: seq<seq<Block>>, b: int, v: Block)
    requires 0 <= b < |x|
    ensures Recorded(x, t, t + [x[b := v]], x[b := v])
  {
    var y := x[b := v];
    assert DiffersAt(x, y, b);
    assert OneWrite(x, y);
  }

  lemma RecordedNone(x: seq<Block>, t: seq<seq<Block>>)
    ensures Recorded(x, t, t, x)
  {
  }

  lemma DiskAtJoin(x: seq<Block>, t: seq<seq<Block>>, t': seq<seq<Block>>, t'': seq<seq<Block>>, k: nat)
    requires t <= t' <= t'' && k <= |t''|
    ensures DiskAt(x, t, t'', k) == if k < |t'| then DiskAt(x, t, t', k)
      else DiskAt(DiskAt(x, t, t', |t'|), t', t'', k)
  {
    if 0 < k <= |t'| {
      assert t''[k - 1] == t'[k - 1];
    }
  }

  lemma RecordedTrans(x: seq<Block>, t: seq<seq<Block>>, y: seq<Block>, t': seq<seq<Block>>, z: seq<Block>,
      t'': seq<seq<Block>>)
    requires Recorded(x, t, t', y) && Recorded(y, t', t'', z)
    ensures Recorded(x, t, t'', z)
  {
    hide OneWrite, DiskAt;
    DiskAtJoin(x, t, t', t'', |t''|);
    forall k | |t| <= k < |t''|
      ensures OneWrite(DiskAt(x, t, t'', k), t''[k])
    {
      DiskAtJoin(x, t, t', t'', k);
      if k < |t'| {
        assert t''[k] == t'[k];
      }
    }
  }

  /** The later disks of the trace all recover to the same home blocks as d. */
  ghost predicate Extends(start: nat, d: seq<Block>, before: seq<seq<Block>>, after: seq<seq<Block>>) {
    before <= after && forall k :: |before| <= k < |after| ==> SameDurable(start, d, after[k])
  }

  lemma InstalledZero(start: nat, disk: seq<Block>, lh: seq<int>)
    requires DiskShape(start, disk) && LogShape(start, |disk|, lh)
    ensures Installed(start, disk, lh, 0) == disk
  {
  }

  /** The disk after the first k logged blocks were installed. */
  function Installed(start: nat, disk: seq<Block>, lh: seq<int>, k: nat): (r: seq<Block>)
    requires DiskShape(start, disk) && LogShape(start, |disk|, lh) && k <= |lh|
    ensures |r| == |disk|
  {
    if k == 0 then disk
    else Installed(start, disk, lh, k - 1)[lh[k - 1] := disk[LogBlock(start, k - 1)]]
  }

  lemma LogIndex(start: nat, disk: seq<Block>, lh: seq<int>, i: nat)
    requires DiskShape(start, disk) && LogShape(start, |disk|, lh) && i < |lh|
    ensures 0 <= LogBlock(start, i) < |disk| && start < LogBlock(start, i) <= start + LOGBLOCKS
    ensures |disk[LogBlock(start, i)]| == WORDS && Home(start, |disk|, lh[i])
    ensures forall j :: 0 <= j < i ==> lh[j] != lh[i]
  {
  }

  lemma SameDurableRefl(start: nat, x: seq<Block>)
    requires GoodDisk(start, x)
    ensures SameDurable(start, x, x)
  {
  }

  lemma SameDurableTrans(start: nat, x: seq<Block>, y: seq<Block>, z: seq<Block>)
    requires SameDurable(start, x, y)
    ensures GoodDisk(start, y)
    ensures SameDurable(start, y, z) ==> SameDurable(start, x, z)
  {
  }

  lemma {:induction false} InstalledFacts(start: nat, disk: seq<Block>, lh: seq<int>, k: nat)
    requires GoodDisk(start, disk) && lh == Head(disk[start]) && k <= |lh|
    ensures var d := Installed(start, disk, lh, k);
            && DiskShape(start, d) && d[start] == disk[start] && SameDurable(start, disk, d)
            && (forall b :: start <= b <= start + LOGBLOCKS ==> d[b] == disk[b])
            && (forall j :: 0 <= j < k ==> d[lh[j]] == disk[LogBlock(start, j)])
            && (forall b :: 0 <= b < |disk| && b !in lh[..k] ==> d[b] == disk[b])
  {
    hide Head, Durable, SameDurable;
    if k == 0 {
      SameDurableRefl(start, disk);
    } else {
      InstalledFacts(start, disk, lh, k - 1);
      var d := Installed(start, disk, lh, k - 1);
      LogIndex(start, disk, lh, k - 1);
      SameDurableTrans(start, disk, d, d);
      InstallDurable(start, d, k - 1);
      SameDurableTrans(start, disk, d, Installed(start, disk, lh, k));
      assert lh[..k] == lh[..k - 1] + [lh[k - 1]];
    }
  }

  /** write_head's loop stores one more word. */
  lemma NextWord(n: int, lh: seq<int>, hb: Block, i: nat)
    requires i < |lh| && |lh| < |hb|
    ensures ([n] + lh[..i] + hb[1 + i..])[1 + i := lh[i]] == [n] + lh[..i + 1] + hb[1 + (i + 1)..]
  {
  }
}
