/** The buffer cache: NBUF buffers on a ring ordered by last use, over a disk of blocks. */
module Bcache {
  import opened Wrappers
  import opened Sequences
  import opened Rings

  const NBUF: nat := 30

  type Block = seq<int>
  type Key = (nat, nat)

  datatype Buf = Buf(dev: nat, blockno: nat, valid: bool, refcnt: nat, data: Block)

  function KeyOf(b: Buf): Key {
    (b.dev, b.blockno)
  }

  // -------------------------------------------------------------------- invariants

  /** At most one buffer holds a given block of a device other than 0. */
  ghost predicate Unique(bufs: seq<Buf>) {
    forall i, j :: 0 <= i < |bufs| && 0 <= j < |bufs| && bufs[i].dev != 0 && KeyOf(bufs[i]) == KeyOf(bufs[j]) ==> i == j
  }

  /** The list holds every buffer once, latest moved to the front first. */
  ghost predicate Ordered(order: seq<nat>, stamp: seq<nat>, clock: nat) {
    && |order| == |stamp| == NBUF && NoDup(order)
    && (forall i :: 0 <= i < NBUF ==> order[i] < NBUF)
    && (forall i, j :: 0 <= i < j < NBUF ==> stamp[order[i]] > stamp[order[j]])
    && (forall b :: 0 <= b < NBUF ==> stamp[b] <= clock)
  }

  /** A block whose disk copy is stale sits in a valid buffer that is in use. */
  ghost predicate Held(bufs: seq<Buf>, k: Key) {
    exists i :: 0 <= i < |bufs| && KeyOf(bufs[i]) == k && bufs[i].valid && bufs[i].refcnt > 0
  }

  ghost predicate Coherent(bufs: seq<Buf>, disk: map<Key, Block>, plain: map<Key, Block>, dirty: set<Key>) {
    && disk.Keys == plain.Keys
    && (forall i :: 0 <= i < |bufs| && bufs[i].valid && bufs[i].dev != 0 ==>
          KeyOf(bufs[i]) in plain && bufs[i].data == plain[KeyOf(bufs[i])])
    && (forall k :: k in plain && k !in dirty ==> disk[k] == plain[k])
    && (forall k :: k in dirty ==> k.0 != 0 && k in plain && Held(bufs, k))
  }

  // -------------------------------------------------------------- effects on buffers

  /** The buffer that the backward scan of bget picks: the last of the list that nobody uses. */
  ghost predicate LeastRecent(bufs: seq<Buf>, order: seq<nat>, j: int)
    requires |bufs| == NBUF == |order| && forall i :: 0 <= i < NBUF ==> order[i] < NBUF
  {
    && 0 <= j < NBUF && bufs[order[j]].refcnt == 0
    && forall i :: j < i < NBUF ==> bufs[order[i]].refcnt > 0
  }

  /** A reference more or less to a buffer changes no block. */
  lemma RefKeeps(bufs: seq<Buf>, disk: map<Key, Block>, plain: map<Key, Block>, dirty: set<Key>, b: nat, refcnt: nat)
    requires Unique(bufs) && Coherent(bufs, disk, plain, dirty) && b < |bufs|
    requires refcnt > 0 || KeyOf(bufs[b]) !in dirty
    ensures Unique(bufs[b := bufs[b].(refcnt := refcnt)])
    ensures Coherent(bufs[b := bufs[b].(refcnt := refcnt)], disk, plain, dirty)
  {
    var bufs' := bufs[b := bufs[b].(refcnt := refcnt)];
    forall k | k in dirty
      ensures Held(bufs', k)
    {
      var i :| 0 <= i < |bufs| && KeyOf(bufs[i]) == k && bufs[i].valid && bufs[i].refcnt > 0;
      assert KeyOf(bufs'[i]) == k && bufs'[i].valid && bufs'[i].refcnt > 0;
    }
  }

  /** Recycling a buffer nobody uses loses no block that is only in the cache. */
  lemma RecycleKeeps(bufs: seq<Buf>, disk: map<Key, Block>, plain: map<Key, Block>, dirty: set<Key>, b: nat, dev: nat,
      blockno: nat)
    requires Unique(bufs) && Coherent(bufs, disk, plain, dirty) && b < |bufs| && bufs[b].refcnt == 0 && dev != 0
    requires forall i :: 0 <= i < |bufs| ==> KeyOf(bufs[i]) != (dev, blockno)
    ensures Unique(bufs[b := Buf(dev, blockno, false, 1, bufs[b].data)])
    ensures Coherent(bufs[b := Buf(dev, blockno, false, 1, bufs[b].data)], disk, plain, dirty)
  {
    var bufs' := bufs[b := Buf(dev, blockno, false, 1, bufs[b].data)];
    forall k | k in dirty
      ensures Held(bufs', k)
    {
      var i :| 0 <= i < |bufs| && KeyOf(bufs[i]) == k && bufs[i].valid && bufs[i].refcnt > 0;
      assert KeyOf(bufs'[i]) == k && bufs'[i].valid && bufs'[i].refcnt > 0;
    }
  }

  /** A read from disk into an invalid buffer finds what was last written to the block. */
  lemma FillKeeps(bufs: seq<Buf>, disk: map<Key, Block>, plain: map<Key, Block>, dirty: set<Key>, b: nat)
    requires Unique(bufs) && Coherent(bufs, disk, plain, dirty)
    requires b < |bufs| && !bufs[b].valid && bufs[b].dev != 0 && KeyOf(bufs[b]) in disk
    ensures KeyOf(bufs[b]) in plain && disk[KeyOf(bufs[b])] == plain[KeyOf(bufs[b])]
    ensures var bufs' := bufs[b := bufs[b].(valid := true, data := disk[KeyOf(bufs[b])])];
            Unique(bufs') && Coherent(bufs', disk, plain, dirty)
  {
    var bufs' := bufs[b := bufs[b].(valid := true, data := disk[KeyOf(bufs[b])])];
    forall k | k in dirty
      ensures k != KeyOf(bufs[b]) && Held(bufs', k)
    {
      var i :| 0 <= i < |bufs| && KeyOf(bufs[i]) == k && bufs[i].valid && bufs[i].refcnt > 0;
      assert KeyOf(bufs'[i]) == k && bufs'[i].valid && bufs'[i].refcnt > 0;
    }
  }

  lemma StoreKeeps(bufs: seq<Buf>, disk: map<Key, Block>, plain: map<Key, Block>, dirty: set<Key>, b: nat, v: Block)
    requires Unique(bufs) && Coherent(bufs, disk, plain, dirty)
    requires b < |bufs| && bufs[b].valid && bufs[b].refcnt > 0 && bufs[b].dev != 0
    ensures KeyOf(bufs[b]) in plain
    ensures var bufs', k := bufs[b := bufs[b].(data := v)], KeyOf(bufs[b]);
            Unique(bufs') && Coherent(bufs', disk, plain[k := v], dirty + {k})
  {
    var bufs', key := bufs[b := bufs[b].(data := v)], KeyOf(bufs[b]);
    assert plain[key := v].Keys == plain.Keys;
    forall i | 0 <= i < |bufs'| && bufs'[i].valid && bufs'[i].dev != 0
      ensures KeyOf(bufs'[i]) in plain && bufs'[i].data == plain[key := v][KeyOf(bufs'[i])]
    {
      assert KeyOf(bufs'[i]) == KeyOf(bufs[i]);
    }
    forall k | k in dirty + {key}
      ensures Held(bufs', k)
    {
      if k == key {
        assert KeyOf(bufs'[b]) == k && bufs'[b].valid && bufs'[b].refcnt > 0;
      } else {
        var i :| 0 <= i < |bufs| && KeyOf(bufs[i]) == k && bufs[i].valid && bufs[i].refcnt > 0;
        assert KeyOf(bufs'[i]) == k && bufs'[i].valid && bufs'[i].refcnt > 0;
      }
    }
  }

  /** brelse moves a buffer to the front: the order stays that of the latest moves. */
  lemma FrontOrdered(order: seq<nat>, stamp: seq<nat>, clock: nat, k: nat)
    requires Ordered(order, stamp, clock) && k < NBUF
    ensures Ordered([order[k]] + (order[..k] + order[k + 1..]), stamp[order[k] := clock + 1], clock + 1)
  {
  }

  lemma PositionOf(order: seq<nat>, stamp: seq<nat>, clock: nat, b: nat) returns (k: nat)
    requires Ordered(order, stamp, clock) && b < NBUF
    ensures k < NBUF && order[k] == b
  {
    AllListed(order, NBUF);
    assert b in order;
    k :| 0 <= k < |order| && order[k] == b;
  }

  // ------------------------------------------------------------------------ the cache

  class Cache {
    const next: array<nat>
    const prev: array<nat>
    const buf: array<Buf>
    var disk: map<Key, Block>
    ghost var order: seq<nat>
    ghost var stamp: seq<nat>
    ghost var clock: nat
    ghost var plain: map<Key, Block> // what a map from block numbers to blocks would hold
    ghost var dirty: set<Key>        // the blocks whose disk copy is behind

    ghost predicate Valid()
      reads this, next, prev, buf
    {
      && next != prev && next.Length == prev.Length == NBUF + 1 && buf.Length == NBUF
      && Ring(next[..], prev[..], NBUF, order)
      && Ordered(order, stamp, clock)
      && Unique(buf[..])
      && Coherent(buf[..], disk, plain, dirty)
    }

    /** binit: every buffer is pushed to the front in turn. */
    constructor (disk: map<Key, Block>)
      ensures Valid() && this.disk == disk && plain == disk && dirty == {} && order == Down(NBUF)
      ensures fresh(next) && fresh(prev) && fresh(buf)
    {
      next := new nat[NBUF + 1](_ => NBUF);
      prev := new nat[NBUF + 1](_ => NBUF);
      buf := new Buf[NBUF](_ => Buf(0, 0, false, 0, []));
      this.disk := disk;
      plain, dirty := disk, {};
      order := [];
      stamp := seq(NBUF, i => i + 1);
      clock := NBUF;
      new;
      hide Unique, Coherent, Ring, Ordered;
      ghost var bufs := buf[..];
      NoBlocks(bufs, disk);
      RingEmpty(next[..], prev[..], NBUF);
      PushAll();
      DownOrdered();
      assert buf[..] == bufs;
    }

    method PushAll()
      requires next != prev && next.Length == prev.Length == NBUF + 1
      requires Ring(next[..], prev[..], NBUF, order) && order == []
      modifies next, prev, this`order
      ensures Ring(next[..], prev[..], NBUF, order) && order == Down(NBUF)
    {
      hide Ring;
      for i := 0 to NBUF
        invariant Ring(next[..], prev[..], NBUF, order) && order == Down(i)
      {
        PushBuffer(i);
      }
    }

    method PushBuffer(b: nat)
      requires next != prev && next.Length == prev.Length == NBUF + 1 && b < NBUF
      requires Ring(next[..], prev[..], NBUF, order) && order == Down(b)
      modifies next, prev, this`order
      ensures Ring(next[..], prev[..], NBUF, order) && order == Down(b + 1)
    {
      hide Ring;
      ghost var n1, p1 := next[..], prev[..];
      DownBelow(b);
      RingPush(n1, p1, NBUF, order, b);
      RingLength(n1, p1, NBUF, order);
      next[b] := next[NBUF];
      prev[b] := NBUF;
      prev[next[NBUF]] := b;
      next[NBUF] := b;
      ghost var n2: seq<nat>, p2: seq<nat> := n1[b := n1[NBUF]], p1[b := NBUF];
      assert next[..] == n2[NBUF := b] && prev[..] == p2[n1[NBUF] := b];
      order := [b] + order;
    }

    /** The hit loop of bget: the buffer that holds the block, or NBUF. */
    method Lookup(dev: nat, blockno: nat) returns (b: nat)
      requires Valid() && dev != 0
      ensures b <= NBUF
      ensures b < NBUF ==> KeyOf(buf[b]) == (dev, blockno)
      ensures b == NBUF ==> forall i :: 0 <= i < NBUF ==> KeyOf(buf[i]) != (dev, blockno)
    {
      hide Unique, Coherent;
      b := next[NBUF];
      ghost var i := 0;
      assert next[..][NBUF] == next[NBUF];
      while b != NBUF && !(buf[b].dev == dev && buf[b].blockno == blockno)
        invariant 0 <= i <= NBUF && b == Succ(order, i - 1, NBUF)
        invariant forall j :: 0 <= j < i ==> KeyOf(buf[order[j]]) != (dev, blockno)
        decreases NBUF - i
      {
        assert NodeOk(next[..], prev[..], NBUF, order, i);
        b := next[b];
        i := i + 1;
      }
      if b == NBUF {
        AllListed(order, NBUF);
        forall x | 0 <= x < NBUF
          ensures KeyOf(buf[x]) != (dev, blockno)
        {
          assert x in order;
        }
      }
    }

    /** The backward scan of bget: the least recently used buffer with no references, or NBUF. */
    method FindUnused() returns (b: nat)
      requires Valid()
      ensures b <= NBUF
      ensures b < NBUF ==> exists j :: 0 <= j < NBUF && order[j] == b && LeastRecent(buf[..], order, j)
      ensures b == NBUF ==> forall i :: 0 <= i < NBUF ==> buf[i].refcnt > 0
    {
      hide Unique, Coherent;
      b := prev[NBUF];
      ghost var i := NBUF;
      assert prev[..][NBUF] == prev[NBUF];
      while b != NBUF && buf[b].refcnt != 0
        invariant 0 <= i <= NBUF && b == Pred(order, i, NBUF)
        invariant forall j :: i <= j < NBUF ==> buf[order[j]].refcnt > 0
        decreases i
      {
        assert NodeOk(next[..], prev[..], NBUF, order, i - 1);
        b := prev[b];
        i := i - 1;
      }
      if b == NBUF {
        AllListed(order, NBUF);
        forall x | 0 <= x < NBUF
          ensures buf[x].refcnt > 0
        {
          assert x in order;
        }
      } else {
        assert LeastRecent(buf[..], order, i - 1);
      }
    }

    method SetBuf(b: nat, v: Buf)
      requires b < NBUF == buf.Length
      modifies buf
      ensures buf[..] == old(buf[..])[b := v]
    {
      buf[b] := v;
    }

    /**
     bget: a hit takes one more reference; a miss recycles the least recently used buffer
     without references; None stands for the panic when every buffer is in use.
     */
    method Bget(dev: nat, blockno: nat) returns (r: Option<nat>)
      requires Valid() && dev != 0
      modifies buf
      ensures Valid()
      ensures r.Some? ==> r.value < NBUF && KeyOf(buf[r.value]) == (dev, blockno) && buf[r.value].refcnt > 0
      ensures r.None? <==> old(AllBusy(buf[..], (dev, blockno)))
      ensures r.None? ==> buf[..] == old(buf[..])
      ensures r.Some? ==> Got(old(buf[..]), order, (dev, blockno), r.value, buf[..])
    {
      hide Ring, Ordered, Unique, Coherent;
      var b := Lookup(dev, blockno);
      if b < NBUF {
        RefKeeps(buf[..], disk, plain, dirty, b, buf[b].refcnt + 1);
        SetBuf(b, buf[b].(refcnt := buf[b].refcnt + 1));
        return Some(b);
      }
      OrderedShape(order, stamp, clock);
      b := FindUnused();
      if b == NBUF {
        return None;
      }
      RecycleKeeps(buf[..], disk, plain, dirty, b, dev, blockno);
      SetBuf(b, Buf(dev, blockno, false, 1, buf[b].data));
      return Some(b);
    }

    /** bread: the buffer holds the block's latest contents. */
    method Bread(dev: nat, blockno: nat) returns (r: Option<nat>)
      requires Valid() && dev != 0 && (dev, blockno) in disk
      modifies buf
      ensures Valid()
      ensures r.None? <==> old(AllBusy(buf[..], (dev, blockno)))
      ensures r.Some? ==>
        r.value < NBUF && KeyOf(buf[r.value]) == (dev, blockno) && buf[r.value].valid && buf[r.value].refcnt > 0
      ensures r.Some? ==> (dev, blockno) in plain && buf[r.value].data == plain[(dev, blockno)]
    {
      hide Ring, Ordered, Unique;
      r := Bget(dev, blockno);
      if r.Some? && !buf[r.value].valid {
        FillKeeps(buf[..], disk, plain, dirty, r.value);
        SetBuf(r.value, buf[r.value].(valid := true, data := disk[(dev, blockno)]));
      }
    }

    /** A holder of the buffer changes its contents. */
    method Store(b: nat, v: Block)
      requires Valid() && b < NBUF && buf[b].valid && buf[b].refcnt > 0 && buf[b].dev != 0
      modifies buf, this`plain, this`dirty
      ensures Valid() && plain == old(plain)[KeyOf(old(buf[b])) := v] && dirty == old(dirty) + {KeyOf(old(buf[b]))}
      ensures buf[..] == old(buf[..])[b := old(buf[b]).(data := v)]
    {
      hide Ring, Ordered, Unique, Coherent;
      StoreKeeps(buf[..], disk, plain, dirty, b, v);
      plain := plain[KeyOf(buf[b]) := v];
      dirty := dirty + {KeyOf(buf[b])};
      SetBuf(b, buf[b].(data := v));
    }

    /** bwrite: the disk catches up. */
    method Bwrite(b: nat)
      requires Valid() && b < NBUF && buf[b].valid && buf[b].dev != 0
      modifies this`disk, this`dirty
      ensures Valid() && disk == old(disk)[KeyOf(buf[b]) := buf[b].data] && dirty == old(dirty) - {KeyOf(buf[b])}
    {
      hide Ring, Ordered, Unique, Held;
      assert disk[KeyOf(buf[b]) := buf[b].data].Keys == disk.Keys;
      disk := disk[KeyOf(buf[b]) := buf[b].data];
      dirty := dirty - {KeyOf(buf[b])};
    }

    method Bpin(b: nat)
      requires Valid() && b < NBUF
      modifies buf
      ensures Valid() && buf[..] == old(buf[..])[b := old(buf[b]).(refcnt := old(buf[b]).refcnt + 1)]
    {
      hide Ring, Ordered, Unique, Coherent;
      RefKeeps(buf[..], disk, plain, dirty, b, buf[b].refcnt + 1);
      SetBuf(b, buf[b].(refcnt := buf[b].refcnt + 1));
    }

    /** bunpin: not the last reference of a block whose disk copy is behind. */
    method Bunpin(b: nat)
      requires Valid() && b < NBUF && buf[b].refcnt > 0
      requires buf[b].refcnt > 1 || KeyOf(buf[b]) !in dirty
      modifies buf
      ensures Valid() && buf[..] == old(buf[..])[b := old(buf[b]).(refcnt := old(buf[b]).refcnt - 1)]
    {
      hide Ring, Ordered, Unique, Coherent;
      RefKeeps(buf[..], disk, plain, dirty, b, buf[b].refcnt - 1);
      SetBuf(b, buf[b].(refcnt := buf[b].refcnt - 1));
    }

    /** brelse: drop a reference; the last one moves the buffer to the front of the list. */
    method Brelse(b: nat)
      requires Valid() && b < NBUF && buf[b].refcnt > 0
      requires buf[b].refcnt > 1 || KeyOf(buf[b]) !in dirty
      modifies buf, next, prev, this`order, this`stamp, this`clock
      ensures Valid() && buf[..] == old(buf[..])[b := old(buf[b]).(refcnt := old(buf[b]).refcnt - 1)]
      ensures old(buf[b]).refcnt > 1 ==> order == old(order)
      ensures old(buf[b]).refcnt == 1 ==>
        order == [b] + Without(old(order), b) && stamp == old(stamp)[b := clock] && clock == old(clock) + 1
    {
      hide Ring, Ordered, Unique, Coherent;
      RefKeeps(buf[..], disk, plain, dirty, b, buf[b].refcnt - 1);
      SetBuf(b, buf[b].(refcnt := buf[b].refcnt - 1));
      if buf[b].refcnt == 0 {
        ToFront(b);
      }
    }

    /** The pointer assignments of brelse. */
    method ToFront(b: nat)
      requires Valid() && b < NBUF
      modifies next, prev, this`order, this`stamp, this`clock
      ensures Valid() && order == [b] + Without(old(order), b) && stamp == old(stamp)[b := clock] &&
        clock == old(clock) + 1
    {
      hide Ring, Ordered, Unique, Coherent;
      OrderedShape(order, stamp, clock);
      ghost var k := PositionOf(order, stamp, clock, b);
      ghost var n0, p0 := next[..], prev[..];
      FrontOrdered(order, stamp, clock, k);
      OrderedNoDup(order, stamp, clock, k);
      RingUnlink(n0, p0, NBUF, order, k);
      ghost var rest := order[..k] + order[k + 1..];
      prev[next[b]] := prev[b];
      assert prev[b] == p0[b];
      next[prev[b]] := next[b];
      assert prev[..] == p0[n0[b] := p0[b]] && next[..] == n0[p0[b] := n0[b]];
      ghost var n1, p1 := next[..], prev[..];
      RingPush(n1, p1, NBUF, rest, b);
      next[b] := next[NBUF];
      prev[b] := NBUF;
      prev[next[NBUF]] := b;
      next[NBUF] := b;
      ghost var n2: seq<nat>, p2: seq<nat> := n1[b := n1[NBUF]], p1[b := NBUF];
      assert next[..] == n2[NBUF := b] && prev[..] == p2[n1[NBUF] := b];
      order := [b] + rest;
      clock := clock + 1;
      stamp := stamp[b := clock];
    }
  }

  lemma NoBlocks(bufs: seq<Buf>, disk: map<Key, Block>)
    requires forall i :: 0 <= i < |bufs| ==> bufs[i] == Buf(0, 0, false, 0, [])
    ensures Unique(bufs) && Coherent(bufs, disk, disk, {})
  {
  }

  /** n - 1, n - 2, ..., 0. */
  function Down(n: nat): (r: seq<nat>)
    ensures |r| == n && forall i :: 0 <= i < n ==> r[i] == n - 1 - i
  {
    if n == 0 then [] else [n - 1] + Down(n - 1)
  }

  lemma DownBelow(b: nat)
    ensures b !in Down(b)
  {
  }

  lemma RingLength(next: seq<nat>, prev: seq<nat>, h: nat, s: seq<nat>)
    requires Ring(next, prev, h, s)
    ensures |next| == |prev| == h + 1
  {
  }

  lemma DownOrdered()
    ensures Ordered(Down(NBUF), seq(NBUF, i => i + 1), NBUF)
  {
  }

  /** Every buffer is in use and none holds the block: bget panics. */
  ghost predicate AllBusy(bufs: seq<Buf>, k: Key) {
    (forall i :: 0 <= i < |bufs| ==> KeyOf(bufs[i]) != k) && forall i :: 0 <= i < |bufs| ==> bufs[i].refcnt > 0
  }

  /** What bget did: a reference more to the buffer of the block, or the least recently used one recycled. */
  ghost predicate Got(bufs: seq<Buf>, order: seq<nat>, k: Key, b: nat, bufs': seq<Buf>)
    requires b < |bufs| == NBUF
  {
    || (KeyOf(bufs[b]) == k && bufs' == bufs[b := bufs[b].(refcnt := bufs[b].refcnt + 1)])
    || ((forall i :: 0 <= i < NBUF ==> KeyOf(bufs[i]) != k)
        && bufs' == bufs[b := Buf(k.0, k.1, false, 1, bufs[b].data)]
        && |order| == NBUF && (forall i :: 0 <= i < NBUF ==> order[i] < NBUF)
        && exists j :: 0 <= j < NBUF && order[j] == b && LeastRecent(bufs, order, j))
  }

  lemma OrderedShape(order: seq<nat>, stamp: seq<nat>, clock: nat)
    requires Ordered(order, stamp, clock)
    ensures |order| == |stamp| == NBUF && forall i :: 0 <= i < NBUF ==> order[i] < NBUF
  {
  }

  /** Taking position k out of the order is taking that buffer out. */
  lemma OrderedNoDup(order: seq<nat>, stamp: seq<nat>, clock: nat, k: nat)
    requires Ordered(order, stamp, clock) && k < NBUF
    ensures order[..k] + order[k + 1..] == Without(order, order[k]) && order[k] !in order[..k] + order[k + 1..]
  {
    SplitOut(order, k);
    WithoutAt(order, k);
  }
}
