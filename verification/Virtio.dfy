/** The virtio disk driver's descriptor bookkeeping, requests and interrupt handler. */
module Virtio {
  import opened Wrappers
  import opened VirtioModel
  import opened VirtioTheorems
  import opened VirtioRuns

  /** The id the interrupt handler finds in its k-th turn. */
  function IdAt(ring: seq<nat>, usedIdx: nat, k: nat): nat
    requires |ring| == NUM
  {
    ring[(usedIdx + k) % WRAP % NUM]
  }

  /** The first n entries the handler finds are requests of the driver, with their buffers. */
  ghost predicate Ours(info: seq<Option<nat>>, ring: seq<nat>, usedIdx: nat, n: nat)
    requires |ring| == |info| == NUM
  {
    forall k :: 0 <= k < n ==> IdAt(ring, usedIdx, k) < NUM && info[IdAt(ring, usedIdx, k)].Some?
  }

  /** The first n entries the handler finds were also answered without an error. */
  ghost predicate Ready(status: seq<nat>, info: seq<Option<nat>>, ring: seq<nat>, usedIdx: nat, n: nat)
    requires |ring| == |status| == |info| == NUM
  {
    forall k :: 0 <= k < n ==> CanReap(status, info, IdAt(ring, usedIdx, k))
  }

  lemma ReadyAt(status: seq<nat>, info: seq<Option<nat>>, ring: seq<nat>, usedIdx: nat, n: nat, k: nat)
    requires |ring| == |status| == |info| == NUM && Ready(status, info, ring, usedIdx, n) && k < n
    ensures CanReap(status, info, IdAt(ring, usedIdx, k)) && Ready(status, info, ring, usedIdx, k)
  {
  }

  /** The driver after n turns of the interrupt handler's loop. */
  ghost function Turns(dr: Driver, ring: seq<nat>, n: nat): (r: Driver)
    requires |ring| == |dr.status| == |dr.info| == NUM && Ready(dr.status, dr.info, ring, dr.usedIdx, n)
    ensures r.status == dr.status && r.info == dr.info
  {
    if n == 0 then dr
    else
      ReadyAt(dr.status, dr.info, ring, dr.usedIdx, n, n - 1);
      DriverReaps(Turns(dr, ring, n - 1), IdAt(ring, dr.usedIdx, n - 1))
  }

  class Disk {
    var free: seq<bool>
    var desc: seq<Desc>
    var ring: seq<nat>
    var idx: nat
    var usedIdx: nat
    var info: seq<Option<nat>>
    var status: seq<nat>
    var ops: seq<Req>
    var onDisk: set<nat>

    /** The driver's part of the machine's state, between two sections under the lock. */
    ghost function State(): Driver
      reads this
    {
      Driver(free, desc, ring, idx, usedIdx, info, status, ops, onDisk, None)
    }

    ghost predicate Valid()
      reads this
    {
      |free| == |desc| == |ring| == |info| == |status| == |ops| == NUM && idx < WRAP && usedIdx < WRAP
    }

    /** virtio_disk_init: zeroed memory, all descriptors free. */
    constructor ()
      ensures Valid() && (forall i :: 0 <= i < NUM ==> free[i] && desc[i] == UNUSED) && idx == usedIdx == 0 &&
        onDisk == {}
    {
      free, desc, ring := seq(NUM, _ => true), seq(NUM, _ => UNUSED), seq(NUM, _ => 0);
      idx, usedIdx, onDisk := 0, 0, {};
      info, status, ops := seq(NUM, _ => None), seq(NUM, _ => 0), seq(NUM, _ => Req(In, 0));
    }

    method AllocDesc() returns (r: int)
      requires Valid()
      modifies this`free
      ensures r == -1 ==> FirstFree(old(free)) == NUM && free == old(free)
      ensures r != -1 ==> 0 <= r < NUM && FirstFree(old(free)) == r && free == old(free)[r := false]
    {
      for i := 0 to NUM
        invariant free == old(free) && forall j :: 0 <= j < i ==> !free[j]
      {
        if free[i] {
          free := free[i := false];
          return i;
        }
      }
      return -1;
    }

    /** Panics unless the descriptor is one in use. */
    method FreeDesc(i: nat)
      requires Valid() && i < NUM && !free[i]
      modifies this`free, this`desc
      ensures free == old(free)[i := true] && desc == old(desc)[i := UNUSED]
    {
      desc := desc[i := UNUSED];
      free := free[i := true];
    }

    /** Takes three descriptors, or gives back those it got. */
    method Alloc3Desc() returns (ok: bool, i0: nat, i1: nat, i2: nat)
      requires Valid()
      modifies this`free, this`desc
      ensures ok <==> Three(old(free)).Some?
      ensures ok ==>
        (i0, i1, i2) == Three(old(free)).value && free == FreeThree(old(free), i0, i1, i2, false) && desc == old(desc)
      ensures !ok ==> free == old(free) && |desc| == NUM && forall k :: 0 <= k < NUM ==>
        desc[k] == old(desc[k]) || (free[k] && desc[k] == UNUSED)
    {
      i0, i1, i2 := 0, 0, 0;
      var a := AllocDesc();
      if a < 0 {
        return false, 0, 0, 0;
      }
      var b := AllocDesc();
      if b < 0 {
        FreeDesc(a);
        assert free == old(free);
        return false, 0, 0, 0;
      }
      var c := AllocDesc();
      if c < 0 {
        FreeDesc(a);
        FreeDesc(b);
        assert free == old(free);
        return false, 0, 0, 0;
      }
      return true, a, b, c;
    }

    /** Frees the chain that starts at h. */
    method FreeChain(h: nat)
      requires Valid() && ThreeLinked(free, desc, h)
      modifies this`free, this`desc
      ensures var i1 := old(desc[h].next);
              var i2 := old(desc[i1].next);
              free == FreeThree(old(free), h, i1, i2, true) &&
                desc == old(desc)[h := UNUSED][i1 := UNUSED][i2 := UNUSED]
    {
      ghost var i1 := desc[h].next;
      ghost var i2 := desc[i1].next;
      var i := h;
      ghost var n := 0;
      while true
        invariant n <= 2 && i == (if n == 0 then h else if n == 1 then i1 else i2)
        invariant free == (if n == 0 then old(free) else if n == 1 then old(free)[h := true]
          else old(free)[h := true][i1 := true])
        invariant desc == (if n == 0 then old(desc) else if n == 1 then old(desc)[h := UNUSED]
          else old(desc)[h := UNUSED][i1 := UNUSED])
        decreases 3 - n
      {
        var more, next := desc[i].more, desc[i].next;
        FreeDesc(i);
        if !more {
          break;
        }
        i, n := next, n + 1;
      }
    }

    /** virtio_disk_rw from the allocation to the notification; without three descriptors the caller sleeps. */
    method Submit(b: nat, write: bool, blockno: nat) returns (ok: bool, head: nat)
      requires Valid() && blockno < 0x1_0000_0000
      modifies this
      ensures Valid() && (ok <==> Three(old(free)).Some?)
      ensures ok ==>
        State() == DriverPublishes(DriverPrepares(old(State()), b, write, blockno)) && head == Three(old(free)).value.0
      ensures !ok ==> State() == old(State()).(desc := desc) && forall k :: 0 <= k < NUM ==>
        desc[k] == old(desc[k]) || (free[k] && desc[k] == UNUSED)
    {
      var sector := blockno * (BSIZE / 512) % 0x1_0000_0000;
      var i0, i1, i2;
      ok, i0, i1, i2 := Alloc3Desc();
      head := i0;
      if !ok {
        return;
      }
      ops := ops[i0 := Req(if write then Out else In, sector)];
      desc := desc[i0 := Desc(Header(i0), REQUEST, true, false, i1)];
      desc := desc[i1 := Desc(Data(b), BSIZE, true, !write, i2)];
      status := status[i0 := UNFINISHED];
      desc := desc[i2 := Desc(Status(i0), 1, false, true, 0)];
      onDisk := onDisk + {b};
      info := info[i0 := Some(b)];
      ring := ring[idx % NUM := i0];
      idx := (idx + 1) % WRAP;
    }

    /** The end of virtio_disk_rw, once the buffer's disk flag is clear. */
    method Finish(head: nat)
      requires Valid() && ThreeLinked(free, desc, head)
      modifies this
      ensures Valid() && State() == DriverReturns(old(State()), head)
    {
      info := info[head := None];
      FreeChain(head);
    }

    /**
     virtio_disk_intr, up to a used index that is n entries ahead.  It takes the entries up to the first whose
     status is not 0, on which it panics.
     */
    method Intr(usedRing: seq<nat>, devIdx: nat, ghost n: nat) returns (ok: bool, ghost k: nat)
      requires Valid() && |usedRing| == NUM && n < WRAP && devIdx == (usedIdx + n) % WRAP
      requires Ours(info, usedRing, usedIdx, n)
      modifies this
      ensures Valid() && k <= n && Ready(old(status), old(info), usedRing, old(usedIdx), k)
      ensures State() == Turns(old(State()), usedRing, k)
      ensures ok ==> k == n && usedIdx == devIdx
      ensures !ok ==>
        k < n && IdAt(usedRing, old(usedIdx), k) < NUM && old(status)[IdAt(usedRing, old(usedIdx), k)] != 0
    {
      hide Ready, Turns, Ours;
      k := 0;
      NoTurns(State(), usedRing);
      NoneReady(status, info, usedRing, usedIdx);
      while usedIdx != devIdx
        invariant k <= n && Valid() && usedIdx == (old(usedIdx) + k) % WRAP
        invariant status == old(status) && info == old(info) && Ready(status, info, usedRing, old(usedIdx), k)
        invariant State() == Turns(old(State()), usedRing, k)
        decreases n - k
      {
        var id := usedRing[usedIdx % NUM];
        OursAt(info, usedRing, old(usedIdx), n, k);
        assert id == IdAt(usedRing, old(usedIdx), k);
        if status[id] != 0 {
          return false, k;
        }
        ReadyNext(status, info, usedRing, old(usedIdx), k);
        OneTurn(old(State()), usedRing, k);
        var b := info[id].value;
        onDisk := onDisk - {b};
        NextIndex(old(usedIdx), k);
        usedIdx := (usedIdx + 1) % WRAP;
        k := k + 1;
      }
      SameIndex(old(usedIdx), k, n);
      return true, k;
    }
  }

  lemma NoTurns(dr: Driver, ring: seq<nat>)
    requires |ring| == |dr.status| == |dr.info| == NUM
    ensures Ready(dr.status, dr.info, ring, dr.usedIdx, 0) && Turns(dr, ring, 0) == dr
  {
  }

  lemma OneTurn(dr: Driver, ring: seq<nat>, k: nat)
    requires |ring| == |dr.status| == |dr.info| == NUM && Ready(dr.status, dr.info, ring, dr.usedIdx, k + 1)
    ensures Ready(dr.status, dr.info, ring, dr.usedIdx, k) && CanReap(dr.status, dr.info, IdAt(ring, dr.usedIdx, k))
    ensures Turns(dr, ring, k + 1) == DriverReaps(Turns(dr, ring, k), IdAt(ring, dr.usedIdx, k))
  {
    ReadyAt(dr.status, dr.info, ring, dr.usedIdx, k + 1, k);
  }

  lemma OursAt(info: seq<Option<nat>>, ring: seq<nat>, usedIdx: nat, n: nat, k: nat)
    requires |ring| == |info| == NUM && Ours(info, ring, usedIdx, n) && k < n
    ensures IdAt(ring, usedIdx, k) < NUM && info[IdAt(ring, usedIdx, k)].Some?
  {
  }

  lemma NoneReady(status: seq<nat>, info: seq<Option<nat>>, ring: seq<nat>, usedIdx: nat)
    requires |ring| == |status| == |info| == NUM
    ensures Ready(status, info, ring, usedIdx, 0)
  {
  }

  lemma ReadyNext(status: seq<nat>, info: seq<Option<nat>>, ring: seq<nat>, usedIdx: nat, k: nat)
    requires |ring| == |status| == |info| == NUM && Ready(status, info, ring, usedIdx, k)
    requires CanReap(status, info, IdAt(ring, usedIdx, k))
    ensures Ready(status, info, ring, usedIdx, k + 1)
  {
  }

  lemma NextIndex(x: nat, k: nat)
    ensures ((x + k) % WRAP + 1) % WRAP == (x + k + 1) % WRAP
  {
  }

  lemma SameIndex(x: nat, k: nat, n: nat)
    requires k <= n < WRAP && (x + k) % WRAP == (x + n) % WRAP
    ensures k == n
  {
  }

  /**
   In every state the machine reaches, the used entries the driver has not read are its own requests with their
   buffers, and the status found for each is what the device wrote for it.
   */
  lemma ReachedIsOurs(s: Sys)
    requires Inv(s)
    ensures Shape(s) && s.dv.idx == (s.dr.usedIdx + |s.bk.usedQ|) % WRAP && |s.bk.usedQ| < WRAP
    ensures Ours(s.dr.info, s.dv.ring, s.dr.usedIdx, |s.bk.usedQ|)
    ensures forall k :: 0 <= k < |s.bk.usedQ| ==>
              IdAt(s.dv.ring, s.dr.usedIdx, k) == s.bk.usedQ[k] && s.bk.usedQ[k] in s.bk.chains && s.bk.usedQ[k] < NUM
              && s.bk.chains[s.bk.usedQ[k]].answer == Some(s.dr.status[s.bk.usedQ[k]])
  {
    hide Descs, Places, Bufs, Tallies, Counts, RingOk, Transfers;
    forall k | 0 <= k < |s.bk.usedQ|
      ensures IdAt(s.dv.ring, s.dr.usedIdx, k) == s.bk.usedQ[k] && s.bk.usedQ[k] in s.bk.chains && s.bk.usedQ[k] < NUM
      ensures s.dr.info[s.bk.usedQ[k]].Some? && s.bk.chains[s.bk.usedQ[k]].answer == Some(s.dr.status[s.bk.usedQ[k]])
    {
      EntryIsOurs(s, k);
    }
    WindowAt(s.dv.ring, s.bk.usedQ, s.bk.reaped, s.dv.answering, s.dr.usedIdx, s.dv.idx, 0);
    QueueOf(s.bk.chains, s.dr.pending, s.bk.availQ, s.dv.busy, s.dv.answering, s.bk.usedQ);
    QueueShort(s.dr.free, s.dr.desc, s.bk.chains, s.bk.owner, s.bk.usedQ);
  }

  lemma IndexCut(x: nat)
    ensures x % WRAP % NUM == x % NUM
  {
    CountsNext(x % WRAP, x);
  }

  lemma EntryIsOurs(s: Sys, k: nat)
    requires Inv(s) && k < |s.bk.usedQ|
    ensures IdAt(s.dv.ring, s.dr.usedIdx, k) == s.bk.usedQ[k] && s.bk.usedQ[k] in s.bk.chains && s.bk.usedQ[k] < NUM
    ensures s.dr.info[s.bk.usedQ[k]].Some? && s.bk.chains[s.bk.usedQ[k]].answer == Some(s.dr.status[s.bk.usedQ[k]])
  {
    hide Descs, Tallies, Counts, RingOk, Bufs, Transfers;
    var h := s.bk.usedQ[k];
    assert h in s.bk.usedQ;
    assert PlaceOk(s.bk.chains[h].phase, h, s.dr.pending, s.bk.availQ, s.dv.busy, s.dv.answering, s.bk.usedQ);
    HolderOf(s.dr.info, s.dr.status, s.dr.onDisk, s.bk.chains, s.bk.holder, h);
    WindowAt(s.dv.ring, s.bk.usedQ, s.bk.reaped, s.dv.answering, s.dr.usedIdx, s.dv.idx, k);
    IndexCut(s.dr.usedIdx + k);
  }
}
