/**
 The virtio disk queue: the driver and the device as one machine, a step at a time.  The
 driver's and the device's fields are those of the source and of the device; `Book` is
 bookkeeping for the proofs, and no step of the driver or the device looks at it except to
 tell which request a waiting thread is in.
 */
module VirtioModel {
  import opened Wrappers

  const NUM: nat := 8
  const WRAP: nat := 0x1_0000

  const BSIZE: nat := 1024

  /** The contents of a buffer or of a block of the disk. */
  type Content = d: seq<int> | |d| == 1024 witness seq(1024, _ => 0)

  function At(m: map<nat, Content>, x: nat): Content {
    if x in m then m[x] else seq(1024, _ => 0)
  }

  datatype Target = Nothing | Header(i: nat) | Data(b: nat) | Status(i: nat)
  datatype Desc = Desc(addr: Target, len: nat, more: bool, write: bool, next: nat)

  /** A request header: whether the device is to read from the disk or write to it, and where. */
  datatype Kind = In | Out
  datatype Req = Req(kind: Kind, sector: nat)

  /** The sector of a block: b->blockno * (BSIZE / 512), in 32-bit arithmetic. */
  function SectorOf(blockno: nat): nat {
    blockno * (BSIZE / 512) % 0x1_0000_0000
  }

  /**
   Descriptors, available ring, used index, per-chain info and request headers; buffers with disk == 1; the head about
   to be published.
   */
  datatype Driver = Driver(free: seq<bool>, desc: seq<Desc>, ring: seq<nat>, idx: nat, usedIdx: nat,
                           info: seq<Option<nat>>, status: seq<nat>, ops: seq<Req>, onDisk: set<nat>,
                           pending: Option<nat>)

  /** Used ring, how far it has read the available ring, chains it works on, the one it is answering, and the disk. */
  datatype Device = Device(ring: seq<nat>, idx: nat, seen: nat, busy: set<nat>, answering: Option<nat>,
                           store: map<nat, Content>)

  datatype Phase = Formatted | Posted | Fetched | Written | Answered | Released

  /**
   A request: its descriptors and buffer, how far it is, the status byte the device wrote for it, once it has, what
   was asked for, and the contents that are to go to the disk or have come from it.
   */
  datatype Chain = Chain(i0: nat, i1: nat, i2: nat, buf: nat, phase: Phase, answer: Option<nat>, write: bool,
                         sector: nat, value: Content)

  datatype Book = Book(chains: map<nat, Chain>, owner: map<nat, nat>, holder: map<nat, nat>,
                       availQ: seq<nat>, usedQ: seq<nat>, fetched: nat, reaped: nat,
                       submitted: multiset<nat>, completed: multiset<nat>, released: multiset<nat>,
                       returned: multiset<nat>, plain: map<nat, Content>)

  datatype Sys = Sys(dr: Driver, dv: Device, bk: Book, mem: map<nat, Content>)

  datatype Event =
    | Fill(b: nat, v: Content)       // a thread changes a buffer it has locked
    | Prepare(b: nat, write: bool, blockno: nat) // virtio_disk_rw up to the write into the available ring
    | Publish                        // the increment of the available index
    | Fetch                          // the device takes the next entry of the available ring
    | Answer(h: nat, status: nat)    // the device finishes a chain: a status byte and the used ring entry
    | Bump                           // the device's increment of the used index
    | Reap                           // one turn of virtio_disk_intr's loop
    | Return(h: nat)                 // a woken thread frees its chain and leaves

  // ----------------------------------------------------------------------- descriptors

  /** The first free descriptor, or NUM. */
  function FirstFree(free: seq<bool>): (i: nat)
    ensures i <= |free| && (i < |free| ==> free[i]) && forall j :: 0 <= j < i ==> !free[j]
  {
    FirstFreeFrom(free, 0)
  }

  function FirstFreeFrom(free: seq<bool>, k: nat): (i: nat)
    requires k <= |free|
    ensures k <= i <= |free| && (i < |free| ==> free[i]) && forall j :: k <= j < i ==> !free[j]
    decreases |free| - k
  {
    if k < |free| && !free[k] then FirstFreeFrom(free, k + 1) else k
  }

  /** The three descriptors alloc3_desc takes, if there are three. */
  function Three(free: seq<bool>): (r: Option<(nat, nat, nat)>)
    ensures r.Some? ==>
      r.value.0 < r.value.1 < r.value.2 < |free| && free[r.value.0] && free[r.value.1] && free[r.value.2]
  {
    var i0 := FirstFree(free);
    if i0 == |free| then None else
      var f1 := free[i0 := false];
      var i1 := FirstFree(f1);
      if i1 == |free| then None else
        var f2 := f1[i1 := false];
        var i2 := FirstFree(f2);
        if i2 == |free| then None else Some((i0, i1, i2))
  }

  const REQUEST: nat := 16
  const UNUSED: Desc := Desc(Nothing, 0, false, false, 0)
  const UNFINISHED: nat := 0xff

  /** The three descriptors of a request, chained. */
  function Format(desc: seq<Desc>, i0: nat, i1: nat, i2: nat, b: nat, write: bool): seq<Desc>
    requires i0 < |desc| && i1 < |desc| && i2 < |desc|
  {
    desc[i0 := Desc(Header(i0), REQUEST, true, false, i1)]
        [i1 := Desc(Data(b), BSIZE, true, !write, i2)]
        [i2 := Desc(Status(i0), 1, false, true, 0)]
  }

  function FreeThree(free: seq<bool>, i0: nat, i1: nat, i2: nat, v: bool): seq<bool>
    requires i0 < |free| && i1 < |free| && i2 < |free|
  {
    free[i0 := v][i1 := v][i2 := v]
  }

  // ----------------------------------------------------------------------- the steps

  predicate Shape(s: Sys) {
    && |s.dr.free| == |s.dr.desc| == |s.dr.ring| == |s.dr.info| == |s.dr.status| == |s.dr.ops| == |s.dv.ring| == NUM
  }

  predicate Enabled(s: Sys, e: Event)
    requires Shape(s)
  {
    match e
    case Fill(b, _) => b !in s.bk.holder
    case Prepare(b, _, blockno) =>
      s.dr.pending.None? && Three(s.dr.free).Some? && b !in s.bk.holder && blockno < 0x1_0000_0000
    case Publish => s.dr.pending.Some?
    case Fetch => s.dv.seen != s.dr.idx
    case Answer(h, status) => h in s.dv.busy && s.dv.answering.None? && h < NUM && status < 0x100
    case Bump => s.dv.answering.Some?
    case Reap => s.dr.pending.None? && s.dr.usedIdx != s.dv.idx
    case Return(h) => s.dr.pending.None? && h in s.bk.chains && s.bk.chains[h].buf !in s.dr.onDisk
  }

  function InPhase(bk: Book, h: nat, p: Phase): map<nat, Chain> {
    if h in bk.chains then bk.chains[h := bk.chains[h].(phase := p)] else bk.chains
  }

  /** virtio_disk_rw's changes up to the available ring. */
  function DriverPrepares(dr: Driver, b: nat, write: bool, blockno: nat): Driver
    requires |dr.free| == |dr.desc| == |dr.ring| == |dr.info| == |dr.status| == |dr.ops| == NUM
    requires Three(dr.free).Some?
  {
    var (i0, i1, i2) := Three(dr.free).value;
    dr.(free := FreeThree(dr.free, i0, i1, i2, false), desc := Format(dr.desc, i0, i1, i2, b, write),
        ops := dr.ops[i0 := Req(if write then Out else In, SectorOf(blockno))],
        status := dr.status[i0 := UNFINISHED], onDisk := dr.onDisk + {b}, info := dr.info[i0 := Some(b)],
        ring := dr.ring[dr.idx % NUM := i0], pending := Some(i0))
  }

  function Prepared(s: Sys, b: nat, write: bool, blockno: nat): Sys
    requires Shape(s) && Three(s.dr.free).Some?
  {
    var (i0, i1, i2) := Three(s.dr.free).value;
    var c := Chain(i0, i1, i2, b, Formatted, None, write, SectorOf(blockno), At(s.mem, b));
    s.(dr := DriverPrepares(s.dr, b, write, blockno),
       bk := s.bk.(chains := s.bk.chains[i0 := c], owner := s.bk.owner[i0 := i0][i1 := i0][i2 := i0],
                   holder := s.bk.holder[b := i0], submitted := s.bk.submitted + multiset{b}))
  }

  function DriverPublishes(dr: Driver): Driver {
    dr.(idx := (dr.idx + 1) % WRAP, pending := None)
  }

  function Published(s: Sys): Sys
    requires s.dr.pending.Some?
  {
    var h := s.dr.pending.value;
    s.(dr := DriverPublishes(s.dr),
       bk := s.bk.(chains := InPhase(s.bk, h, Posted), availQ := s.bk.availQ + [h]))
  }

  function Taken(s: Sys): Sys
    requires Shape(s)
  {
    var h := s.dr.ring[s.dv.seen % NUM];
    s.(dv := s.dv.(seen := (s.dv.seen + 1) % WRAP, busy := s.dv.busy + {h}),
       bk := s.bk.(chains := InPhase(s.bk, h, Fetched),
                   availQ := if s.bk.availQ == [] then [] else s.bk.availQ[1..], fetched := s.bk.fetched + 1))
  }

  /** The request header, read from the chain's first descriptor. */
  function HeaderOf(desc: seq<Desc>, ops: seq<Req>, h: nat): Option<Req> {
    if h < |desc| && desc[h].addr.Header? && desc[h].addr.i < |ops| && desc[h].len == 16 && !desc[h].write
    then Some(ops[desc[h].addr.i]) else None
  }

  /** The first n bytes of src over those of dst. */
  function Copied(dst: Content, src: Content, n: nat): Content {
    if n <= 1024 then src[..n] + dst[n..] else dst
  }

  /**
   What the device does to the buffers and to the disk for the chain at h: it goes by the header and by what the
   second descriptor allows it to do, and does nothing if they do not agree.
   */
  function Transferred(dr: Driver, mem: map<nat, Content>, store: map<nat, Content>, h: nat):
    (map<nat, Content>, map<nat, Content>)
  {
    var q := HeaderOf(dr.desc, dr.ops, h);
    if q.None? || !(h < |dr.desc| && dr.desc[h].more && dr.desc[h].next < |dr.desc|) then (mem, store)
    else
      var d := dr.desc[dr.desc[h].next];
      if !d.addr.Data? then (mem, store)
      else if q.value.kind.In? && d.write then
        (mem[d.addr.b := Copied(At(mem, d.addr.b), At(store, q.value.sector), d.len)], store)
      else if q.value.kind.Out? && !d.write then
        (mem, store[q.value.sector := Copied(At(store, q.value.sector), At(mem, d.addr.b), d.len)])
      else (mem, store)
  }

  /** The device's status byte goes where the third descriptor says. */
  function Reported(desc: seq<Desc>, status: seq<nat>, h: nat, v: nat): (r: seq<nat>)
    ensures |r| == |status|
  {
    if h < |desc| && desc[h].more && desc[h].next < |desc| && desc[desc[h].next].more &&
      desc[desc[h].next].next < |desc|
    then
      var d := desc[desc[desc[h].next].next];
      if d.addr.Status? && d.addr.i < |status| && d.len == 1 && d.write && !d.more then status[d.addr.i := v]
      else status
    else status
  }

  /** A request that fails transfers nothing. */
  function Replied(s: Sys, h: nat, status: nat): Sys
    requires Shape(s) && h < NUM
  {
    var (mem, store) := if status == 0 then Transferred(s.dr, s.mem, s.dv.store, h) else (s.mem, s.dv.store);
    Sys(s.dr.(status := Reported(s.dr.desc, s.dr.status, h, status)),
        s.dv.(ring := s.dv.ring[s.dv.idx % NUM := h], busy := s.dv.busy - {h}, answering := Some(h), store := store),
        if h in s.bk.chains then
          s.bk.(chains := s.bk.chains[h := Finished(s.bk.chains[h], status, s.bk.plain)],
                completed := s.bk.completed + multiset{s.bk.chains[h].buf},
                plain := PlainAfter(s.bk.chains[h], status, s.bk.plain))
        else s.bk,
        mem)
  }

  /** The request as a plain disk of blocks would complete it. */
  function Finished(c: Chain, status: nat, plain: map<nat, Content>): Chain {
    c.(phase := Written, answer := Some(status),
       value := if status == 0 && !c.write then At(plain, c.sector) else c.value)
  }

  function PlainAfter(c: Chain, status: nat, plain: map<nat, Content>): map<nat, Content> {
    if status == 0 && c.write then plain[c.sector := c.value] else plain
  }

  function Bumped(s: Sys): Sys
    requires s.dv.answering.Some?
  {
    var h := s.dv.answering.value;
    s.(dv := s.dv.(idx := (s.dv.idx + 1) % WRAP, answering := None),
       bk := s.bk.(chains := InPhase(s.bk, h, Answered), usedQ := s.bk.usedQ + [h]))
  }

  /** virtio_disk_intr panics on a status that is not 0; without a buffer it would use a null pointer. */
  predicate CanReap(status: seq<nat>, info: seq<Option<nat>>, id: nat)
    requires |status| == |info| == NUM
  {
    id < NUM && status[id] == 0 && info[id].Some?
  }

  function DriverReaps(dr: Driver, id: nat): Driver
    requires |dr.status| == |dr.info| == NUM && CanReap(dr.status, dr.info, id)
  {
    dr.(onDisk := dr.onDisk - {dr.info[id].value}, usedIdx := (dr.usedIdx + 1) % WRAP)
  }

  predicate ReapFails(s: Sys)
    requires Shape(s)
  {
    !CanReap(s.dr.status, s.dr.info, s.dv.ring[s.dr.usedIdx % NUM])
  }

  function Reaped(s: Sys): Sys
    requires Shape(s) && !ReapFails(s)
  {
    var id := s.dv.ring[s.dr.usedIdx % NUM];
    s.(dr := DriverReaps(s.dr, id),
       bk := s.bk.(chains := InPhase(s.bk, id, Released),
                   usedQ := if s.bk.usedQ == [] then [] else s.bk.usedQ[1..], reaped := s.bk.reaped + 1,
                   released := s.bk.released + multiset{s.dr.info[id].value}))
  }

  /** Following the links from h, free_chain frees exactly three descriptors and does not panic. */
  predicate ThreeLinked(free: seq<bool>, desc: seq<Desc>, h: nat)
    requires |free| == |desc| == NUM
  {
    h < NUM && !free[h] && desc[h].more &&
    var i1 := desc[h].next;
    i1 < NUM && i1 != h && !free[i1] && desc[i1].more &&
    var i2 := desc[i1].next;
    i2 < NUM && i2 != h && i2 != i1 && !free[i2] && !desc[i2].more
  }

  function DriverReturns(dr: Driver, h: nat): Driver
    requires |dr.free| == |dr.desc| == |dr.info| == NUM && ThreeLinked(dr.free, dr.desc, h)
  {
    var i1 := dr.desc[h].next;
    var i2 := dr.desc[i1].next;
    dr.(info := dr.info[h := None], desc := dr.desc[h := UNUSED][i1 := UNUSED][i2 := UNUSED],
      free := FreeThree(dr.free, h, i1, i2, true))
  }

  function Returned(s: Sys, h: nat): Sys
    requires Shape(s) && h in s.bk.chains && ThreeLinked(s.dr.free, s.dr.desc, h)
  {
    var i1 := s.dr.desc[h].next;
    var i2 := s.dr.desc[i1].next;
    var c := s.bk.chains[h];
    s.(dr := DriverReturns(s.dr, h),
       bk := s.bk.(chains := s.bk.chains - {h}, owner := s.bk.owner - {h, i1, i2}, holder := s.bk.holder - {c.buf},
                   returned := s.bk.returned + multiset{c.buf}))
  }

  /** A step that would panic is no step: the kernel halts. */
  predicate Panics(s: Sys, e: Event)
    requires Shape(s) && Enabled(s, e)
  {
    (e.Reap? && ReapFails(s)) || (e.Return? && !ThreeLinked(s.dr.free, s.dr.desc, e.h))
  }

  function Next(s: Sys, e: Event): Sys
    requires Shape(s) && Enabled(s, e) && !Panics(s, e)
  {
    match e
    case Fill(b, v) => s.(mem := s.mem[b := v])
    case Prepare(b, write, blockno) => Prepared(s, b, write, blockno)
    case Publish => Published(s)
    case Fetch => Taken(s)
    case Answer(h, status) => Replied(s, h, status)
    case Bump => Bumped(s)
    case Reap => Reaped(s)
    case Return(h) => Returned(s, h)
  }
}
