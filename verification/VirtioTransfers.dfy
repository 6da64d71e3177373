/** What the requests are for: the blocks that move between the buffers and the disk. */
module VirtioTransfers {
  import opened Wrappers
  import opened Sequences
  import opened VirtioModel
  import opened VirtioTheorems
  import opened VirtioRuns

  // ----------------------------------------------------------------------- what the device sees

  /**
   In every run, from its preparation to its return, the device finds for a request: a 16-byte header to read, which
   says what to do and where; the buffer's 1024 bytes, to read for a disk write and to write for a disk read; and
   one status byte to write.
   */
  lemma FormatInEveryRun(s: Sys, es: seq<Event>, t: Sys, h: nat)
    requires Inv(s) && Start(s) && Run(s, es, t) && h in t.bk.chains
    ensures Shape(t) && h < NUM
    ensures var c := t.bk.chains[h];
            && c.i1 < NUM && c.i2 < NUM
            && t.dr.desc[h] == Desc(Header(h), 16, true, false, c.i1)
            && t.dr.desc[c.i1] == Desc(Data(c.buf), 1024, true, !c.write, c.i2)
            && t.dr.desc[c.i2] == Desc(Status(h), 1, false, true, 0)
            && t.dr.ops[h] == Req(if c.write then Out else In, c.sector)
  {
    hide Run, Start, Places, Bufs, Tallies, Rings;
    RunKeeps(s, es, t);
    assert ChainOk(t.dr.desc, t.bk.owner, h, t.bk.chains[h]);
    assert TransferOk(t.dr.ops, t.mem, h, t.bk.chains[h]);
  }

  /** The sector is the first of the block's two, unless the 32-bit product wraps. */
  lemma SectorIs(n: nat)
    requires n < 0x1_0000_0000
    ensures SectorOf(n) == if n < 0x8000_0000 then 2 * n else 2 * (n - 0x8000_0000)
  {
  }

  /** Two blocks share a sector exactly when they are 2^31 apart, so no two blocks below that do. */
  lemma SectorExactIff(m: nat, n: nat)
    requires m < 0x1_0000_0000 && n < 0x1_0000_0000
    ensures SectorOf(n) == 2 * n <==> n < 0x8000_0000
    ensures SectorOf(m) == SectorOf(n) <==> m == n || m == n + 0x8000_0000 || n == m + 0x8000_0000
  {
    hide SectorOf;
    SectorIs(m);
    SectorIs(n);
  }

  // ----------------------------------------------------------------------- what moves

  /**
   The disk changes only when the device completes a write, and then in that request's sector to the buffer's contents;
   a buffer changes only when the device completes a read into it, to what the disk has there, or when its thread
   changes it.
   */
  ghost predicate Moves(s: Sys, e: Event, s': Sys) {
    match e
    case Fill(b, v) => s'.mem == s.mem[b := v] && s'.dv.store == s.dv.store
    case Answer(h, status) =>
      h in s.bk.chains &&
      var c := s.bk.chains[h];
      if status != 0 then s'.mem == s.mem && s'.dv.store == s.dv.store
      else if c.write then s'.mem == s.mem && s'.dv.store == s.dv.store[c.sector := At(s.mem, c.buf)]
      else s'.mem == s.mem[c.buf := At(s.dv.store, c.sector)] && s'.dv.store == s.dv.store
    case _ => s'.mem == s.mem && s'.dv.store == s.dv.store
  }

  lemma StepMoves(s: Sys, e: Event)
    requires Inv(s) && Enabled(s, e) && !Panics(s, e)
    ensures Moves(s, e, Next(s, e))
  {
    hide Descs, Bufs, Tallies, Rings, ThreeLinked, ReapFails, Transferred, Reported, Places;
    if e.Answer? {
      AnswerPlaces(s.bk.chains, s.dr.pending, s.bk.availQ, s.dv.busy, e.h, s.bk.usedQ, e.status, s.bk.plain);
      AnswerFollows(s, e.h, e.status);
    }
  }

  /** From its preparation on a request keeps its buffer, its direction and its sector. */
  lemma StepAsks(s: Sys, e: Event, h: nat)
    requires Inv(s) && Enabled(s, e) && !Panics(s, e) && h in s.bk.chains && h in Next(s, e).bk.chains
    ensures var c, c' := s.bk.chains[h], Next(s, e).bk.chains[h];
            && c'.buf == c.buf && c'.write == c.write && c'.sector == c.sector && (c.write ==> c'.value == c.value)
  {
    hide Descs, Bufs, Tallies, Rings, ThreeLinked, ReapFails, Transferred, Reported, Places, Transfers;
    hide Three, Format, FreeThree, SectorOf;
    if e.Prepare? {
      NewHead(s);
    }
  }

  lemma NewHead(s: Sys)
    requires Inv(s) && Three(s.dr.free).Some?
    ensures Three(s.dr.free).value.0 !in s.bk.chains
  {
    hide Three, Bufs, Tallies, Rings, Places, Transfers;
    HeadsOwned(s.dr.free, s.dr.desc, s.bk.chains, s.bk.owner);
  }

  /**
   When a thread may return from virtio_disk_rw, in any run: the device has reported success; the buffer of a write
   still holds what was asked to be written, and that of a read what came from the disk.
   */
  lemma ReturnsDone(s: Sys, es: seq<Event>, t: Sys, h: nat)
    requires Inv(s) && Start(s) && Run(s, es, t) && Shape(t) && Enabled(t, Return(h))
    ensures Inv(t) && !Panics(t, Return(h))
    ensures t.bk.chains[h].answer == Some(0) && At(t.mem, t.bk.chains[h].buf) == t.bk.chains[h].value
  {
    hide Run, Start, Descs, Places, Tallies, Rings, ThreeLinked;
    RunKeeps(s, es, t);
    StepKeeps(t, Return(h));
    assert BufOk(t.dr.info, t.dr.status, t.dr.onDisk, t.bk.holder, h, t.bk.chains[h]);
    assert TransferOk(t.dr.ops, t.mem, h, t.bk.chains[h]);
  }

  // ----------------------------------------------------------------------- nothing gets stuck

  function FreeSet(free: seq<bool>): set<nat> {
    set i | 0 <= i < |free| && free[i]
  }

  /** alloc3_desc succeeds exactly when three descriptors are free. */
  lemma ThreeIff(free: seq<bool>)
    ensures Three(free).Some? <==> |FreeSet(free)| >= 3
  {
    var i0 := FirstFree(free);
    if i0 < |free| {
      var f1 := free[i0 := false];
      assert FreeSet(free) == FreeSet(f1) + {i0};
      var i1 := FirstFree(f1);
      if i1 < |free| {
        var f2 := f1[i1 := false];
        assert FreeSet(f1) == FreeSet(f2) + {i1};
        var i2 := FirstFree(f2);
        if i2 < |free| {
          assert i2 in FreeSet(f2);
        } else {
          assert FreeSet(f2) == {};
        }
      } else {
        assert FreeSet(f1) == {};
      }
    } else {
      assert FreeSet(free) == {};
    }
  }

  /** So a new request finds its descriptors exactly when fewer than two are in flight. */
  lemma RoomIff(free: seq<bool>, desc: seq<Desc>, chains: map<nat, Chain>, owner: map<nat, nat>)
    requires Descs(free, desc, chains, owner)
    ensures Three(free).Some? <==> |chains| <= 1
  {
    hide Members, Three, ChainOk, Indices, FreeSet;
    ThreeIff(free);
    FreeCount(free, desc, chains, owner);
    if chains == map[] {
      assert owner.Keys == {};
    } else {
      var h :| h in chains;
      MembersOwned(free, desc, chains, owner, h);
      if g :| g in chains && g != h {
        MembersOwned(free, desc, chains, owner, g);
        ChainsDisjoint(free, desc, chains, owner, g, h);
        forall f | f in chains
          ensures f == g || f == h
        {
          NotThree(free, desc, chains, owner, f, g, h);
        }
        assert chains.Keys == {g, h};
        assert owner.Keys == Members(chains[g]) + Members(chains[h]);
      } else {
        assert chains.Keys == {h};
        assert owner.Keys == Members(chains[h]);
      }
    }
  }

  lemma FreeCount(free: seq<bool>, desc: seq<Desc>, chains: map<nat, Chain>, owner: map<nat, nat>)
    requires Descs(free, desc, chains, owner)
    ensures |FreeSet(free)| == NUM - |owner.Keys|
  {
    hide Indices, ChainOk;
    forall i | i in owner
      ensures i in Indices(NUM)
    {
      assert InChain(chains, i, owner[i]);
    }
    assert FreeSet(free) == Indices(NUM) - owner.Keys;
    assert Indices(NUM) == FreeSet(free) + owner.Keys;
  }

  lemma MembersOwned(free: seq<bool>, desc: seq<Desc>, chains: map<nat, Chain>, owner: map<nat, nat>, h: nat)
    requires Descs(free, desc, chains, owner) && h in chains
    ensures |Members(chains[h])| == 3 && Members(chains[h]) <= owner.Keys <= Indices(NUM)
    ensures forall i :: i in owner && owner[i] == h ==> i in Members(chains[h])
  {
    hide Indices;
    ThreeMembers(desc, owner, h, chains[h]);
    forall i | i in owner
      ensures i in Indices(NUM) && (owner[i] == h ==> i in Members(chains[h]))
    {
      assert InChain(chains, i, owner[i]);
    }
  }

  /**
   In every state, whatever is left to do for a request can be done: each phase's next event is enabled, as soon as
   the driver is not in the middle of a submission and the device not in the middle of an answer.
   */
  lemma NeverStuck(s: Sys, h: nat)
    requires Inv(s) && h in s.bk.chains
    ensures match s.bk.chains[h].phase
            case Formatted => s.dr.pending == Some(h) && Enabled(s, Publish)
            case Posted => h in s.bk.availQ && Enabled(s, Fetch)
            case Fetched => s.dv.answering.None? ==> forall v: nat :: v < 0x100 ==> Enabled(s, Answer(h, v))
            case Written => s.dv.answering == Some(h) && Enabled(s, Bump)
            case Answered => h in s.bk.usedQ && (s.dr.pending.None? ==> Enabled(s, Reap))
            case Released => s.dr.pending.None? ==> Enabled(s, Return(h)) && !Panics(s, Return(h))
  {
    hide Descs, Tallies, RingOk, Transfers, ThreeLinked, Counts;
    var c := s.bk.chains[h];
    assert PlaceOk(c.phase, h, s.dr.pending, s.bk.availQ, s.dv.busy, s.dv.answering, s.bk.usedQ);
    assert BufOk(s.dr.info, s.dr.status, s.dr.onDisk, s.bk.holder, h, c);
    ReturnLinked(s.dr.free, s.dr.desc, s.bk.chains, s.bk.owner, h);
    QueueShort(s.dr.free, s.dr.desc, s.bk.chains, s.bk.owner, s.bk.availQ);
    QueueShort(s.dr.free, s.dr.desc, s.bk.chains, s.bk.owner, s.bk.usedQ);
    CountsDiffer(s.dv.seen, s.bk.fetched, s.dr.idx, s.bk.fetched + |s.bk.availQ|);
    CountsDiffer(s.dr.usedIdx, s.bk.reaped, s.dv.idx, s.bk.reaped + |s.bk.usedQ|);
  }

  // ----------------------------------------------------------------------- one request from end to end

  ghost predicate Step(s: Sys, e: Event, s': Sys) {
    Inv(s) && Enabled(s, e) && !Panics(s, e) && s' == Next(s, e) && Inv(s')
  }

  /** No request is in flight; the indices may be anywhere. */
  ghost predicate Quiet(s: Sys) {
    Inv(s) && s.bk.chains == map[]
  }

  /** The one request in flight. */
  ghost predicate Alone(s: Sys, h: nat, p: Phase, b: nat, write: bool, sector: nat, answer: Option<nat>) {
    && Inv(s) && s.bk.chains.Keys == {h} && s.bk.chains[h].phase == p && s.bk.chains[h].buf == b
    && s.bk.chains[h].write == write && s.bk.chains[h].sector == sector && s.bk.chains[h].answer == answer
  }

  lemma NothingElse(s: Sys, h: nat, p: Phase, b: nat, write: bool, sector: nat, answer: Option<nat>)
    requires Alone(s, h, p, b, write, sector, answer)
    ensures !p.Formatted? ==> s.dr.pending.None?
    ensures !p.Written? ==> s.dv.answering.None?
    ensures p.Posted? ==> s.bk.availQ != [] && s.bk.availQ[0] == h
    ensures p.Answered? ==> s.bk.usedQ != [] && s.bk.usedQ[0] == h
  {
    hide Descs, Tallies, Rings, Transfers, Bufs;
    assert PlaceOk(p, h, s.dr.pending, s.bk.availQ, s.dv.busy, s.dv.answering, s.bk.usedQ);
    assert forall x :: x in s.bk.chains <==> x in s.bk.chains.Keys;
    assert s.bk.availQ != [] ==> s.bk.availQ[0] in s.bk.availQ;
    assert s.bk.usedQ != [] ==> s.bk.usedQ[0] in s.bk.usedQ;
  }

  lemma QuietIsFree(s: Sys)
    requires Quiet(s)
    ensures s.dr.pending.None? && Three(s.dr.free).Some? && s.bk.holder == map[]
  {
    hide Descs, Tallies, Rings, Transfers, Three;
    RoomIff(s.dr.free, s.dr.desc, s.bk.chains, s.bk.owner);
    assert forall b :: b !in s.bk.holder;
  }

  lemma PrepareAlone(s: Sys, b: nat, write: bool, blockno: nat) returns (h: nat, s': Sys)
    requires Quiet(s) && blockno < 0x1_0000_0000
    ensures Step(s, Prepare(b, write, blockno), s') && s'.mem == s.mem && s'.dv.store == s.dv.store
    ensures Alone(s', h, Formatted, b, write, SectorOf(blockno), None)
  {
    hide Descs, Places, Bufs, Tallies, Rings, Transfers, Three, Format, FreeThree, SectorOf;
    QuietIsFree(s);
    h := Three(s.dr.free).value.0;
    s' := Next(s, Prepare(b, write, blockno));
    StepKeeps(s, Prepare(b, write, blockno));
  }

  lemma PublishAlone(s: Sys, h: nat, b: nat, write: bool, sector: nat) returns (s': Sys)
    requires Alone(s, h, Formatted, b, write, sector, None)
    ensures Step(s, Publish, s') && s'.mem == s.mem && s'.dv.store == s.dv.store
    ensures Alone(s', h, Posted, b, write, sector, None)
  {
    hide Descs, Places, Bufs, Tallies, Rings, Transfers;
    NeverStuck(s, h);
    s' := Next(s, Publish);
    StepKeeps(s, Publish);
    assert s'.bk.chains.Keys == s.bk.chains.Keys;
  }

  lemma FetchAlone(s: Sys, h: nat, b: nat, write: bool, sector: nat) returns (s': Sys)
    requires Alone(s, h, Posted, b, write, sector, None)
    ensures Step(s, Fetch, s') && s'.mem == s.mem && s'.dv.store == s.dv.store
    ensures Alone(s', h, Fetched, b, write, sector, None)
  {
    hide Descs, Places, Bufs, Tallies, Rings, Transfers;
    NeverStuck(s, h);
    NothingElse(s, h, Posted, b, write, sector, None);
    FetchKeeps(s);
    s' := Next(s, Fetch);
    StepKeeps(s, Fetch);
    assert s'.bk.chains.Keys == s.bk.chains.Keys;
  }

  lemma AnswerAlone(s: Sys, h: nat, b: nat, write: bool, sector: nat, status: nat) returns (s': Sys)
    requires Alone(s, h, Fetched, b, write, sector, None) && status < 0x100
    ensures Step(s, Answer(h, status), s') && Alone(s', h, Written, b, write, sector, Some(status))
    ensures status == 0 && write ==> s'.mem == s.mem && s'.dv.store == s.dv.store[sector := At(s.mem, b)]
    ensures status == 0 && !write ==> s'.mem == s.mem[b := At(s.dv.store, sector)] && s'.dv.store == s.dv.store
    ensures status != 0 ==> s'.mem == s.mem && s'.dv.store == s.dv.store
  {
    hide Descs, Places, Bufs, Tallies, Rings, Transfers, Transferred, Reported;
    NeverStuck(s, h);
    NothingElse(s, h, Fetched, b, write, sector, None);
    s' := Next(s, Answer(h, status));
    StepKeeps(s, Answer(h, status));
    StepMoves(s, Answer(h, status));
    assert s'.bk.chains.Keys == s.bk.chains.Keys;
  }

  lemma BumpAlone(s: Sys, h: nat, b: nat, write: bool, sector: nat, status: nat) returns (s': Sys)
    requires Alone(s, h, Written, b, write, sector, Some(status))
    ensures Step(s, Bump, s') && s'.mem == s.mem && s'.dv.store == s.dv.store
    ensures Alone(s', h, Answered, b, write, sector, Some(status))
    ensures Enabled(s', Reap) && (Panics(s', Reap) <==> status != 0)
  {
    hide Descs, Places, Bufs, Tallies, Rings, Transfers, ReapFails;
    NeverStuck(s, h);
    s' := Next(s, Bump);
    StepKeeps(s, Bump);
    assert s'.bk.chains.Keys == s.bk.chains.Keys;
    NeverStuck(s', h);
    NothingElse(s', h, Answered, b, write, sector, Some(status));
    StepKeeps(s', Reap);
  }

  lemma ReturnAlone(s: Sys, h: nat, b: nat, write: bool, sector: nat) returns (s1: Sys, s2: Sys)
    requires Alone(s, h, Answered, b, write, sector, Some(0)) && Enabled(s, Reap) && !Panics(s, Reap)
    ensures Step(s, Reap, s1) && Step(s1, Return(h), s2) && Quiet(s2)
    ensures s2.mem == s.mem && s2.dv.store == s.dv.store
  {
    hide Descs, Places, Bufs, Tallies, Rings, Transfers, ReapFails, ThreeLinked;
    NothingElse(s, h, Answered, b, write, sector, Some(0));
    ReapKeeps(s);
    s1 := Next(s, Reap);
    StepKeeps(s, Reap);
    assert s1.bk.chains.Keys == s.bk.chains.Keys;
    NothingElse(s1, h, Released, b, write, sector, Some(0));
    NeverStuck(s1, h);
    s2 := Next(s1, Return(h));
    StepKeeps(s1, Return(h));
    assert s2.bk.chains.Keys == {};
  }

  /** The events of a request that nothing interrupts. */
  function Request(b: nat, write: bool, blockno: nat, h: nat, status: nat): seq<Event> {
    [Prepare(b, write, blockno), Publish, Fetch, Answer(h, status), Bump]
  }

  lemma RunStep(s: Sys, e: Event, s': Sys, es: seq<Event>, t: Sys)
    requires Step(s, e, s') && Run(s', es, t)
    ensures Run(s, [e] + es, t)
  {
    hide Next, Enabled, Descs, Places, Bufs, Tallies, Rings, Transfers, Panics;
    assert ([e] + es)[1..] == es;
  }

  /** A request up to the interrupt, from any state with nothing in flight; the interrupt panics on an error only. */
  lemma RequestAnswered(s: Sys, b: nat, write: bool, blockno: nat, status: nat) returns (h: nat, t: Sys)
    requires Quiet(s) && blockno < 0x1_0000_0000 && status < 0x100
    ensures Run(s, Request(b, write, blockno, h, status), t) && Inv(t) && Enabled(t, Reap)
    ensures Panics(t, Reap) <==> status != 0
    ensures Alone(t, h, Answered, b, write, SectorOf(blockno), Some(status))
    ensures status == 0 && write ==> t.mem == s.mem && t.dv.store == s.dv.store[SectorOf(blockno) := At(s.mem, b)]
    ensures status == 0 && !write ==> t.mem == s.mem[b := At(s.dv.store, SectorOf(blockno))] && t.dv.store == s.dv.store
  {
    hide Run, Inv, Step, Alone, SectorOf, Panics, Enabled;
    var s1, s2, s3, s4;
    var sector := SectorOf(blockno);
    h, s1 := PrepareAlone(s, b, write, blockno);
    s2 := PublishAlone(s1, h, b, write, sector);
    s3 := FetchAlone(s2, h, b, write, sector);
    s4 := AnswerAlone(s3, h, b, write, sector, status);
    t := BumpAlone(s4, h, b, write, sector, status);
    RequestRun(s, s1, s2, s3, s4, t, b, write, blockno, h, status);
  }

  lemma RequestRun(s: Sys, s1: Sys, s2: Sys, s3: Sys, s4: Sys, t: Sys, b: nat, write: bool, blockno: nat, h: nat,
      status: nat)
    requires Step(s, Prepare(b, write, blockno), s1) && Step(s1, Publish, s2) && Step(s2, Fetch, s3)
    requires Step(s3, Answer(h, status), s4) && Step(s4, Bump, t)
    ensures Inv(s) && Inv(t) && Run(s, Request(b, write, blockno, h, status), t)
  {
    hide Next, Enabled, Descs, Places, Bufs, Tallies, Rings, Transfers, Panics, Run;
    NoneRun(t);
    RunStep(s4, Bump, t, [], t);
    RunStep(s3, Answer(h, status), s4, [Bump] + [], t);
    RunStep(s2, Fetch, s3, [Answer(h, status)] + ([Bump] + []), t);
    RunStep(s1, Publish, s2, [Fetch] + ([Answer(h, status)] + ([Bump] + [])), t);
    RunStep(s, Prepare(b, write, blockno), s1, [Publish] + ([Fetch] + ([Answer(h, status)] + ([Bump] + []))), t);
    assert [Prepare(b, write, blockno)] + ([Publish] + ([Fetch] + ([Answer(h, status)] + ([Bump] + [])))) ==
           Request(b, write, blockno, h, status);
  }

  /** virtio_disk_rw with a device that succeeds: the block is moved, nothing else is, and nothing is left in flight. */
  lemma RequestServed(s: Sys, b: nat, write: bool, blockno: nat) returns (h: nat, t: Sys)
    requires Quiet(s) && blockno < 0x1_0000_0000
    ensures Run(s, Request(b, write, blockno, h, 0) + [Reap, Return(h)], t) && Quiet(t)
    ensures write ==> t.mem == s.mem && t.dv.store == s.dv.store[SectorOf(blockno) := At(s.mem, b)]
    ensures !write ==> t.mem == s.mem[b := At(s.dv.store, SectorOf(blockno))] && t.dv.store == s.dv.store
  {
    hide Run, Step, Alone, SectorOf, Panics, Enabled, Next, Descs, Places, Bufs, Tallies, Rings, Transfers;
    var u, u1;
    h, u := RequestAnswered(s, b, write, blockno, 0);
    u1, t := ReturnAlone(u, h, b, write, SectorOf(blockno));
    ServedRun(s, Request(b, write, blockno, h, 0), u, h, u1, t);
  }

  lemma ServedRun(s: Sys, es: seq<Event>, u: Sys, h: nat, u1: Sys, t: Sys)
    requires Inv(s) && Inv(u) && Run(s, es, u) && Step(u, Reap, u1) && Step(u1, Return(h), t)
    ensures Run(s, es + [Reap, Return(h)], t)
  {
    hide Next, Enabled, Descs, Places, Bufs, Tallies, Rings, Transfers, Panics, Run;
    NoneRun(t);
    RunStep(u1, Return(h), t, [], t);
    RunStep(u, Reap, u1, [Return(h)] + [], t);
    assert [Reap] + ([Return(h)] + []) == [Reap, Return(h)];
    RunsJoin(s, es, u, [Reap, Return(h)], t);
  }

  lemma {:induction false} RunsJoin(s: Sys, es: seq<Event>, t: Sys, fs: seq<Event>, u: Sys)
    requires Inv(s) && Run(s, es, t) && Inv(t) && Run(t, fs, u)
    ensures Run(s, es + fs, u)
    decreases |es|
  {
    hide Next, Enabled, Descs, Places, Bufs, Tallies, Rings, Transfers, Panics;
    if es == [] {
      assert es + fs == fs;
    } else {
      StepKeeps(s, es[0]);
      RunsJoin(Next(s, es[0]), es[1..], t, fs, u);
      assert (es + fs)[1..] == es[1..] + fs;
    }
  }

  /** A block written from one buffer and read into another, or the same, comes back. */
  lemma WriteThenRead(s: Sys, b: nat, c: nat, blockno: nat) returns (g: nat, h: nat, t: Sys, u: Sys)
    requires Quiet(s) && blockno < 0x1_0000_0000
    ensures Run(s, Request(b, true, blockno, g, 0) + [Reap, Return(g)], t) && Quiet(t)
    ensures Run(t, Request(c, false, blockno, h, 0) + [Reap, Return(h)], u) && Quiet(u)
    ensures At(u.mem, c) == At(s.mem, b)
    ensures forall x :: x != c ==> At(u.mem, x) == At(s.mem, x)
    ensures forall k :: k != SectorOf(blockno) ==> At(u.dv.store, k) == At(s.dv.store, k)
  {
    hide Run, Quiet, SectorOf, Request;
    g, t := RequestServed(s, b, true, blockno);
    h, u := RequestServed(t, c, false, blockno);
  }

  /** From any start a request that the device answers with an error status brings the driver to a panic. */
  lemma ErrorReached(s: Sys, b: nat, write: bool, blockno: nat, status: nat) returns (h: nat, t: Sys)
    requires Start(s) && Inv(s) && blockno < 0x1_0000_0000 && 0 < status < 0x100
    ensures Run(s, Request(b, write, blockno, h, status), t) && Inv(t) && Enabled(t, Reap) && Panics(t, Reap)
  {
    hide Run, Inv, Alone, SectorOf, Panics, Enabled, Request;
    h, t := RequestAnswered(s, b, write, blockno, status);
  }
}
