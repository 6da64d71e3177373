/** What every step of the driver and the device keeps. */
module VirtioTheorems {
  import opened Wrappers
  import opened Sequences
  import opened Powers
  import opened VirtioModel

  // ----------------------------------------------------------------------- descriptors

  ghost predicate ChainOk(desc: seq<Desc>, owner: map<nat, nat>, h: nat, c: Chain)
    requires |desc| == NUM
  {
    && c.i0 == h && h < NUM && c.i1 < NUM && c.i2 < NUM && h != c.i1 && h != c.i2 && c.i1 != c.i2
    && desc[h] == Desc(Header(h), 16, true, false, c.i1)
    && desc[c.i1] == Desc(Data(c.buf), 1024, true, !c.write, c.i2)
    && desc[c.i2] == Desc(Status(h), 1, false, true, 0)
    && Owns(owner, h, h) && Owns(owner, c.i1, h) && Owns(owner, c.i2, h)
  }

  ghost predicate Owns(owner: map<nat, nat>, i: nat, h: nat) {
    i in owner && owner[i] == h
  }

  ghost predicate InChain(chains: map<nat, Chain>, i: nat, h: nat) {
    i < NUM && h in chains && (i == h || i == chains[h].i1 || i == chains[h].i2)
  }

  /**
   Each chain has three descriptors of its own, linked in order: the header and the data of a write for the device to
   read, the data of a read and the status for it to write.  The others are free.
   */
  ghost predicate Descs(free: seq<bool>, desc: seq<Desc>, chains: map<nat, Chain>, owner: map<nat, nat>) {
    && |free| == |desc| == NUM
    && (forall h :: h in chains ==> ChainOk(desc, owner, h, chains[h]))
    && (forall i :: i in owner ==> InChain(chains, i, owner[i]))
    && (forall i :: 0 <= i < NUM ==> (free[i] <==> i !in owner))
  }

  ghost function Members(c: Chain): set<nat> {
    {c.i0, c.i1, c.i2}
  }

  lemma ThreeMembers(desc: seq<Desc>, owner: map<nat, nat>, h: nat, c: Chain)
    requires |desc| == NUM && ChainOk(desc, owner, h, c)
    ensures |Members(c)| == 3 && Members(c) <= Indices(NUM) && forall i :: i in Members(c) ==> Owns(owner, i, h)
  {
    hide Indices;
  }

  lemma ChainsDisjoint(free: seq<bool>, desc: seq<Desc>, chains: map<nat, Chain>, owner: map<nat, nat>, g: nat, h: nat)
    requires Descs(free, desc, chains, owner) && g in chains && h in chains && g != h
    ensures Members(chains[g]) !! Members(chains[h]) && |Members(chains[g])| == 3 && Members(chains[g]) <= Indices(NUM)
  {
    hide Indices, Members, ChainOk;
    ThreeMembers(desc, owner, g, chains[g]);
    ThreeMembers(desc, owner, h, chains[h]);
  }

  /** Eight descriptors hold at most two chains of three. */
  lemma NotThree(free: seq<bool>, desc: seq<Desc>, chains: map<nat, Chain>, owner: map<nat, nat>, f: nat, g: nat,
      h: nat)
    requires Descs(free, desc, chains, owner) && f in chains && g in chains && h in chains
    ensures f == g || f == h || g == h
  {
    hide Descs, Members, Indices;
    if f != g && f != h && g != h {
      ChainsDisjoint(free, desc, chains, owner, f, g);
      ChainsDisjoint(free, desc, chains, owner, g, h);
      ChainsDisjoint(free, desc, chains, owner, h, f);
      NinePigeons(Members(chains[f]), Members(chains[g]), Members(chains[h]));
    }
  }

  lemma NinePigeons(a: set<nat>, b: set<nat>, c: set<nat>)
    requires |a| == |b| == |c| == 3 && a !! b && a !! c && b !! c
    ensures !(a <= Indices(NUM) && b <= Indices(NUM) && c <= Indices(NUM))
  {
    hide Indices;
    assert |a + b| == 6 && |a + b + c| == 9;
    if a <= Indices(NUM) && b <= Indices(NUM) && c <= Indices(NUM) {
      SmallerSet(a + b + c, Indices(NUM));
    }
  }

  // ----------------------------------------------------------------------- rings and indices

  /** The ring holds the queue from position start on, then the entry being added. */
  ghost predicate RingOk(ring: seq<nat>, q: seq<nat>, start: nat, adding: Option<nat>) {
    && |ring| == NUM && |q| <= 2
    && (forall j :: 0 <= j < |q| ==> ring[(start + j) % NUM] == q[j])
    && (adding.Some? ==> ring[(start + |q|) % NUM] == adding.value)
  }

  /** A 16-bit index stands for an unbounded count. */
  predicate Counts(idx: nat, n: nat) {
    idx == n % WRAP
  }

  lemma CountsNext(idx: nat, n: nat)
    requires Counts(idx, n)
    ensures Counts((idx + 1) % WRAP, n + 1) && idx % NUM == n % NUM
  {
    var q, a := n / WRAP, idx / NUM;
    assert n == (8192 * q + a) * NUM + idx % NUM;
    DivModUnique(n, NUM, 8192 * q + a, idx % NUM);
    if idx + 1 < WRAP {
      DivModUnique(n + 1, WRAP, q, idx + 1);
    } else {
      DivModUnique(n + 1, WRAP, q + 1, 0);
    }
  }

  /** Sixteen bits are enough to tell two indices at most two apart. */
  lemma CountsDiffer(x: nat, m: nat, y: nat, n: nat)
    requires Counts(x, m) && Counts(y, n) && m <= n <= m + 2
    ensures x == y <==> m == n
  {
  }

  // ----------------------------------------------------------------------- where a chain is

  ghost predicate PlaceOk(p: Phase, h: nat, pending: Option<nat>, availQ: seq<nat>, busy: set<nat>,
      answering: Option<nat>, usedQ: seq<nat>)
  {
    && (p.Formatted? <==> pending == Some(h)) && (p.Posted? <==> h in availQ) && (p.Fetched? <==> h in busy)
    && (p.Written? <==> answering == Some(h)) && (p.Answered? <==> h in usedQ)
  }

  /** Each chain is in exactly one place on its way from the driver through the device and back, once. */
  ghost predicate Places(chains: map<nat, Chain>, pending: Option<nat>, availQ: seq<nat>, busy: set<nat>,
      answering: Option<nat>, usedQ: seq<nat>)
  {
    && NoDup(availQ) && NoDup(usedQ)
    && (forall h :: h in chains ==> PlaceOk(chains[h].phase, h, pending, availQ, busy, answering, usedQ))
    && (pending.Some? ==> pending.value in chains) && (answering.Some? ==> answering.value in chains)
    && (forall h :: h in availQ ==> h in chains) && (forall h :: h in busy ==> h in chains) &&
      (forall h :: h in usedQ ==> h in chains)
  }

  ghost predicate InDevice(p: Phase) {
    p.Formatted? || p.Posted? || p.Fetched?
  }

  ghost predicate BufOk(info: seq<Option<nat>>, status: seq<nat>, onDisk: set<nat>, holder: map<nat, nat>, h: nat,
      c: Chain)
    requires |info| == |status| == NUM
  {
    && h < NUM && info[h] == Some(c.buf) && c.buf in holder && holder[c.buf] == h
    && (c.buf in onDisk <==> !c.phase.Released?)
    && (if InDevice(c.phase) then status[h] == UNFINISHED && c.answer.None? else c.answer == Some(status[h]))
  }

  /**
   Each chain has a buffer of its own, with disk set until it is released, and its status is what the device wrote for
   it.
   */
  ghost predicate Bufs(info: seq<Option<nat>>, status: seq<nat>, onDisk: set<nat>, chains: map<nat, Chain>,
      holder: map<nat, nat>)
  {
    && |info| == |status| == NUM
    && (forall h :: h in chains ==> BufOk(info, status, onDisk, holder, h, chains[h]))
    && (forall b :: b in holder ==> holder[b] in chains && chains[holder[b]].buf == b)
    && (forall b :: b in onDisk ==> b in holder)
  }

  /**
   The header says what was asked for; from the start for a write, and once the device has done it for a read, the
   buffer holds the contents that go to the disk or came from it; only a request that succeeded is released.
   */
  ghost predicate TransferOk(ops: seq<Req>, mem: map<nat, Content>, h: nat, c: Chain) {
    && h < |ops| && ops[h] == Req(if c.write then Out else In, c.sector)
    && (c.write || c.answer == Some(0) ==> At(mem, c.buf) == c.value)
    && (c.phase.Released? ==> c.answer == Some(0))
  }

  /** The disk is the plain disk, and every request's header and buffer are as they should be. */
  ghost predicate Transfers(ops: seq<Req>, mem: map<nat, Content>, store: map<nat, Content>, plain: map<nat, Content>,
      chains: map<nat, Chain>)
  {
    store == plain && forall h :: h in chains ==> TransferOk(ops, mem, h, chains[h])
  }

  function One(p: bool): nat {
    if p then 1 else 0
  }

  /** How often a buffer was submitted, completed by the device, released by the interrupt, and returned. */
  ghost predicate TallyOk(bk: Book, b: nat) {
    var held := b in bk.holder && bk.holder[b] in bk.chains;
    && bk.submitted[b] == bk.returned[b] + One(held)
    && bk.completed[b] == bk.returned[b] + One(held && !InDevice(bk.chains[bk.holder[b]].phase))
    && bk.released[b] == bk.returned[b] + One(held && bk.chains[bk.holder[b]].phase.Released?)
  }

  ghost predicate Tallies(bk: Book) {
    forall b: nat :: TallyOk(bk, b)
  }

  ghost predicate Rings(s: Sys) {
    && RingOk(s.dr.ring, s.bk.availQ, s.bk.fetched, s.dr.pending)
    && Counts(s.dr.idx, s.bk.fetched + |s.bk.availQ|) && Counts(s.dv.seen, s.bk.fetched)
    && RingOk(s.dv.ring, s.bk.usedQ, s.bk.reaped, s.dv.answering)
    && Counts(s.dv.idx, s.bk.reaped + |s.bk.usedQ|) && Counts(s.dr.usedIdx, s.bk.reaped)
  }

  ghost predicate Inv(s: Sys) {
    && Shape(s)
    && Descs(s.dr.free, s.dr.desc, s.bk.chains, s.bk.owner)
    && Places(s.bk.chains, s.dr.pending, s.bk.availQ, s.dv.busy, s.dv.answering, s.bk.usedQ)
    && Bufs(s.dr.info, s.dr.status, s.dr.onDisk, s.bk.chains, s.bk.holder)
    && Tallies(s.bk) && Rings(s)
    && Transfers(s.dr.ops, s.mem, s.dv.store, s.bk.plain, s.bk.chains)
  }

  /** No queue is longer than two. */
  lemma QueueShort(free: seq<bool>, desc: seq<Desc>, chains: map<nat, Chain>, owner: map<nat, nat>, q: seq<nat>)
    requires Descs(free, desc, chains, owner) && NoDup(q) && forall h :: h in q ==> h in chains
    ensures |q| <= 2
  {
    hide Descs;
    if |q| > 2 {
      NotThree(free, desc, chains, owner, q[0], q[1], q[2]);
    }
  }

  // ----------------------------------------------------------------------- changing a phase

  function Rephased(chains: map<nat, Chain>, h: nat, p: Phase): map<nat, Chain>
    requires h in chains
  {
    chains[h := chains[h].(phase := p)]
  }

  lemma DescsRephased(free: seq<bool>, desc: seq<Desc>, chains: map<nat, Chain>, owner: map<nat, nat>, h: nat, c: Chain)
    requires Descs(free, desc, chains, owner) && h in chains
    requires c.i0 == chains[h].i0 && c.i1 == chains[h].i1 && c.i2 == chains[h].i2
    requires c.buf == chains[h].buf && c.write == chains[h].write
    ensures Descs(free, desc, chains[h := c], owner)
  {
    var chains' := chains[h := c];
    forall g | g in chains'
      ensures ChainOk(desc, owner, g, chains'[g])
    {
      assert ChainOk(desc, owner, g, chains[g]);
    }
    forall i | i in owner
      ensures InChain(chains', i, owner[i])
    {
      assert InChain(chains, i, owner[i]);
    }
  }

  lemma BufsRephased(info: seq<Option<nat>>, status: seq<nat>, onDisk: set<nat>, chains: map<nat, Chain>,
      holder: map<nat, nat>, h: nat, p: Phase)
    requires Bufs(info, status, onDisk, chains, holder) && h in chains
    requires p.Released? <==> chains[h].phase.Released?
    requires InDevice(p) <==> InDevice(chains[h].phase)
    ensures Bufs(info, status, onDisk, Rephased(chains, h, p), holder)
  {
  }

  lemma TransfersRephased(ops: seq<Req>, mem: map<nat, Content>, store: map<nat, Content>, plain: map<nat, Content>,
      chains: map<nat, Chain>, h: nat, p: Phase)
    requires Transfers(ops, mem, store, plain, chains) && h in chains
    requires p.Released? ==> chains[h].answer == Some(0)
    ensures Transfers(ops, mem, store, plain, Rephased(chains, h, p))
  {
  }

  lemma TalliesRephased(bk: Book, bk': Book, h: nat, p: Phase)
    requires Tallies(bk) && h in bk.chains && bk'.chains == Rephased(bk.chains, h, p) && bk'.holder == bk.holder
    requires p.Released? <==> bk.chains[h].phase.Released?
    requires InDevice(p) <==> InDevice(bk.chains[h].phase)
    requires bk'.submitted == bk.submitted && bk'.completed == bk.completed && bk'.released == bk.released &&
      bk'.returned == bk.returned
    ensures Tallies(bk')
  {
    forall b: nat
      ensures TallyOk(bk', b)
    {
      assert TallyOk(bk, b);
    }
  }

  // ----------------------------------------------------------------------- the steps

  lemma PublishPlaces(chains: map<nat, Chain>, h: nat, availQ: seq<nat>, busy: set<nat>, answering: Option<nat>,
      usedQ: seq<nat>)
    requires Places(chains, Some(h), availQ, busy, answering, usedQ)
    ensures h in chains && chains[h].phase.Formatted?
    ensures Places(Rephased(chains, h, Posted), None, availQ + [h], busy, answering, usedQ)
  {
  }

  lemma PublishKeeps(s: Sys)
    requires Inv(s) && Enabled(s, Publish)
    ensures Inv(Published(s))
  {
    hide Descs, Places, Bufs, Tallies, Counts, Transfers;
    var h := s.dr.pending.value;
    var s' := Published(s);
    PublishPlaces(s.bk.chains, h, s.bk.availQ, s.dv.busy, s.dv.answering, s.bk.usedQ);
    DescsRephased(s.dr.free, s.dr.desc, s.bk.chains, s.bk.owner, h, s.bk.chains[h].(phase := Posted));
    BufsRephased(s.dr.info, s.dr.status, s.dr.onDisk, s.bk.chains, s.bk.holder, h, Posted);
    TalliesRephased(s.bk, s'.bk, h, Posted);
    TransfersRephased(s.dr.ops, s.mem, s.dv.store, s.bk.plain, s.bk.chains, h, Posted);
    QueueOf(s'.bk.chains, s'.dr.pending, s'.bk.availQ, s.dv.busy, s.dv.answering, s.bk.usedQ);
    QueueShort(s'.dr.free, s'.dr.desc, s'.bk.chains, s'.bk.owner, s'.bk.availQ);
    CountsNext(s.dr.idx, s.bk.fetched + |s.bk.availQ|);
  }

  lemma QueueOf(chains: map<nat, Chain>, pending: Option<nat>, availQ: seq<nat>, busy: set<nat>, answering: Option<nat>,
      usedQ: seq<nat>)
    requires Places(chains, pending, availQ, busy, answering, usedQ)
    ensures NoDup(availQ) && (forall h :: h in availQ ==> h in chains) && NoDup(usedQ) &&
      (forall h :: h in usedQ ==> h in chains)
  {
  }

  /** The oldest entry leaves a ring. */
  lemma RingPop(ring: seq<nat>, q: seq<nat>, start: nat, adding: Option<nat>)
    requires RingOk(ring, q, start, adding) && q != []
    ensures ring[start % NUM] == q[0] && RingOk(ring, q[1..], start + 1, adding)
  {
  }

  /** A new entry goes in behind the queue and overwrites none of it. */
  lemma RingAdd(ring: seq<nat>, q: seq<nat>, start: nat, h: nat)
    requires RingOk(ring, q, start, None)
    ensures RingOk(ring[(start + |q|) % NUM := h], q, start, Some(h))
  {
    forall j | 0 <= j < |q|
      ensures ring[(start + |q|) % NUM := h][(start + j) % NUM] == q[j]
    {
      PlacesDiffer(start + j, |q| - j);
    }
  }

  lemma PlacesDiffer(x: nat, d: nat)
    requires 0 < d < NUM
    ensures x % NUM != (x + d) % NUM
  {
    var r := x % NUM + d;
    DivModUnique(x + d, NUM, x / NUM + r / NUM, r % NUM);
  }

  lemma FetchPlaces(chains: map<nat, Chain>, pending: Option<nat>, availQ: seq<nat>, busy: set<nat>,
      answering: Option<nat>, usedQ: seq<nat>)
    requires Places(chains, pending, availQ, busy, answering, usedQ) && availQ != []
    ensures availQ[0] in chains && chains[availQ[0]].phase.Posted?
    ensures Places(Rephased(chains, availQ[0], Fetched), pending, availQ[1..], busy + {availQ[0]}, answering, usedQ)
  {
  }

  lemma FetchKeeps(s: Sys)
    requires Inv(s) && Enabled(s, Fetch)
    ensures Inv(Taken(s))
    ensures s.bk.availQ != [] && s.dr.ring[s.dv.seen % NUM] == s.bk.availQ[0]
  {
    hide Descs, Places, Bufs, Tallies, Counts, Transfers;
    CountsDiffer(s.dv.seen, s.bk.fetched, s.dr.idx, s.bk.fetched + |s.bk.availQ|);
    CountsNext(s.dv.seen, s.bk.fetched);
    RingPop(s.dr.ring, s.bk.availQ, s.bk.fetched, s.dr.pending);
    var h := s.bk.availQ[0];
    FetchPlaces(s.bk.chains, s.dr.pending, s.bk.availQ, s.dv.busy, s.dv.answering, s.bk.usedQ);
    DescsRephased(s.dr.free, s.dr.desc, s.bk.chains, s.bk.owner, h, s.bk.chains[h].(phase := Fetched));
    BufsRephased(s.dr.info, s.dr.status, s.dr.onDisk, s.bk.chains, s.bk.holder, h, Fetched);
    TalliesRephased(s.bk, Taken(s).bk, h, Fetched);
    TransfersRephased(s.dr.ops, s.mem, s.dv.store, s.bk.plain, s.bk.chains, h, Fetched);
    assert s.bk.fetched + 1 + |s.bk.availQ[1..]| == s.bk.fetched + |s.bk.availQ|;
  }

  lemma BumpPlaces(chains: map<nat, Chain>, pending: Option<nat>, availQ: seq<nat>, busy: set<nat>, h: nat,
      usedQ: seq<nat>)
    requires Places(chains, pending, availQ, busy, Some(h), usedQ)
    ensures h in chains && chains[h].phase.Written?
    ensures Places(Rephased(chains, h, Answered), pending, availQ, busy, None, usedQ + [h])
  {
  }

  lemma BumpKeeps(s: Sys)
    requires Inv(s) && Enabled(s, Bump)
    ensures Inv(Bumped(s))
  {
    hide Descs, Places, Bufs, Tallies, Counts, Transfers;
    var h := s.dv.answering.value;
    var s' := Bumped(s);
    BumpPlaces(s.bk.chains, s.dr.pending, s.bk.availQ, s.dv.busy, h, s.bk.usedQ);
    DescsRephased(s.dr.free, s.dr.desc, s.bk.chains, s.bk.owner, h, s.bk.chains[h].(phase := Answered));
    BufsRephased(s.dr.info, s.dr.status, s.dr.onDisk, s.bk.chains, s.bk.holder, h, Answered);
    TalliesRephased(s.bk, s'.bk, h, Answered);
    TransfersRephased(s.dr.ops, s.mem, s.dv.store, s.bk.plain, s.bk.chains, h, Answered);
    QueueOf(s'.bk.chains, s'.dr.pending, s'.bk.availQ, s'.dv.busy, s'.dv.answering, s'.bk.usedQ);
    QueueShort(s'.dr.free, s'.dr.desc, s'.bk.chains, s'.bk.owner, s'.bk.usedQ);
    CountsNext(s.dv.idx, s.bk.reaped + |s.bk.usedQ|);
  }

  lemma AnswerPlaces(chains: map<nat, Chain>, pending: Option<nat>, availQ: seq<nat>, busy: set<nat>, h: nat,
      usedQ: seq<nat>, status: nat, plain: map<nat, Content>)
    requires Places(chains, pending, availQ, busy, None, usedQ) && h in busy
    ensures h in chains && chains[h].phase.Fetched?
    ensures Places(chains[h := Finished(chains[h], status, plain)], pending, availQ, busy - {h}, Some(h), usedQ)
  {
  }

  lemma AnswerBufs(info: seq<Option<nat>>, status: seq<nat>, onDisk: set<nat>, chains: map<nat, Chain>,
      holder: map<nat, nat>, h: nat, v: nat, plain: map<nat, Content>)
    requires Bufs(info, status, onDisk, chains, holder) && h in chains && chains[h].phase.Fetched? && h < NUM
    ensures Bufs(info, status[h := v], onDisk, chains[h := Finished(chains[h], v, plain)], holder)
  {
  }

  lemma AnswerTallies(bk: Book, bk': Book, h: nat, status: nat)
    requires Tallies(bk) && h in bk.chains && bk.chains[h].phase.Fetched? && bk.chains[h].buf in bk.holder &&
      bk.holder[bk.chains[h].buf] == h
    requires forall b :: b in bk.holder ==> bk.holder[b] in bk.chains && bk.chains[bk.holder[b]].buf == b
    requires bk'.chains == bk.chains[h := Finished(bk.chains[h], status, bk.plain)] && bk'.holder == bk.holder
    requires bk'.completed == bk.completed + multiset{bk.chains[h].buf} && bk'.submitted == bk.submitted &&
      bk'.released == bk.released && bk'.returned == bk.returned
    ensures Tallies(bk')
  {
    forall b: nat
      ensures TallyOk(bk', b)
    {
      assert TallyOk(bk, b);
    }
  }

  lemma HolderOf(info: seq<Option<nat>>, status: seq<nat>, onDisk: set<nat>, chains: map<nat, Chain>,
      holder: map<nat, nat>, h: nat)
    requires Bufs(info, status, onDisk, chains, holder) && h in chains
    ensures |info| == |status| == NUM && BufOk(info, status, onDisk, holder, h, chains[h])
    ensures forall b :: b in holder ==> holder[b] in chains && chains[holder[b]].buf == b
  {
  }

  /** The device finds the header, the buffer and the status byte of the request through its descriptors. */
  lemma AnswerFollows(s: Sys, h: nat, status: nat)
    requires Shape(s) && Descs(s.dr.free, s.dr.desc, s.bk.chains, s.bk.owner) && h in s.bk.chains
    requires h < NUM && TransferOk(s.dr.ops, s.mem, h, s.bk.chains[h])
    ensures Reported(s.dr.desc, s.dr.status, h, status) == s.dr.status[h := status]
    ensures Transferred(s.dr, s.mem, s.dv.store, h) ==
      var c := s.bk.chains[h];
      if c.write then (s.mem, s.dv.store[c.sector := At(s.mem, c.buf)])
      else (s.mem[c.buf := At(s.dv.store, c.sector)], s.dv.store)
  {
    var c := s.bk.chains[h];
    assert ChainOk(s.dr.desc, s.bk.owner, h, c);
    WholeBlock(At(s.mem, c.buf), At(s.dv.store, c.sector));
    WholeBlock(At(s.dv.store, c.sector), At(s.mem, c.buf));
  }

  lemma WholeBlock(dst: Content, src: Content)
    ensures Copied(dst, src, 1024) == src
  {
  }

  /** Completing a request as the descriptors say is completing it on the plain disk; no other buffer changes. */
  lemma AnswerTransfers(s: Sys, h: nat, status: nat)
    requires Shape(s) && Descs(s.dr.free, s.dr.desc, s.bk.chains, s.bk.owner) && h in s.bk.chains && h < NUM
    requires Bufs(s.dr.info, s.dr.status, s.dr.onDisk, s.bk.chains, s.bk.holder)
    requires Transfers(s.dr.ops, s.mem, s.dv.store, s.bk.plain, s.bk.chains) && s.bk.chains[h].phase.Fetched?
    ensures var s' := Replied(s, h, status);
            && s'.dr == s.dr.(status := s.dr.status[h := status])
            && Transfers(s'.dr.ops, s'.mem, s'.dv.store, s'.bk.plain, s'.bk.chains)
  {
    hide Descs, Transferred, Reported;
    AnswerFollows(s, h, status);
    var s', c := Replied(s, h, status), s.bk.chains[h];
    forall g | g in s'.bk.chains
      ensures TransferOk(s'.dr.ops, s'.mem, g, s'.bk.chains[g])
    {
      assert TransferOk(s.dr.ops, s.mem, g, s.bk.chains[g]);
      if g != h {
        assert BufOk(s.dr.info, s.dr.status, s.dr.onDisk, s.bk.holder, g, s.bk.chains[g]);
        assert BufOk(s.dr.info, s.dr.status, s.dr.onDisk, s.bk.holder, h, c);
      }
    }
  }

  lemma AnswerKeeps(s: Sys, h: nat, status: nat)
    requires Inv(s) && Enabled(s, Answer(h, status))
    ensures Inv(Replied(s, h, status))
  {
    hide Descs, Places, Bufs, Tallies, Counts, Transfers, Transferred, Reported;
    var s' := Replied(s, h, status);
    AnswerPlaces(s.bk.chains, s.dr.pending, s.bk.availQ, s.dv.busy, h, s.bk.usedQ, status, s.bk.plain);
    AnswerTransfers(s, h, status);
    HolderOf(s.dr.info, s.dr.status, s.dr.onDisk, s.bk.chains, s.bk.holder, h);
    DescsRephased(s.dr.free, s.dr.desc, s.bk.chains, s.bk.owner, h,
      Finished(s.bk.chains[h], status, s.bk.plain));
    AnswerBufs(s.dr.info, s.dr.status, s.dr.onDisk, s.bk.chains, s.bk.holder, h, status, s.bk.plain);
    AnswerTallies(s.bk, s'.bk, h, status);
    CountsNext(s.dv.idx, s.bk.reaped + |s.bk.usedQ|);
    RingAdd(s.dv.ring, s.bk.usedQ, s.bk.reaped, h);
  }

  lemma ReapPlaces(chains: map<nat, Chain>, pending: Option<nat>, availQ: seq<nat>, busy: set<nat>,
      answering: Option<nat>, usedQ: seq<nat>)
    requires Places(chains, pending, availQ, busy, answering, usedQ) && usedQ != []
    ensures usedQ[0] in chains && chains[usedQ[0]].phase.Answered?
    ensures Places(Rephased(chains, usedQ[0], Released), pending, availQ, busy, answering, usedQ[1..])
  {
  }

  lemma ReapBufs(info: seq<Option<nat>>, status: seq<nat>, onDisk: set<nat>, chains: map<nat, Chain>,
      holder: map<nat, nat>, h: nat)
    requires Bufs(info, status, onDisk, chains, holder) && h in chains && chains[h].phase.Answered?
    ensures Bufs(info, status, onDisk - {chains[h].buf}, Rephased(chains, h, Released), holder)
  {
  }

  lemma ReapTallies(bk: Book, bk': Book, h: nat)
    requires Tallies(bk) && h in bk.chains && bk.chains[h].phase.Answered? && bk.chains[h].buf in bk.holder &&
      bk.holder[bk.chains[h].buf] == h
    requires forall b :: b in bk.holder ==> bk.holder[b] in bk.chains && bk.chains[bk.holder[b]].buf == b
    requires bk'.chains == Rephased(bk.chains, h, Released) && bk'.holder == bk.holder &&
      bk'.released == bk.released + multiset{bk.chains[h].buf}
    requires bk'.submitted == bk.submitted && bk'.completed == bk.completed && bk'.returned == bk.returned
    ensures Tallies(bk')
  {
    forall b: nat
      ensures TallyOk(bk', b)
    {
      assert TallyOk(bk, b);
    }
  }

  /** The oldest answer the driver has not read reports an error of the device. */
  ghost predicate DeviceError(s: Sys) {
    && s.bk.usedQ != [] && s.bk.usedQ[0] in s.bk.chains
    && s.bk.chains[s.bk.usedQ[0]].answer.Some? && s.bk.chains[s.bk.usedQ[0]].answer.value != 0
  }

  /**
   The interrupt finds the oldest answered request, with its own buffer and the status the device wrote for it:
   it panics exactly when that status is not 0, and never for a stale one, another chain's or a missing buffer.
   */
  lemma ReapKeeps(s: Sys)
    requires Inv(s) && Enabled(s, Reap)
    ensures ReapFails(s) <==> DeviceError(s)
    ensures !ReapFails(s) ==> Inv(Reaped(s))
    ensures s.bk.usedQ != [] && s.dv.ring[s.dr.usedIdx % NUM] == s.bk.usedQ[0]
  {
    hide Descs, Places, Bufs, Tallies, Counts, Transfers;
    CountsDiffer(s.dr.usedIdx, s.bk.reaped, s.dv.idx, s.bk.reaped + |s.bk.usedQ|);
    CountsNext(s.dr.usedIdx, s.bk.reaped);
    RingPop(s.dv.ring, s.bk.usedQ, s.bk.reaped, s.dv.answering);
    var h := s.bk.usedQ[0];
    ReapPlaces(s.bk.chains, s.dr.pending, s.bk.availQ, s.dv.busy, s.dv.answering, s.bk.usedQ);
    HolderOf(s.dr.info, s.dr.status, s.dr.onDisk, s.bk.chains, s.bk.holder, h);
    DescsRephased(s.dr.free, s.dr.desc, s.bk.chains, s.bk.owner, h, s.bk.chains[h].(phase := Released));
    ReapBufs(s.dr.info, s.dr.status, s.dr.onDisk, s.bk.chains, s.bk.holder, h);
    if !ReapFails(s) {
      ReapTallies(s.bk, Reaped(s).bk, h);
      TransfersRephased(s.dr.ops, s.mem, s.dv.store, s.bk.plain, s.bk.chains, h, Released);
    }
    assert s.bk.reaped + 1 + |s.bk.usedQ[1..]| == s.bk.reaped + |s.bk.usedQ|;
  }

  lemma PreparePlaces(chains: map<nat, Chain>, c: Chain, h: nat, availQ: seq<nat>, busy: set<nat>,
      answering: Option<nat>, usedQ: seq<nat>)
    requires Places(chains, None, availQ, busy, answering, usedQ) && h !in chains && c.phase.Formatted?
    ensures Places(chains[h := c], Some(h), availQ, busy, answering, usedQ)
  {
  }

  lemma HeadsOwned(free: seq<bool>, desc: seq<Desc>, chains: map<nat, Chain>, owner: map<nat, nat>)
    requires Descs(free, desc, chains, owner)
    ensures forall h :: h in chains ==> h in owner
  {
  }

  lemma OtherChain(free: seq<bool>, desc: seq<Desc>, chains: map<nat, Chain>, owner: map<nat, nat>, i0: nat, i1: nat,
      i2: nat, c: Chain, h: nat)
    requires Descs(free, desc, chains, owner) && i0 < i1 < i2 < NUM && free[i0] && free[i1] && free[i2] && h in chains
    ensures ChainOk(Format(desc, i0, i1, i2, c.buf, c.write), owner[i0 := i0][i1 := i0][i2 := i0], h, chains[h])
  {
    assert ChainOk(desc, owner, h, chains[h]);
  }

  /** The three new descriptors were free, so they are in no chain. */
  lemma PrepareDescs(free: seq<bool>, desc: seq<Desc>, chains: map<nat, Chain>, owner: map<nat, nat>, i0: nat, i1: nat,
      i2: nat, c: Chain)
    requires Descs(free, desc, chains, owner) && i0 < i1 < i2 < NUM && free[i0] && free[i1] && free[i2]
    requires c.i0 == i0 && c.i1 == i1 && c.i2 == i2
    ensures i0 !in chains
    ensures Descs(FreeThree(free, i0, i1, i2, false), Format(desc, i0, i1, i2, c.buf, c.write), chains[i0 := c],
      owner[i0 := i0][i1 := i0][i2 := i0])
  {
    var desc' := Format(desc, i0, i1, i2, c.buf, c.write);
    var chains' := chains[i0 := c];
    var owner' := owner[i0 := i0][i1 := i0][i2 := i0];
    HeadsOwned(free, desc, chains, owner);
    forall h | h in chains'
      ensures ChainOk(desc', owner', h, chains'[h])
    {
      if h != i0 {
        OtherChain(free, desc, chains, owner, i0, i1, i2, c, h);
      }
    }
    forall i | i in owner'
      ensures InChain(chains', i, owner'[i])
    {
      if i in owner && owner[i] != i0 {
        assert InChain(chains, i, owner[i]);
      }
    }
  }

  lemma PrepareBufs(info: seq<Option<nat>>, status: seq<nat>, onDisk: set<nat>, chains: map<nat, Chain>,
      holder: map<nat, nat>, c: Chain, h: nat)
    requires Bufs(info, status, onDisk, chains, holder) && h !in chains && h < NUM && c.buf !in holder &&
      c.phase.Formatted? && c.answer.None?
    ensures Bufs(info[h := Some(c.buf)], status[h := UNFINISHED], onDisk + {c.buf}, chains[h := c], holder[c.buf := h])
  {
  }

  lemma PrepareTallies(bk: Book, bk': Book, c: Chain, h: nat)
    requires Tallies(bk) && h !in bk.chains && c.buf !in bk.holder && c.phase.Formatted?
    requires forall b :: b in bk.holder ==> bk.holder[b] in bk.chains && bk.chains[bk.holder[b]].buf == b
    requires bk'.chains == bk.chains[h := c] && bk'.holder == bk.holder[c.buf := h] &&
      bk'.submitted == bk.submitted + multiset{c.buf}
    requires bk'.completed == bk.completed && bk'.released == bk.released && bk'.returned == bk.returned
    ensures Tallies(bk')
  {
    forall b: nat
      ensures TallyOk(bk', b)
    {
      assert TallyOk(bk, b);
    }
  }

  lemma HoldersOk(info: seq<Option<nat>>, status: seq<nat>, onDisk: set<nat>, chains: map<nat, Chain>,
      holder: map<nat, nat>)
    requires Bufs(info, status, onDisk, chains, holder)
    ensures forall b :: b in holder ==> holder[b] in chains && chains[holder[b]].buf == b
  {
  }

  lemma PrepareTransfers(ops: seq<Req>, mem: map<nat, Content>, store: map<nat, Content>, plain: map<nat, Content>,
      chains: map<nat, Chain>, h: nat, c: Chain)
    requires Transfers(ops, mem, store, plain, chains) && h !in chains && h < |ops| && c.value == At(mem, c.buf)
    requires c.phase.Formatted?
    ensures Transfers(ops[h := Req(if c.write then Out else In, c.sector)], mem, store, plain, chains[h := c])
  {
  }

  lemma PrepareKeeps(s: Sys, b: nat, write: bool, blockno: nat)
    requires Inv(s) && Enabled(s, Prepare(b, write, blockno))
    ensures Inv(Prepared(s, b, write, blockno))
  {
    hide Descs, Places, Bufs, Tallies, Counts, Transfers, Three, Format, FreeThree, SectorOf;
    var (i0, i1, i2) := Three(s.dr.free).value;
    var c := Chain(i0, i1, i2, b, Formatted, None, write, SectorOf(blockno), At(s.mem, b));
    PrepareDescs(s.dr.free, s.dr.desc, s.bk.chains, s.bk.owner, i0, i1, i2, c);
    PrepareTransfers(s.dr.ops, s.mem, s.dv.store, s.bk.plain, s.bk.chains, i0, c);
    PreparePlaces(s.bk.chains, c, i0, s.bk.availQ, s.dv.busy, s.dv.answering, s.bk.usedQ);
    PrepareBufs(s.dr.info, s.dr.status, s.dr.onDisk, s.bk.chains, s.bk.holder, c, i0);
    HoldersOk(s.dr.info, s.dr.status, s.dr.onDisk, s.bk.chains, s.bk.holder);
    PrepareTallies(s.bk, Prepared(s, b, write, blockno).bk, c, i0);
    CountsNext(s.dr.idx, s.bk.fetched + |s.bk.availQ|);
    RingAdd(s.dr.ring, s.bk.availQ, s.bk.fetched, i0);
    PreparedShape(s, b, write, blockno);
  }

  lemma PreparedShape(s: Sys, b: nat, write: bool, blockno: nat)
    requires Shape(s) && Enabled(s, Prepare(b, write, blockno))
    ensures Shape(Prepared(s, b, write, blockno))
  {
  }

  lemma ReturnPlaces(chains: map<nat, Chain>, h: nat, pending: Option<nat>, availQ: seq<nat>, busy: set<nat>,
      answering: Option<nat>, usedQ: seq<nat>)
    requires Places(chains, pending, availQ, busy, answering, usedQ) && h in chains && chains[h].phase.Released?
    ensures Places(chains - {h}, pending, availQ, busy, answering, usedQ)
  {
  }

  lemma ReturnLinked(free: seq<bool>, desc: seq<Desc>, chains: map<nat, Chain>, owner: map<nat, nat>, h: nat)
    requires Descs(free, desc, chains, owner) && h in chains
    ensures ThreeLinked(free, desc, h) && desc[h].next == chains[h].i1 && desc[chains[h].i1].next == chains[h].i2
  {
    assert ChainOk(desc, owner, h, chains[h]);
  }

  lemma ReturnDescs(free: seq<bool>, desc: seq<Desc>, chains: map<nat, Chain>, owner: map<nat, nat>, h: nat)
    requires Descs(free, desc, chains, owner) && h in chains
    requires h < NUM && chains[h].i1 < NUM && chains[h].i2 < NUM
    ensures var i1, i2 := chains[h].i1, chains[h].i2;
            |free| == |desc| == NUM && Descs(FreeThree(free, h, i1, i2, true),
              desc[h := UNUSED][i1 := UNUSED][i2 := UNUSED], chains - {h}, owner - {h, i1, i2})
  {
    hide Descs;
    var i1, i2 := chains[h].i1, chains[h].i2;
    ReturnFree(free, desc, chains, owner, h);
    var desc' := desc[h := UNUSED][i1 := UNUSED][i2 := UNUSED];
    var chains', owner' := chains - {h}, owner - {h, i1, i2};
    assert forall g :: g in chains' ==> ChainOk(desc', owner', g, chains'[g]) by {
      forall g | g in chains'
        ensures ChainOk(desc', owner', g, chains'[g])
      {
        ReturnOther(free, desc, chains, owner, h, g);
      }
    }
    assert forall i :: i in owner' ==> InChain(chains', i, owner'[i]) by {
      forall i | i in owner'
        ensures InChain(chains', i, owner'[i])
      {
        ReturnOwner(free, desc, chains, owner, h, i);
      }
    }
    DescsFrom(FreeThree(free, h, i1, i2, true), desc', chains', owner');
  }

  lemma DescsFrom(free: seq<bool>, desc: seq<Desc>, chains: map<nat, Chain>, owner: map<nat, nat>)
    requires |free| == |desc| == NUM
    requires forall h :: h in chains ==> ChainOk(desc, owner, h, chains[h])
    requires forall i :: i in owner ==> InChain(chains, i, owner[i])
    requires forall i :: 0 <= i < NUM ==> (free[i] <==> i !in owner)
    ensures Descs(free, desc, chains, owner)
  {
  }

  lemma ReturnFree(free: seq<bool>, desc: seq<Desc>, chains: map<nat, Chain>, owner: map<nat, nat>, h: nat)
    requires Descs(free, desc, chains, owner) && h in chains && h < NUM && chains[h].i1 < NUM && chains[h].i2 < NUM
    ensures |free| == NUM == |desc|
    ensures var i1, i2 := chains[h].i1, chains[h].i2;
            var free' := FreeThree(free, h, i1, i2, true);
            |free'| == NUM && forall i :: 0 <= i < NUM ==> (free'[i] <==> i !in owner - {h, i1, i2})
  {
  }

  lemma ReturnOther(free: seq<bool>, desc: seq<Desc>, chains: map<nat, Chain>, owner: map<nat, nat>, h: nat, g: nat)
    requires Descs(free, desc, chains, owner) && h in chains && g in chains && g != h && h < NUM &&
      chains[h].i1 < NUM && chains[h].i2 < NUM
    ensures |desc| == NUM
    ensures var i1, i2 := chains[h].i1, chains[h].i2;
            ChainOk(desc[h := UNUSED][i1 := UNUSED][i2 := UNUSED], owner - {h, i1, i2}, g, chains[g])
  {
    assert ChainOk(desc, owner, g, chains[g]) && ChainOk(desc, owner, h, chains[h]);
  }

  lemma ReturnOwner(free: seq<bool>, desc: seq<Desc>, chains: map<nat, Chain>, owner: map<nat, nat>, h: nat, i: nat)
    requires Descs(free, desc, chains, owner) && h in chains && i in owner - {h, chains[h].i1, chains[h].i2}
    ensures InChain(chains - {h}, i, owner[i])
  {
    assert InChain(chains, i, owner[i]);
  }

  lemma ReturnBufs(info: seq<Option<nat>>, status: seq<nat>, onDisk: set<nat>, chains: map<nat, Chain>,
      holder: map<nat, nat>, h: nat)
    requires Bufs(info, status, onDisk, chains, holder) && h in chains && h < NUM && chains[h].phase.Released?
    ensures Bufs(info[h := None], status, onDisk, chains - {h}, holder - {chains[h].buf})
  {
  }

  lemma ReturnTransfers(ops: seq<Req>, mem: map<nat, Content>, store: map<nat, Content>, plain: map<nat, Content>,
      chains: map<nat, Chain>, h: nat)
    requires Transfers(ops, mem, store, plain, chains)
    ensures Transfers(ops, mem, store, plain, chains - {h})
  {
  }

  lemma ReturnTallies(bk: Book, bk': Book, h: nat)
    requires Tallies(bk) && h in bk.chains && bk.chains[h].phase.Released? && bk.chains[h].buf in bk.holder &&
      bk.holder[bk.chains[h].buf] == h
    requires forall b :: b in bk.holder ==> bk.holder[b] in bk.chains && bk.chains[bk.holder[b]].buf == b
    requires bk'.chains == bk.chains - {h} && bk'.holder == bk.holder - {bk.chains[h].buf} &&
      bk'.returned == bk.returned + multiset{bk.chains[h].buf}
    requires bk'.submitted == bk.submitted && bk'.completed == bk.completed && bk'.released == bk.released
    ensures Tallies(bk')
  {
    forall b: nat
      ensures TallyOk(bk', b)
    {
      assert TallyOk(bk, b);
    }
  }

  /** A thread that finds disk clear frees exactly its own three descriptors. */
  lemma ReturnKeeps(s: Sys, h: nat)
    requires Inv(s) && Enabled(s, Return(h))
    ensures ThreeLinked(s.dr.free, s.dr.desc, h) && Inv(Returned(s, h))
  {
    hide Descs, Places, Bufs, Tallies, Counts, FreeThree, RingOk, Transfers;
    HolderOf(s.dr.info, s.dr.status, s.dr.onDisk, s.bk.chains, s.bk.holder, h);
    ReturnLinked(s.dr.free, s.dr.desc, s.bk.chains, s.bk.owner, h);
    ReturnPlaces(s.bk.chains, h, s.dr.pending, s.bk.availQ, s.dv.busy, s.dv.answering, s.bk.usedQ);
    ReturnDescs(s.dr.free, s.dr.desc, s.bk.chains, s.bk.owner, h);
    ReturnBufs(s.dr.info, s.dr.status, s.dr.onDisk, s.bk.chains, s.bk.holder, h);
    ReturnTallies(s.bk, Returned(s, h).bk, h);
    ReturnTransfers(s.dr.ops, s.mem, s.dv.store, s.bk.plain, s.bk.chains, h);
    ReturnedShape(s, h);
  }

  lemma ReturnedShape(s: Sys, h: nat)
    requires Shape(s) && h in s.bk.chains && ThreeLinked(s.dr.free, s.dr.desc, h)
    ensures Shape(Returned(s, h))
  {
  }

  /** A thread changes only buffers that are in no request. */
  lemma FillKeeps(s: Sys, b: nat, v: Content)
    requires Inv(s) && Enabled(s, Fill(b, v))
    ensures Inv(Next(s, Fill(b, v)))
  {
    hide Descs, Places, Tallies, RingOk, Counts;
    var mem := s.mem[b := v];
    forall h | h in s.bk.chains
      ensures TransferOk(s.dr.ops, mem, h, s.bk.chains[h])
    {
      assert TransferOk(s.dr.ops, s.mem, h, s.bk.chains[h]);
      assert BufOk(s.dr.info, s.dr.status, s.dr.onDisk, s.bk.holder, h, s.bk.chains[h]);
    }
  }

  /** Every step keeps the invariant, and the only panic is the interrupt handler's on an error the device reported. */
  lemma StepKeeps(s: Sys, e: Event)
    requires Inv(s) && Enabled(s, e)
    ensures Panics(s, e) <==> e.Reap? && DeviceError(s)
    ensures !Panics(s, e) ==> Inv(Next(s, e))
  {
    hide Descs, Places, Bufs, Tallies, Rings, Transfers, ThreeLinked, ReapFails, DeviceError;
    match e
    case Fill(b, v) => FillKeeps(s, b, v);
    case Prepare(b, write, blockno) => PrepareKeeps(s, b, write, blockno);
    case Publish => PublishKeeps(s);
    case Fetch => FetchKeeps(s);
    case Answer(h, status) => AnswerKeeps(s, h, status);
    case Bump => BumpKeeps(s);
    case Reap => ReapKeeps(s);
    case Return(h) => ReturnKeeps(s, h);
  }
}
