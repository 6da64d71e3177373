/** Whole runs of the driver and the device. */
module VirtioRuns {
  import opened Wrappers
  import opened VirtioModel
  import opened VirtioTheorems

  /** After virtio_disk_init: all descriptors free, both rings empty, all counts zero. */
  ghost predicate Start(s: Sys) {
    && Shape(s)
    && (forall i :: 0 <= i < NUM ==> s.dr.free[i])
    && s.dr.idx == s.dr.usedIdx == s.dv.idx == s.dv.seen == 0 && s.dr.onDisk == {} && s.dr.pending == None
    && s.dv.busy == {} && s.dv.answering == None
    && s.bk == Book(map[], map[], map[], [], [], 0, 0, multiset{}, multiset{}, multiset{}, multiset{}, s.dv.store)
  }

  lemma StartInv(s: Sys)
    requires Start(s)
    ensures Inv(s)
  {
  }

  /** es takes s to t, each event being possible where it happens and none a panic. */
  ghost predicate Run(s: Sys, es: seq<Event>, t: Sys)
    requires Inv(s)
    decreases |es|
  {
    if es == [] then s == t
    else Enabled(s, es[0]) && !Panics(s, es[0]) && (StepKeeps(s, es[0]); Run(Next(s, es[0]), es[1..], t))
  }

  lemma {:induction false} RunKeeps(s: Sys, es: seq<Event>, t: Sys)
    requires Inv(s) && Run(s, es, t)
    ensures Inv(t)
    decreases |es|
  {
    hide Next, Enabled, Descs, Places, Bufs, Tallies, Rings, Transfers, Panics;
    if es != [] {
      StepKeeps(s, es[0]);
      RunKeeps(Next(s, es[0]), es[1..], t);
    }
  }

  /** In every run the chains in flight are at most two and share no descriptor. */
  lemma ChainsInEveryRun(s: Sys, es: seq<Event>, t: Sys, f: nat, g: nat, h: nat)
    requires Inv(s) && Start(s) && Run(s, es, t) && f in t.bk.chains && g in t.bk.chains && h in t.bk.chains
    ensures f == g || f == h || g == h
    ensures f != g ==> Members(t.bk.chains[f]) !! Members(t.bk.chains[g])
  {
    hide Run, Descs, Start, Members, Places, Bufs, Tallies, Rings, Transfers;
    RunKeeps(s, es, t);
    NotThree(t.dr.free, t.dr.desc, t.bk.chains, t.bk.owner, f, g, h);
    if f != g {
      ChainsDisjoint(t.dr.free, t.dr.desc, t.bk.chains, t.bk.owner, f, g);
    }
  }

  /**
   In every run, whatever the wrap-around of the 16-bit indices: the entries of the available
   ring the device has not read are the requests posted and not fetched, in order, and the
   entries of the used ring the driver has not read are the requests answered and not released.
   */
  lemma RingsInEveryRun(s: Sys, es: seq<Event>, t: Sys, j: nat)
    requires Inv(s) && Start(s) && Run(s, es, t)
    ensures Shape(t) && |t.bk.availQ| <= 2 && |t.bk.usedQ| <= 2
    ensures t.dr.idx == (t.dv.seen + |t.bk.availQ|) % WRAP && t.dv.idx == (t.dr.usedIdx + |t.bk.usedQ|) % WRAP
    ensures j < |t.bk.availQ| ==> t.dr.ring[(t.dv.seen + j) % NUM] == t.bk.availQ[j] && t.bk.availQ[j] in t.bk.chains
    ensures j < |t.bk.usedQ| ==> t.dv.ring[(t.dr.usedIdx + j) % NUM] == t.bk.usedQ[j] && t.bk.usedQ[j] in t.bk.chains
  {
    hide Run, Descs, Start, Places, Bufs, Tallies, Transfers;
    RunKeeps(s, es, t);
    QueueOf(t.bk.chains, t.dr.pending, t.bk.availQ, t.dv.busy, t.dv.answering, t.bk.usedQ);
    WindowAt(t.dr.ring, t.bk.availQ, t.bk.fetched, t.dr.pending, t.dv.seen, t.dr.idx, j);
    WindowAt(t.dv.ring, t.bk.usedQ, t.bk.reaped, t.dv.answering, t.dr.usedIdx, t.dv.idx, j);
  }

  lemma WindowAt(ring: seq<nat>, q: seq<nat>, start: nat, adding: Option<nat>, x: nat, y: nat, j: nat)
    requires RingOk(ring, q, start, adding) && Counts(x, start) && Counts(y, start + |q|)
    ensures y == (x + |q|) % WRAP
    ensures j < |q| ==> ring[(x + j) % NUM] == q[j]
  {
    WrapAdd(start, |q|);
    WrapAdd(start, j);
  }

  lemma {:induction false} WrapAdd(n: nat, d: nat)
    ensures (n + d) % WRAP == (n % WRAP + d) % WRAP && (n + d) % NUM == (n % WRAP + d) % NUM
  {
    if d == 0 {
      CountsNext(n % WRAP, n);
    } else {
      WrapAdd(n, d - 1);
      CountsNext((n + d - 1) % WRAP, n + d - 1);
      CountsNext((n % WRAP + d - 1) % WRAP, n % WRAP + d - 1);
      CountsNext((n + d) % WRAP, n + d);
      CountsNext((n % WRAP + d) % WRAP, n % WRAP + d);
    }
  }

  /**
   In every run a buffer goes round the same circle: it is submitted, the device completes it,
   the interrupt releases it, its thread returns, and only then is it submitted again.
   */
  lemma ReleasedOnceAfterCompletion(s: Sys, es: seq<Event>, t: Sys, b: nat)
    requires Inv(s) && Start(s) && Run(s, es, t)
    ensures t.bk.returned[b] <= t.bk.released[b] <= t.bk.completed[b] <= t.bk.submitted[b] <= t.bk.returned[b] + 1
    ensures b in t.dr.onDisk <==> t.bk.released[b] < t.bk.submitted[b]
  {
    hide Run, Descs, Start, Places, Rings, Transfers;
    RunKeeps(s, es, t);
    assert TallyOk(t.bk, b);
    if b in t.bk.holder {
      HolderOf(t.dr.info, t.dr.status, t.dr.onDisk, t.bk.chains, t.bk.holder, t.bk.holder[b]);
    }
  }

  /** In every run the next event panics if and only if it reads an answer in which the device reported an error. */
  lemma PanicsOnlyOnDeviceError(s: Sys, es: seq<Event>, t: Sys, e: Event)
    requires Inv(s) && Start(s) && Run(s, es, t)
    ensures Inv(t) && (Enabled(t, e) ==> (Panics(t, e) <==> e.Reap? && DeviceError(t)))
  {
    hide Run, Start, Descs, Places, Bufs, Tallies, Rings, Transfers, Panics, DeviceError;
    RunKeeps(s, es, t);
    if Enabled(t, e) {
      StepKeeps(t, e);
    }
  }

  lemma NoneRun(s: Sys)
    requires Inv(s)
    ensures Run(s, [], s)
  {
  }

  ghost predicate NoErrors(s: Sys) {
    forall h :: h in s.bk.chains && s.bk.chains[h].answer.Some? ==> s.bk.chains[h].answer.value == 0
  }

  lemma NoErrorsStep(s: Sys, e: Event)
    requires Shape(s) && Enabled(s, e) && !Panics(s, e) && NoErrors(s) && (e.Answer? ==> e.status == 0)
    ensures NoErrors(Next(s, e))
  {
  }

  lemma {:induction false} NoErrorsKept(s: Sys, es: seq<Event>, t: Sys)
    requires Inv(s) && Run(s, es, t) && NoErrors(s)
    requires forall e :: e in es && e.Answer? ==> e.status == 0
    ensures NoErrors(t)
    decreases |es|
  {
    hide Descs, Places, Bufs, Tallies, Rings, Transfers, Next, NoErrors, Panics, Enabled;
    if es != [] {
      assert es[0] in es;
      StepKeeps(s, es[0]);
      NoErrorsStep(s, es[0]);
      NoErrorsKept(Next(s, es[0]), es[1..], t);
    }
  }

  /** With a device that reports no errors, no run panics. */
  lemma GoodDeviceNoPanic(s: Sys, es: seq<Event>, t: Sys, e: Event)
    requires Inv(s) && Start(s) && Run(s, es, t)
    requires forall x :: x in es && x.Answer? ==> x.status == 0
    ensures Inv(t) && (Enabled(t, e) ==> !Panics(t, e))
  {
    hide Run, Inv, Panics;
    PanicsOnlyOnDeviceError(s, es, t, e);
    NoErrorsKept(s, es, t);
  }
}
