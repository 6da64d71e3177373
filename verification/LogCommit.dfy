/** What end_op promises: when the last operation has returned, all that was written survives a crash. */
module LogCommit {
  import opened LogModel
  import opened LogTheorems

  /** With no operation and no commit in progress nothing is logged, and what reads give is what a crash leaves. */
  lemma IdleIsDurable(s: Sys, b: int)
    requires Inv(s) && s.ops == map[] && !s.committing && !s.phase.Recovering? && Home(s.start, |s.disk|, b)
    ensures s.lh == [] && s.phase.Quiet?
    ensures Durable(s.start, s.disk, b) == Seen(s, b) == s.disk[b]
  {
    hide LocksOk, PinsOk, CacheShape;
    DurableIsCommitted(s, b);
    ReadsCurrent(s, b);
    assert b !in s.dirty;
  }

  /** The same after every run from a good disk. */
  lemma IdleInEveryRun(start: nat, disk: seq<Block>, es: seq<Event>, t: Sys, b: int)
    requires GoodDisk(start, disk) && Inv(Booting(start, disk)) && Run(Booting(start, disk), es, t)
    requires t.ops == map[] && !t.committing && !t.phase.Recovering? && Home(start, |disk|, b)
    ensures Inv(t) && t.start == start && |t.disk| == |disk| && t.lh == []
    ensures Durable(start, t.disk, b) == Seen(t, b) == t.disk[b]
  {
    hide ControlOk, DirtyOk, LocksOk, PinsOk, CacheData, DiskData, PhaseOk;
    RunKeeps(Booting(start, disk), es, t);
    IdleIsDurable(t, b);
  }

  // ------------------------------------------------------------------------ a whole commit

  function Repeat(e: Event, n: nat): seq<Event> {
    seq(n, _ => e)
  }

  /** end_op of the last operation with n blocks logged, and the commit it runs. */
  function CommitEvents(t: nat, n: nat): seq<Event> {
    [EndOp(t)]
    + (if n == 0 then [] else Repeat(CopyOne, n) + [CommitHead] + Repeat(InstallOne, n) + [ClearLog])
    + [EndCommit]
  }

  ghost predicate NoLocks(cache: map<int, Buf>) {
    forall b :: b in cache ==> cache[b].lock == NOBODY
  }

  lemma {:induction false} RunMore(s: Sys, es: seq<Event>, t: Sys, e: Event)
    requires Inv(s) && Run(s, es, t) && Inv(t) && Enabled(t, e)
    ensures Inv(Next(t, e)) && Run(s, es + [e], Next(t, e))
    decreases |es|
  {
    hide ControlOk, DirtyOk, LocksOk, PinsOk, CacheData, DiskData, PhaseOk, Next;
    if es == [] {
      StepKeeps(t, e);
      assert [e][1..] == [];
      assert es + [e] == [e];
    } else {
      StepKeeps(s, es[0]);
      RunMore(Next(s, es[0]), es[1..], t, e);
      assert (es + [e])[1..] == es[1..] + [e];
    }
  }

  /** On the way through a commit: nobody holds a lock, and reads give what they gave in s. */
  ghost predicate Committing(s: Sys, u: Sys, phase: Phase, lh: seq<int>) {
    && Inv(u) && u.start == s.start && |u.disk| == |s.disk| && !u.panicked
    && u.phase == phase && u.lh == lh && u.ops == map[] && u.committing && NoLocks(u.cache)
    && forall b :: Home(s.start, |s.disk|, b) ==> Seen(u, b) == Seen(s, b)
  }

  lemma Begun(s: Sys, t: nat)
    requires Inv(s) && Enabled(s, EndOp(t)) && s.ops.Keys == {t} && NoLocks(s.cache)
    ensures Committing(s, Next(s, EndOp(t)), if s.lh == [] then Quiet else Copying(0), s.lh)
  {
    hide DiskShape, CacheShape, LogShape, ControlOk, DirtyOk, LocksOk, PinsOk, CacheData, DiskData, PhaseOk;
    EndOpKeeps(s, t);
    assert (s.ops - {t}).Keys == {};
  }

  /** The events of a commit, in their turn. */
  predicate InTurn(phase: Phase, lh: seq<int>, e: Event) {
    match e
    case CopyOne => phase.Copying? && phase.i < |lh|
    case CommitHead => phase.Copying? && phase.i == |lh|
    case InstallOne => phase.Installing? && phase.i < |lh|
    case ClearLog => phase.Installing? && phase.i == |lh|
    case _ => false
  }

  function PhaseAfter(phase: Phase, e: Event): Phase {
    match e
    case CopyOne => if phase.Copying? then Copying(phase.i + 1) else phase
    case CommitHead => Installing(0)
    case InstallOne => if phase.Installing? then Installing(phase.i + 1) else phase
    case _ => Quiet
  }

  lemma CommitStep(s: Sys, u: Sys, phase: Phase, lh: seq<int>, e: Event)
    requires Inv(s) && Committing(s, u, phase, lh) && InTurn(phase, lh, e)
    ensures Enabled(u, e)
    ensures Committing(s, Next(u, e), PhaseAfter(phase, e), if e.ClearLog? then [] else lh)
  {
    hide DiskShape, CacheShape, LogShape, ControlOk, DirtyOk, LocksOk, PinsOk, CacheData, DiskData, PhaseOk;
    hide Head, WithHead, Durable, Seen;
    StepKeeps(u, e);
    PanicsIff(u, e);
    forall b | Home(s.start, |s.disk|, b)
      ensures Home(s.start, |Next(u, e).disk|, b) && Seen(Next(u, e), b) == Seen(s, b)
    {
      Observable(u, e, b);
    }
  }

  lemma Advance(s: Sys, es: seq<Event>, u: Sys, phase: Phase, lh: seq<int>, e: Event) returns (u': Sys)
    requires Inv(s) && Run(s, es, u) && Committing(s, u, phase, lh) && InTurn(phase, lh, e)
    ensures Run(s, es + [e], u') && Committing(s, u', PhaseAfter(phase, e), if e.ClearLog? then [] else lh)
  {
    hide Run, ControlOk, DirtyOk, LocksOk, PinsOk, CacheData, DiskData, PhaseOk, InTurn, PhaseAfter;
    CommitStep(s, u, phase, lh, e);
    RunMore(s, es, u, e);
    u' := Next(u, e);
  }

  /** n equal events in a row. */
  lemma RepeatMore(e: Event, n: nat)
    ensures Repeat(e, n + 1) == Repeat(e, n) + [e]
  {
  }

  /**
   The last end_op commits: with nobody holding a buffer's lock, its events can all happen, and afterwards every home
   block on disk is what reads gave before, nothing is logged, and the next operation may begin.
   */
  lemma CommitCompletes(s: Sys, t: nat) returns (u: Sys)
    requires Inv(s) && Enabled(s, EndOp(t)) && s.ops.Keys == {t} && NoLocks(s.cache)
    ensures Run(s, CommitEvents(t, |s.lh|), u) && Inv(u) && u.start == s.start && |u.disk| == |s.disk|
    ensures u.ops == map[] && u.lh == [] && !u.committing && u.phase.Quiet? && !u.panicked
    ensures forall b :: Home(s.start, |s.disk|, b) ==> u.disk[b] == Seen(s, b)
    ensures forall p :: Enabled(u, BeginOp(p))
  {
    hide ControlOk, DirtyOk, LocksOk, PinsOk, CacheData, DiskData, PhaseOk;
    hide Run, Enabled, Next, Committing, CommitEvents, Repeat;
    var es, lh := [EndOp(t)], s.lh;
    Begun(s, t);
    RunMore(s, [], s, EndOp(t)) by { NoRun(s); }
    assert [] + [EndOp(t)] == es;
    u := Next(s, EndOp(t));
    if lh != [] {
      es, u := CopyAll(s, t, lh, u);
      es, u := InstallAll(s, t, lh, es, u);
    }
    es, u := Finish(s, es, u);
    assert es == CommitEvents(t, |lh|) by { CommitEventsAre(t, |lh|); }
  }

  lemma NoRun(s: Sys)
    requires Inv(s)
    ensures Run(s, [], s)
  {
  }

  lemma CommitEventsAre(t: nat, n: nat)
    ensures n == 0 ==> CommitEvents(t, n) == [EndOp(t)] + [EndCommit]
    ensures n > 0 ==>
      CommitEvents(t, n) ==
      [EndOp(t)] + Repeat(CopyOne, n) + [CommitHead] + Repeat(InstallOne, n) + [ClearLog] + [EndCommit]
  {
  }

  lemma CopyAll(s: Sys, t: nat, lh: seq<int>, u0: Sys) returns (es: seq<Event>, u: Sys)
    requires Inv(s) && Run(s, [EndOp(t)], u0) && Committing(s, u0, Copying(0), lh)
    ensures es == [EndOp(t)] + Repeat(CopyOne, |lh|) && Run(s, es, u) && Committing(s, u, Copying(|lh|), lh)
  {
    hide Run, Inv, Committing, Repeat;
    es, u := [EndOp(t)], u0;
    assert Repeat(CopyOne, 0) == [] by { RepeatNone(CopyOne); }
    for i := 0 to |lh|
      invariant es == [EndOp(t)] + Repeat(CopyOne, i) && Run(s, es, u) && Committing(s, u, Copying(i), lh)
    {
      u := Advance(s, es, u, Copying(i), lh, CopyOne);
      RepeatMore(CopyOne, i);
      es := es + [CopyOne];
    }
  }

  lemma RepeatNone(e: Event)
    ensures Repeat(e, 0) == []
  {
  }

  lemma InstallAll(s: Sys, t: nat, lh: seq<int>, es0: seq<Event>, u0: Sys) returns (es: seq<Event>, u: Sys)
    requires Inv(s) && Run(s, es0, u0) && Committing(s, u0, Copying(|lh|), lh)
    ensures es == es0 + [CommitHead] + Repeat(InstallOne, |lh|) + [ClearLog]
    ensures Run(s, es, u) && Committing(s, u, Quiet, [])
  {
    hide Run, Inv, Committing, Repeat;
    u := Advance(s, es0, u0, Copying(|lh|), lh, CommitHead);
    es := es0 + [CommitHead];
    assert Repeat(InstallOne, 0) == [] by { RepeatNone(InstallOne); }
    for i := 0 to |lh|
      invariant es == es0 + [CommitHead] + Repeat(InstallOne, i)
      invariant Run(s, es, u) && Committing(s, u, Installing(i), lh)
    {
      u := Advance(s, es, u, Installing(i), lh, InstallOne);
      RepeatMore(InstallOne, i);
      es := es + [InstallOne];
    }
    u := Advance(s, es, u, Installing(|lh|), lh, ClearLog);
    es := es + [ClearLog];
  }

  lemma Finish(s: Sys, es0: seq<Event>, u0: Sys) returns (es: seq<Event>, u: Sys)
    requires Inv(s) && Run(s, es0, u0) && Committing(s, u0, Quiet, [])
    ensures es == es0 + [EndCommit] && Run(s, es, u) && Inv(u) && u.start == s.start && |u.disk| == |s.disk|
    ensures u.ops == map[] && u.lh == [] && !u.committing && u.phase.Quiet? && !u.panicked
    ensures forall b :: Home(s.start, |s.disk|, b) ==> u.disk[b] == Seen(s, b)
    ensures forall p :: Enabled(u, BeginOp(p))
  {
    hide Run, ControlOk, DirtyOk, LocksOk, PinsOk, CacheData, DiskData, PhaseOk;
    RunMore(s, es0, u0, EndCommit);
    es, u := es0 + [EndCommit], Next(u0, EndCommit);
    forall b | Home(s.start, |s.disk|, b)
      ensures u.disk[b] == Seen(s, b)
    {
      IdleIsDurable(u, b);
    }
  }

  // ------------------------------------------------------------------------ a buffer's way out

  /** A buffer let go by its only user and not pinned can be recycled, and reading the block again gives the same. */
  lemma Recycled(s: Sys, t: nat, b: int)
    requires Inv(s) && !s.panicked && !s.phase.Recovering? && b in s.cache && b !in s.dirty
    requires s.cache[b].users == {t} && s.cache[b].lock == t && s.cache[b].pins == 0
    ensures Enabled(s, Unlock(t, b))
    ensures var s1 := Next(s, Unlock(t, b));
            && Inv(s1) && Enabled(s1, Drop(t, b))
            && var s2 := Next(s1, Drop(t, b));
            && Inv(s2) && Enabled(s2, Evict(b))
            && var s3 := Next(s2, Evict(b));
            && Inv(s3) && b !in s3.cache && Enabled(s3, Get(t, b))
            && var s4 := Next(s3, Get(t, b));
            && Inv(s4) && s4.cache == s.cache && s4.cache[b].lock == t
  {
    hide DiskShape, CacheShape, LogShape, ControlOk, DirtyOk, LocksOk, PinsOk, CacheData, DiskData, PhaseOk;
    Clean(s, b);
    UnlockKeeps(s, t, b);
    var s1 := Next(s, Unlock(t, b));
    DropKeeps(s1, t, b);
    var s2 := Next(s1, Drop(t, b));
    EvictKeeps(s2, b);
    var s3 := Next(s2, Evict(b));
    GetKeeps(s3, t, b);
    assert s2.cache == s.cache[b := Buf(s.disk[b], {}, 0, NOBODY)];
    assert Next(s3, Get(t, b)).cache == s.cache;
  }

  /** A block in the cache that is neither modified nor pinned is as on disk. */
  lemma Clean(s: Sys, b: int)
    requires Inv(s) && b in s.cache && b !in s.dirty && s.cache[b].pins == 0
    ensures 0 <= b < |s.disk| && s.cache[b].data == s.disk[b]
  {
  }
}
