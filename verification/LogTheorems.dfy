/** Every step of the log keeps the invariant, and the whole refines an atomic store. */
module LogTheorems {
  import opened LogModel

  // ------------------------------------------------------------------------ invariant

  /** The logged blocks whose home location is not yet written. */
  function Rest(lh: seq<int>, phase: Phase): seq<int> {
    if (phase.Installing? || phase.Recovering?) && phase.i <= |lh| then lh[phase.i..] else lh
  }

  ghost predicate ControlOk(n: nat, committing: bool, phase: Phase, ops: map<nat, Op>) {
    && (committing || !phase.Quiet? ==> ops == map[])
    && (phase.Copying? || phase.Installing? ==> committing)
    && (phase.Recovering? ==> !committing)
    && (!phase.Quiet? ==> phase.i <= n)
    && (phase.Quiet? && ops == map[] ==> n == 0)
  }

  /** A modified block is locked by the thread that modified it until it is logged. */
  ghost predicate DirtyOk(start: nat, size: nat, cache: map<int, Buf>, ops: map<nat, Op>, dirty: map<int, nat>) {
    forall b :: b in dirty ==> Home(start, size, b) && dirty[b] in ops && b in cache && cache[b].lock == dirty[b]
  }

  ghost predicate LocksOk(cache: map<int, Buf>) {
    forall b :: b in cache && cache[b].lock != NOBODY ==> cache[b].lock >= 0 && cache[b].lock in cache[b].users
  }

  /** A logged block is pinned once, in the cache, until it is installed; no other block is pinned. */
  ghost predicate PinsOk(cache: map<int, Buf>, rest: seq<int>) {
    && (forall b :: b in cache ==> cache[b].pins == if b in rest then 1 else 0)
    && (forall b :: b in rest ==> b in cache)
  }

  /** The cache holds what was last written. */
  ghost predicate CacheData(start: nat, disk: seq<Block>, cache: map<int, Buf>, current: seq<Block>)
    requires |current| == |disk|
  {
    forall b :: b in cache && 0 <= b < |disk| ==>
      cache[b].data == if Home(start, |disk|, b) then current[b] else disk[b]
  }

  /** So does the disk, but for blocks modified or logged and still to be installed. */
  ghost predicate DiskData(start: nat, disk: seq<Block>, current: seq<Block>, rest: seq<int>, dirty: map<int, nat>)
    requires |current| == |disk|
  {
    forall b :: Home(start, |disk|, b) && b !in rest && b !in dirty ==> disk[b] == current[b]
  }

  /** The first n log blocks hold what was last written to the first n logged blocks. */
  ghost predicate Logged(start: nat, disk: seq<Block>, current: seq<Block>, lh: seq<int>, n: nat)
    requires DiskShape(start, disk) && |current| == |disk| && LogShape(start, |disk|, lh) && n <= |lh|
  {
    forall j :: 0 <= j < n ==> disk[LogBlock(start, j)] == current[lh[j]]
  }

  ghost predicate SameHome(start: nat, x: seq<Block>, y: seq<Block>)
    requires |x| == |y|
  {
    forall b :: Home(start, |x|, b) ==> x[b] == y[b]
  }

  ghost predicate PhaseOk(start: nat, disk: seq<Block>, lh: seq<int>, phase: Phase, current: seq<Block>,
      committed: seq<Block>)
    requires DiskShape(start, disk) && |current| == |committed| == |disk| && LogShape(start, |disk|, lh)
    requires !phase.Quiet? ==> phase.i <= |lh|
  {
    match phase
    case Quiet => Head(disk[start]) == [] && SameHome(start, disk, committed)
    case Copying(i) =>
      Head(disk[start]) == [] && SameHome(start, disk, committed) &&
      Logged(start, disk, current, lh, i)
    case Installing(i) =>
      Head(disk[start]) == lh && SameHome(start, committed, current) &&
      Logged(start, disk, current, lh, |lh|)
    case Recovering(i) =>
      Head(disk[start]) == lh && SameHome(start, committed, current) &&
      Logged(start, disk, current, lh, |lh|)
  }

  ghost predicate Inv(s: Sys) {
    && Shape(s)
    && ControlOk(|s.lh|, s.committing, s.phase, s.ops)
    && DirtyOk(s.start, |s.disk|, s.cache, s.ops, s.dirty)
    && LocksOk(s.cache)
    && (if s.phase.Recovering? then s.cache == map[] else PinsOk(s.cache, Rest(s.lh, s.phase)))
    && CacheData(s.start, s.disk, s.cache, s.current)
    && DiskData(s.start, s.disk, s.current, Rest(s.lh, s.phase), s.dirty)
    && PhaseOk(s.start, s.disk, s.lh, s.phase, s.current, s.committed)
  }

  // --------------------------------------------------------------------------- events

  lemma BeginOpKeeps(s: Sys, t: nat)
    requires Inv(s) && Enabled(s, BeginOp(t))
    ensures Inv(Next(s, BeginOp(t)))
  {
    hide DiskShape, CacheShape, LogShape, LocksOk, PinsOk, CacheData, DiskData, PhaseOk;
  }

  /** A change to the users or the lock of one cached block. */
  lemma HolderKeeps(s: Sys, b: int, users: set<nat>, lock: int)
    requires Inv(s) && b in s.cache
    requires lock != NOBODY ==> lock >= 0 && lock in users
    requires b in s.dirty ==> lock == s.cache[b].lock
    ensures Inv(s.(cache := s.cache[b := s.cache[b].(users := users, lock := lock)]))
  {
    hide DiskShape, LogShape, ControlOk, PinsOk, CacheShape, CacheData, DiskData, PhaseOk;
    HolderData(s, b, s.cache[b].(users := users, lock := lock));
  }

  /** The users and the lock play no part in pins and data. */
  lemma HolderData(s: Sys, b: int, buf: Buf)
    requires Shape(s) && b in s.cache && buf.data == s.cache[b].data && buf.pins == s.cache[b].pins
    ensures CacheShape(|s.disk|, s.cache[b := buf])
    ensures PinsOk(s.cache, Rest(s.lh, s.phase)) ==> PinsOk(s.cache[b := buf], Rest(s.lh, s.phase))
    ensures CacheData(s.start, s.disk, s.cache, s.current) ==> CacheData(s.start, s.disk, s.cache[b := buf], s.current)
  {
    hide DiskShape, LogShape;
  }

  lemma GetKeeps(s: Sys, t: nat, b: int)
    requires Inv(s) && Enabled(s, Get(t, b))
    ensures Inv(Next(s, Get(t, b)))
  {
    hide ControlOk, DiskShape, CacheShape, LogShape, PinsOk, CacheData, DiskData, PhaseOk;
    if b in s.cache {
      HolderKeeps(s, b, s.cache[b].users + {t}, s.cache[b].lock);
    } else {
      MissKeeps(s, t, b);
    }
  }

  /** A block read from disk into the cache is the block last written. */
  lemma MissKeeps(s: Sys, t: nat, b: int)
    requires Inv(s) && !s.phase.Recovering? && 0 <= b < |s.disk| && b !in s.cache
    ensures Inv(s.(cache := s.cache[b := Buf(s.disk[b], {t}, 0, t)]))
  {
    hide DiskShape, LogShape, CacheShape, ControlOk, PinsOk, CacheData, DiskData, PhaseOk, Rest;
    MissData(s, b, Buf(s.disk[b], {t}, 0, t), Rest(s.lh, s.phase));
  }

  lemma MissData(s: Sys, b: int, buf: Buf, rest: seq<int>)
    requires Shape(s) && 0 <= b < |s.disk| && b !in s.cache && buf.data == s.disk[b] && buf.pins == 0
    requires PinsOk(s.cache, rest) && CacheData(s.start, s.disk, s.cache, s.current)
    requires DiskData(s.start, s.disk, s.current, rest, s.dirty) && b !in s.dirty
    ensures CacheShape(|s.disk|, s.cache[b := buf]) && PinsOk(s.cache[b := buf], rest)
    ensures CacheData(s.start, s.disk, s.cache[b := buf], s.current)
  {
    hide LogShape;
  }

  lemma LockKeeps(s: Sys, t: nat, b: int)
    requires Inv(s) && Enabled(s, Lock(t, b))
    ensures Inv(Next(s, Lock(t, b)))
  {
    hide DiskShape, CacheShape, LogShape, ControlOk, PinsOk, CacheData, DiskData, PhaseOk;
    HolderKeeps(s, b, s.cache[b].users, t);
  }

  lemma UnlockKeeps(s: Sys, t: nat, b: int)
    requires Inv(s) && Enabled(s, Unlock(t, b))
    ensures Inv(Next(s, Unlock(t, b)))
  {
    hide DiskShape, CacheShape, LogShape, ControlOk, PinsOk, CacheData, DiskData, PhaseOk;
    HolderKeeps(s, b, s.cache[b].users, NOBODY);
  }

  lemma DropKeeps(s: Sys, t: nat, b: int)
    requires Inv(s) && Enabled(s, Drop(t, b))
    ensures Inv(Next(s, Drop(t, b)))
  {
    hide DiskShape, CacheShape, LogShape, ControlOk, PinsOk, CacheData, DiskData, PhaseOk;
    HolderKeeps(s, b, s.cache[b].users - {t}, s.cache[b].lock);
  }

  lemma EvictKeeps(s: Sys, b: int)
    requires Inv(s) && Enabled(s, Evict(b))
    ensures Inv(Next(s, Evict(b)))
  {
    hide DiskShape, LogShape, ControlOk, DiskData, PhaseOk, Rest;
  }

  lemma ModifyKeeps(s: Sys, t: nat, b: int, v: Block)
    requires Inv(s) && Enabled(s, Modify(t, b, v))
    ensures Inv(Next(s, Modify(t, b, v)))
  {
    hide DiskShape, LogShape, CacheShape, PinsOk, CacheData, DiskData, SameHome;
    assert s.phase.Quiet?;
    ModifyData(s, b, t, v);
  }

  lemma ModifyData(s: Sys, b: int, t: nat, v: Block)
    requires Shape(s) && Home(s.start, |s.disk|, b) && b in s.cache && |v| == WORDS
    requires PinsOk(s.cache, s.lh) && CacheData(s.start, s.disk, s.cache, s.current)
    requires DiskData(s.start, s.disk, s.current, s.lh, s.dirty)
    ensures var cache := s.cache[b := s.cache[b].(data := v)];
            && CacheShape(|s.disk|, cache) && PinsOk(cache, s.lh)
            && CacheData(s.start, s.disk, cache, s.current[b := v])
            && DiskData(s.start, s.disk, s.current[b := v], s.lh, s.dirty[b := t])
  {
    hide LogShape;
  }

  lemma LogWriteKeeps(s: Sys, t: nat, b: int)
    requires Inv(s) && Enabled(s, LogWrite(t, b))
    ensures Inv(Next(s, LogWrite(t, b)))
  {
    hide DiskShape, CacheShape, LogShape, LocksOk, PinsOk, CacheData, DiskData, PhaseOk;
    assert t in s.ops.Keys;
    if |s.lh| < LOGBLOCKS && b in s.lh {
      AbsorbKeeps(s, t, b);
    } else if |s.lh| < LOGBLOCKS {
      AppendKeeps(s, t, b);
    }
  }

  lemma AbsorbKeeps(s: Sys, t: nat, b: int)
    requires Inv(s) && Enabled(s, LogWrite(t, b)) && b in s.lh && |s.lh| < LOGBLOCKS
    ensures Inv(Next(s, LogWrite(t, b)))
  {
    hide DiskShape, CacheShape, LogShape, LocksOk, PinsOk, CacheData, PhaseOk;
    assert t in s.ops.Keys;
    assert t in Next(s, LogWrite(t, b)).ops;
  }

  lemma AppendKeeps(s: Sys, t: nat, b: int)
    requires Inv(s) && Enabled(s, LogWrite(t, b)) && b !in s.lh && |s.lh| < LOGBLOCKS
    ensures Inv(Next(s, LogWrite(t, b)))
  {
    hide DiskShape, LogShape, CacheShape, LocksOk, PinsOk, CacheData, DiskData, SameHome;
    assert t in s.ops.Keys && s.phase.Quiet?;
    AppendShape(s, b);
    AppendCache(s, b, s.cache[b].(pins := s.cache[b].pins + 1));
    var s' := Next(s, LogWrite(t, b));
    assert t in s'.ops && s'.lh == s.lh + [b] && Rest(s'.lh, s'.phase) == s'.lh;
    assert DirtyOk(s.start, |s.disk|, s'.cache, s'.ops, s'.dirty);
  }

  lemma AppendShape(s: Sys, b: int)
    requires Shape(s) && Home(s.start, |s.disk|, b) && b !in s.lh && |s.lh| < LOGBLOCKS
    ensures LogShape(s.start, |s.disk|, s.lh + [b])
  {
    hide DiskShape, CacheShape;
  }

  /** The appended block is pinned, and with it in the log it may differ from the disk. */
  lemma AppendCache(s: Sys, b: int, buf: Buf)
    requires Shape(s) && b in s.cache && b !in s.lh && buf == s.cache[b].(pins := s.cache[b].pins + 1)
    requires LocksOk(s.cache) && PinsOk(s.cache, s.lh) && CacheData(s.start, s.disk, s.cache, s.current)
    requires DiskData(s.start, s.disk, s.current, s.lh, s.dirty)
    ensures CacheShape(|s.disk|, s.cache[b := buf]) && LocksOk(s.cache[b := buf])
    ensures PinsOk(s.cache[b := buf], s.lh + [b]) && CacheData(s.start, s.disk, s.cache[b := buf], s.current)
    ensures DiskData(s.start, s.disk, s.current, s.lh + [b], s.dirty - {b})
  {
    hide DiskShape, LogShape;
  }

  lemma EndOpKeeps(s: Sys, t: nat)
    requires Inv(s) && Enabled(s, EndOp(t))
    ensures Inv(Next(s, EndOp(t)))
    ensures var s' := Next(s, EndOp(t));
            && !s'.panicked && s'.ops == s.ops - {t}
            && (s.ops.Keys == {t} ==> s'.committing && s'.phase == if s.lh == [] then Quiet else Copying(0))
            && (s.ops.Keys != {t} ==> !s'.committing && s'.phase.Quiet?)
  {
    hide DiskShape, CacheShape, LogShape, LocksOk, PinsOk, CacheData, DiskData, SameHome;
    assert (s.ops - {t}).Keys == s.ops.Keys - {t};
    assert s.ops - {t} == map[] <==> s.ops.Keys - {t} == {};
  }

  /** A block written to disk and to its cached copy, outside the home blocks. */
  lemma WrittenLogArea(s: Sys, b: int, v: Block)
    requires Shape(s) && 0 <= b < |s.disk| && !Home(s.start, |s.disk|, b) && |v| == WORDS &&
      (b == s.start ==> HeadOk(v))
    requires LocksOk(s.cache) && DirtyOk(s.start, |s.disk|, s.cache, s.ops, s.dirty)
    requires CacheData(s.start, s.disk, s.cache, s.current)
    ensures var s' := Written(s, b, v);
            && Shape(s') && LocksOk(s'.cache) && DirtyOk(s.start, |s.disk|, s'.cache, s.ops, s.dirty)
            && CacheData(s.start, s'.disk, s'.cache, s.current)
            && (forall rest :: PinsOk(s.cache, rest) ==> PinsOk(s'.cache, rest))
            && SameHome(s.start, s'.disk, s.disk)
  {
  }

  /** Copying the next logged block extends the logged prefix and touches no home block. */
  lemma CopiedPhase(s: Sys)
    requires Inv(s) && s.phase.Copying? && s.phase.i < |s.lh|
    ensures var b := s.lh[s.phase.i];
            var disk := s.disk[LogBlock(s.start, s.phase.i) := Seen(s, b)];
            && |Seen(s, b)| == WORDS
            && PhaseOk(s.start, disk, s.lh, Copying(s.phase.i + 1), s.current, s.committed)
            && DiskData(s.start, disk, s.current, s.lh, s.dirty)
  {
  }

  lemma CopyOneKeeps(s: Sys)
    requires Inv(s) && Enabled(s, CopyOne)
    ensures Inv(Next(s, CopyOne))
  {
    hide LocksOk, PinsOk, CacheData, DiskData, PhaseOk, LogShape, DiskShape, CacheShape, DirtyOk, Home;
    CopiedPhase(s);
    CopyTarget(s);
    WrittenLogArea(s, LogBlock(s.start, s.phase.i), Seen(s, s.lh[s.phase.i]));
  }

  lemma CopyTarget(s: Sys)
    requires Inv(s) && s.phase.Copying? && s.phase.i < |s.lh|
    ensures var b := LogBlock(s.start, s.phase.i);
            0 <= b < |s.disk| && !Home(s.start, |s.disk|, b) && 0 <= s.lh[s.phase.i] < |s.disk|
  {
  }

  lemma LogLength(s: Sys)
    requires Shape(s)
    ensures |s.lh| <= LOGBLOCKS
  {
  }

  /** With every logged block copied, the header makes the copies what a recovery would install. */
  lemma CommittedPhase(start: nat, disk: seq<Block>, lh: seq<int>, current: seq<Block>, dirty: map<int, nat>, v: Block)
    requires DiskShape(start, disk) && |current| == |disk| && LogShape(start, |disk|, lh)
    requires Logged(start, disk, current, lh, |lh|) && DiskData(start, disk, current, lh, dirty)
    requires HeadOk(v) && Head(v) == lh
    ensures var disk' := disk[start := v];
            && DiskShape(start, disk') && DiskData(start, disk', current, lh, dirty)
            && PhaseOk(start, disk', lh, Installing(0), current, current)
  {
    hide Head;
  }

  lemma CommitHeadKeeps(s: Sys)
    requires Inv(s) && Enabled(s, CommitHead)
    ensures Inv(Next(s, CommitHead))
  {
    hide DiskShape, LogShape, CacheShape, HeadOk, Head, WithHead;
    hide LocksOk, PinsOk, CacheData, DiskData, Logged, SameHome;
    LogLength(s);
    SeenHead(s);
    var v := WithHead(Seen(s, s.start), s.lh);
    HeadWithHead(Seen(s, s.start), s.lh);
    WrittenLogArea(s, s.start, v);
    CommittedPhase(s.start, s.disk, s.lh, s.current, s.dirty, v);
    assert Rest(s.lh, Installing(0)) == s.lh;
  }

  /** Installing a block: its home location gets the log's copy, which is what was last written to it. */
  lemma InstallData(s: Sys)
    requires Inv(s) && s.phase.Installing? && s.phase.i < |s.lh|
    ensures var b := s.lh[s.phase.i];
            && Home(s.start, |s.disk|, b)
            && Seen(s, LogBlock(s.start, s.phase.i)) == s.current[b]
            && s.dirty == map[]
            && Rest(s.lh, s.phase) == [b] + Rest(s.lh, Installing(s.phase.i + 1))
            && b !in Rest(s.lh, Installing(s.phase.i + 1))
  {
    hide LocksOk, PinsOk, DiskData, SameHome;
    var b := s.lh[s.phase.i];
    assert forall x :: x !in s.dirty;
    assert s.dirty == map[];
    assert s.disk[LogBlock(s.start, s.phase.i)] == s.current[b];
  }

  lemma InstallOneKeeps(s: Sys)
    requires Inv(s) && Enabled(s, InstallOne)
    ensures Inv(Next(s, InstallOne))
  {
    hide LocksOk, PinsOk, CacheData, DiskData, PhaseOk, LogShape, DiskShape, CacheShape, Home, Written, Unpinned;
    InstallData(s);
    var b := s.lh[s.phase.i];
    InstalledPhase(s, b);
    InstalledCache(s, b, Rest(s.lh, s.phase), Rest(s.lh, Installing(s.phase.i + 1)));
    assert Next(s, InstallOne) == Unpinned(Written(s, b, s.current[b]), b).(phase := Installing(s.phase.i + 1));
  }

  /** The cache and the disk after the install of block b, the first of `rest`. */
  lemma InstalledCache(s: Sys, b: int, rest: seq<int>, rest': seq<int>)
    requires Shape(s) && Home(s.start, |s.disk|, b) && |s.current[b]| == WORDS && s.dirty == map[]
    requires rest == [b] + rest' && b !in rest'
    requires LocksOk(s.cache) && PinsOk(s.cache, rest) && CacheData(s.start, s.disk, s.cache, s.current)
    requires DiskData(s.start, s.disk, s.current, rest, s.dirty)
    ensures var s' := Unpinned(Written(s, b, s.current[b]), b);
            && Shape(s') && LocksOk(s'.cache) && PinsOk(s'.cache, rest')
            && CacheData(s.start, s'.disk, s'.cache, s.current)
            && DiskData(s.start, s'.disk, s.current, rest', s.dirty)
            && s' == s.(disk := s.disk[b := s.current[b]], cache := s'.cache)
  {
  }

  lemma InstalledPhase(s: Sys, b: int)
    requires Inv(s) && s.phase.Installing? && s.phase.i < |s.lh| && b == s.lh[s.phase.i]
    ensures Home(s.start, |s.disk|, b) && |s.current[b]| == WORDS
    ensures PhaseOk(s.start, s.disk[b := s.current[b]], s.lh, Installing(s.phase.i + 1), s.current, s.committed)
  {
  }

  /** With every logged block installed, an empty header makes the home blocks the committed ones. */
  lemma InstalledAll(start: nat, disk: seq<Block>, lh: seq<int>, current: seq<Block>, committed: seq<Block>, v: Block)
    requires DiskShape(start, disk) && |current| == |committed| == |disk| && LogShape(start, |disk|, lh)
    requires DiskData(start, disk, current, [], map[]) && SameHome(start, committed, current)
    requires HeadOk(v) && Head(v) == []
    ensures var disk' := disk[start := v];
            && DiskShape(start, disk') && LogShape(start, |disk|, []) && DiskData(start, disk', current, [], map[])
            && PhaseOk(start, disk', [], Quiet, current, committed)
  {
    hide Head;
  }

  lemma ClearLogKeeps(s: Sys)
    requires Inv(s) && Enabled(s, ClearLog)
    ensures Inv(Next(s, ClearLog))
  {
    hide DiskShape, LogShape, CacheShape, HeadOk, Head, WithHead;
    hide LocksOk, PinsOk, CacheData, DiskData, Logged, SameHome;
    assert forall b :: b !in s.dirty;
    assert s.dirty == map[];
    assert Rest(s.lh, s.phase) == [];
    SeenHead(s);
    HeadWithHead(Seen(s, s.start), []);
    WrittenLogArea(s, s.start, WithHead(Seen(s, s.start), []));
    InstalledAll(s.start, s.disk, s.lh, s.current, s.committed, WithHead(Seen(s, s.start), []));
  }

  lemma SeenHead(s: Sys)
    requires Shape(s)
    ensures 0 <= s.start < |s.disk| && |Seen(s, s.start)| == WORDS && !Home(s.start, |s.disk|, s.start)
  {
  }

  /** After a crash the header on disk and the home blocks agree with the committed contents. */
  lemma CrashData(s: Sys)
    requires Inv(s)
    ensures var lh := Head(s.disk[s.start]);
            && LogShape(s.start, |s.disk|, lh)
            && DiskData(s.start, s.disk, s.committed, lh, map[])
            && Logged(s.start, s.disk, s.committed, lh, |lh|)
  {
  }

  lemma CrashKeeps(s: Sys)
    requires Inv(s)
    ensures Inv(Next(s, Crash))
  {
    hide Head, HeadOk, DiskData, PinsOk, LogShape, Logged;
    CrashData(s);
    var lh := Head(s.disk[s.start]);
    assert lh[0..] == lh;
  }

  /** One home block gets its logged contents, which are the committed ones. */
  lemma RecoveredDisk(start: nat, disk: seq<Block>, lh: seq<int>, i: nat, current: seq<Block>, committed: seq<Block>,
      dirty: map<int, nat>)
    requires DiskShape(start, disk) && |current| == |committed| == |disk| && LogShape(start, |disk|, lh) && i < |lh|
    requires DiskData(start, disk, current, lh[i..], dirty) &&
      PhaseOk(start, disk, lh, Recovering(i), current, committed)
    ensures 0 <= lh[i] < |disk| && 0 <= LogBlock(start, i) < |disk|
    ensures var disk' := disk[lh[i] := disk[LogBlock(start, i)]];
            && DiskShape(start, disk') && DiskData(start, disk', current, lh[i + 1..], dirty)
            && PhaseOk(start, disk', lh, Recovering(i + 1), current, committed)
  {
    hide Head;
    assert Home(start, |disk|, lh[i]) && disk[LogBlock(start, i)] == current[lh[i]];
    assert lh[i..] == [lh[i]] + lh[i + 1..];
  }

  lemma RecoverOneKeeps(s: Sys)
    requires Inv(s) && Enabled(s, RecoverOne)
    ensures Inv(Next(s, RecoverOne))
  {
    hide DiskShape, LogShape, DiskData, PhaseOk;
    RecoveredDisk(s.start, s.disk, s.lh, s.phase.i, s.current, s.committed, s.dirty);
  }

  lemma RecoverClearKeeps(s: Sys)
    requires Inv(s) && Enabled(s, RecoverClear)
    ensures Inv(Next(s, RecoverClear))
  {
    hide DiskShape, LogShape, HeadOk, Head, WithHead, Logged, DiskData, SameHome;
    assert forall b :: b !in s.dirty;
    assert s.dirty == map[];
    assert Rest(s.lh, s.phase) == [];
    assert |s.disk[s.start]| == WORDS by { HeadWords(s.start, s.disk); }
    HeadWithHead(s.disk[s.start], []);
    InstalledAll(s.start, s.disk, s.lh, s.current, s.committed, WithHead(s.disk[s.start], []));
  }

  lemma HeadWords(start: nat, disk: seq<Block>)
    requires DiskShape(start, disk)
    ensures start < |disk| && |disk[start]| == WORDS
  {
  }

  lemma EndCommitKeeps(s: Sys)
    requires Inv(s) && Enabled(s, EndCommit)
    ensures Inv(Next(s, EndCommit))
  {
  }

  /** Every event keeps the invariant, whatever the operations log and also if it panics. */
  lemma StepKeeps(s: Sys, e: Event)
    requires Inv(s) && Enabled(s, e)
    ensures Inv(Next(s, e))
  {
    hide Inv, Next;
    match e
    case BeginOp(t) => BeginOpKeeps(s, t);
    case Get(t, b) => GetKeeps(s, t, b);
    case Lock(t, b) => LockKeeps(s, t, b);
    case Modify(t, b, v) => ModifyKeeps(s, t, b, v);
    case LogWrite(t, b) => LogWriteKeeps(s, t, b);
    case Unlock(t, b) => UnlockKeeps(s, t, b);
    case Drop(t, b) => DropKeeps(s, t, b);
    case Evict(b) => EvictKeeps(s, b);
    case EndOp(t) => EndOpKeeps(s, t);
    case CopyOne => CopyOneKeeps(s);
    case CommitHead => CommitHeadKeeps(s);
    case InstallOne => InstallOneKeeps(s);
    case ClearLog => ClearLogKeeps(s);
    case EndCommit => EndCommitKeeps(s);
    case Crash => CrashKeeps(s);
    case RecoverOne => RecoverOneKeeps(s);
    case RecoverClear => RecoverClearKeeps(s);
  }

  /** The one panic of log.c that can happen is log_write's on a full log. */
  lemma PanicsIff(s: Sys, e: Event)
    requires Inv(s) && Enabled(s, e) && !s.panicked
    ensures Next(s, e).panicked <==> e.LogWrite? && |s.lh| == LOGBLOCKS
  {
    hide DiskShape, CacheShape, LocksOk, PinsOk, CacheData, DiskData, PhaseOk;
    if e.LogWrite? {
      assert e.t in s.ops.Keys;
    }
  }

  // ------------------------------------------------------------- the atomic store

  /** What a file system call can see, and what a crash leaves. */
  datatype Store = Store(current: seq<Block>, committed: seq<Block>)

  /**
   An atomic store's steps: a write at Modify, a commit of everything written at CommitHead, a loss of the rest at
   Crash.
   */
  ghost predicate StoreStep(u: Store, e: Event, v: Store, start: nat, idle: bool) {
    match e
    case Modify(_, b, d) => Home(start, |u.current|, b) && v == u.(current := u.current[b := d])
    case CommitHead => idle && v == u.(committed := u.current)
    case Crash => v == u.(current := u.committed)
    case _ => v == u
  }

  /**
   The disk, the cache and the log together behave as an atomic store: each event is the step of the store it
   stands for, or none, and a commit happens only with no operation in progress.
   */
  lemma Refines(s: Sys, e: Event)
    requires Inv(s) && Enabled(s, e)
    ensures Inv(Next(s, e))
    ensures var s' := Next(s, e);
            && |s'.disk| == |s.disk| && s'.start == s.start
            && StoreStep(Store(s.current, s.committed), e, Store(s'.current, s'.committed), s.start, s.ops == map[])
  {
    hide LocksOk, PinsOk, CacheData, DiskData, PhaseOk, DirtyOk, DiskShape, CacheShape, LogShape, Head, WithHead;
    StepKeeps(s, e);
  }

  /**
   The same in terms of the disk and the cache alone.  What recovery would restore changes only at the header
   write, to what reads give; what reads give changes only at Modify, in that block, or at a crash.
   */
  lemma Observable(s: Sys, e: Event, b: int)
    requires Inv(s) && Enabled(s, e) && Home(s.start, |s.disk|, b)
    ensures Inv(Next(s, e)) && Next(s, e).start == s.start && Home(s.start, |Next(s, e).disk|, b)
    ensures Durable(s.start, Next(s, e).disk, b) == if e.CommitHead? then Seen(s, b) else Durable(s.start, s.disk, b)
    ensures !s.phase.Recovering? && !e.Crash? ==>
      Seen(Next(s, e), b) == if e.Modify? && e.b == b then e.v else Seen(s, b)
    ensures s.phase.Recovering? && e.RecoverClear? ==> Seen(Next(s, e), b) == Durable(s.start, s.disk, b)
  {
    hide Next, Durable, ControlOk, DirtyOk, LocksOk, PinsOk, CacheData, DiskData, PhaseOk;
    Refines(s, e);
    DurableIsCommitted(s, b);
    DurableIsCommitted(Next(s, e), b);
    PhaseKept(s, e);
    if !s.phase.Recovering? {
      ReadsCurrent(s, b);
    }
    if !Next(s, e).phase.Recovering? {
      ReadsCurrent(Next(s, e), b);
      if s.phase.Recovering? {
        RecoveringCurrent(s, b);
      }
    }
  }

  lemma PhaseKept(s: Sys, e: Event)
    requires Inv(s) && Enabled(s, e)
    ensures !s.phase.Recovering? && !e.Crash? ==> !Next(s, e).phase.Recovering?
    ensures e.RecoverClear? ==> !Next(s, e).phase.Recovering?
    ensures e.CommitHead? ==> !s.phase.Recovering?
  {
    hide LocksOk, PinsOk, CacheData, DiskData, PhaseOk, DirtyOk, CacheShape, LogShape, Head, WithHead;
  }

  lemma RecoveringCurrent(s: Sys, b: int)
    requires Inv(s) && s.phase.Recovering? && Home(s.start, |s.disk|, b)
    ensures s.current[b] == s.committed[b]
  {
  }

  /** bread returns the current contents of any home block. */
  lemma ReadsCurrent(s: Sys, b: int)
    requires Inv(s) && Home(s.start, |s.disk|, b) && !s.phase.Recovering?
    ensures Seen(s, b) == s.current[b]
  {
  }

  function Find(bs: seq<int>, b: int): (i: nat)
    ensures i <= |bs| && (i < |bs| ==> bs[i] == b) && (i == |bs| ==> b !in bs)
  {
    if bs == [] || bs[0] == b then 0 else 1 + Find(bs[1..], b)
  }

  /** What a recovery started now would leave in home block b: the log's copy if the header names b. */
  function Durable(start: nat, disk: seq<Block>, b: int): Block
    requires DiskShape(start, disk) && Home(start, |disk|, b)
  {
    var i := Find(Head(disk[start]), b);
    if i < |Head(disk[start])| then disk[LogBlock(start, i)] else disk[b]
  }

  /** In every state what a recovery would leave is the committed contents. */
  lemma DurableIsCommitted(s: Sys, b: int)
    requires Inv(s) && Home(s.start, |s.disk|, b)
    ensures Durable(s.start, s.disk, b) == s.committed[b]
  {
  }

  // ------------------------------------------------------------------------ whole runs

  ghost predicate Run(s: Sys, es: seq<Event>, t: Sys)
    requires Inv(s)
    decreases |es|
  {
    if es == [] then s == t
    else Enabled(s, es[0]) && (StepKeeps(s, es[0]); Run(Next(s, es[0]), es[1..], t))
  }

  lemma {:induction false} RunKeeps(s: Sys, es: seq<Event>, t: Sys)
    requires Inv(s) && Run(s, es, t)
    ensures Inv(t) && t.start == s.start && |t.disk| == |s.disk|
    decreases |es|
  {
    hide ControlOk, DirtyOk, LocksOk, PinsOk, CacheData, DiskData, PhaseOk, Next;
    if es != [] {
      StepKeeps(s, es[0]);
      Refines(s, es[0]);
      RunKeeps(Next(s, es[0]), es[1..], t);
    }
  }

  /** A machine about to recover: nothing cached, the disk as the last run left it. */
  ghost function Booting(start: nat, disk: seq<Block>): Sys
    requires DiskShape(start, disk)
  {
    var kept := seq(|disk|, b requires 0 <= b < |disk| => if Home(start, |disk|, b) then Durable(start, disk, b)
      else disk[b]);
    Sys(start, disk, map[], Head(disk[start]), false, Recovering(0), map[], map[], false, kept, kept)
  }

  /** A disk whose header names distinct home blocks, as every run leaves it. */
  ghost predicate GoodDisk(start: nat, disk: seq<Block>) {
    DiskShape(start, disk) && LogShape(start, |disk|, Head(disk[start]))
  }

  lemma BootingInv(start: nat, disk: seq<Block>)
    requires GoodDisk(start, disk)
    ensures Inv(Booting(start, disk))
  {
  }

  /**
   From any good disk, after any run with any number of operations of any size, commits, panics, crashes and
   crashes during recovery: what a recovery would leave is the committed contents, and once
   the machine is out of recovery with nothing logged, the home blocks are those contents.
   */
  lemma CrashAtomicity(start: nat, disk: seq<Block>, es: seq<Event>, t: Sys)
    requires GoodDisk(start, disk)
    requires Inv(Booting(start, disk)) && Run(Booting(start, disk), es, t)
    ensures GoodDisk(start, t.disk) && |t.disk| == |t.committed| == |disk|
    ensures forall b :: Home(start, |disk|, b) ==>
      Home(start, |t.disk|, b) && Durable(start, t.disk, b) == t.committed[b]
    ensures t.phase.Quiet? ==> forall b :: Home(start, |disk|, b) ==> t.disk[b] == t.committed[b]
  {
    RunKeeps(Booting(start, disk), es, t);
    forall b | Home(start, |disk|, b)
      ensures Home(start, |t.disk|, b) && Durable(start, t.disk, b) == t.committed[b]
    {
      DurableIsCommitted(t, b);
    }
  }
}
