/**
 The write-ahead log over the buffer cache, as steps that any number of threads interleave,
 with a crash possible between any two disk writes.  `current` and `committed` say what the
 file system calls have written and what survives a crash; no step reads them.
 */
module LogModel {
  import opened Sequences

  const MAXOPBLOCKS: nat := 10
  const LOGBLOCKS: nat := 30
  const WORDS: nat := 256

  type Block = seq<int>

  /** A cached block: the threads that hold a reference, the pins of the log, and the lock holder. */
  datatype Buf = Buf(data: Block, users: set<nat>, pins: nat, lock: int)

  const NOBODY: int := -1

  datatype Phase =
    | Quiet              // no commit in progress
    | Copying(i: nat)    // write_log, i blocks copied
    | Installing(i: nat) // install_trans after the commit, i blocks installed
    | Recovering(i: nat) // install_trans after a crash, i blocks installed

  /** An operation: the log blocks it has taken, and the different blocks it has passed to log_write. */
  datatype Op = Op(taken: nat, passed: set<int>)

  datatype Sys = Sys(
    start: nat,
    disk: seq<Block>,
    cache: map<int, Buf>,
    lh: seq<int>,
    committing: bool,
    phase: Phase,
    ops: map<nat, Op>,      // threads between begin_op and end_op
    dirty: map<int, nat>,   // blocks modified and not yet passed to log_write, with the thread
    panicked: bool,
    current: seq<Block>,
    committed: seq<Block>)

  /** A block that is neither the log header nor one of the log blocks. */
  predicate Home(start: nat, size: nat, b: int) {
    0 <= b < size && !(start <= b <= start + LOGBLOCKS)
  }

  // ------------------------------------------------------------------- the header block

  /** The count fits lh.block, which read_head fills without a check. */
  predicate HeadOk(d: Block) {
    |d| == WORDS && d[0] <= LOGBLOCKS
  }

  /** read_head: the block numbers recorded in a header block; a negative count is an empty log. */
  function Head(d: Block): seq<int>
    requires |d| == WORDS
  {
    if 0 <= d[0] <= LOGBLOCKS then d[1..1 + d[0]] else []
  }

  /** write_head: the count and the numbers are stored, the rest of the block stays. */
  function WithHead(d: Block, bs: seq<int>): (r: Block)
    requires |d| == WORDS && |bs| <= LOGBLOCKS
    ensures |r| == WORDS && HeadOk(r)
  {
    [|bs|] + bs + d[1 + |bs|..]
  }

  lemma HeadWithHead(d: Block, bs: seq<int>)
    requires |d| == WORDS && |bs| <= LOGBLOCKS
    ensures Head(WithHead(d, bs)) == bs
  {
  }

  // -------------------------------------------------------------------------- events

  datatype Event =
    | BeginOp(t: nat)
    | Get(t: nat, b: int)
    | Lock(t: nat, b: int)
    | Modify(t: nat, b: int, v: Block)
    | LogWrite(t: nat, b: int)
    | Unlock(t: nat, b: int)
    | Drop(t: nat, b: int)
    | Evict(b: int)
    | EndOp(t: nat)
    | CopyOne
    | CommitHead
    | InstallOne
    | ClearLog
    | EndCommit
    | Crash
    | RecoverOne
    | RecoverClear

  /** A block a thread can bread now: nobody holds its lock. */
  predicate Unlocked(s: Sys, b: int) {
    b in s.cache ==> s.cache[b].lock == NOBODY
  }

  function LogBlock(start: nat, i: nat): int {
    start + 1 + i
  }

  /**
   When an event can happen; after a panic only a crash can.  The conditions on Modify, LogWrite and
   Unlock are the callers' side: modify a locked buffer inside an operation, and log it before releasing it.
   */
  predicate Enabled(s: Sys, e: Event) {
    (s.panicked ==> e.Crash?) &&
    match e
    case BeginOp(t) =>
      && !s.phase.Recovering? && t !in s.ops && !s.committing
      && |s.lh| + (|s.ops| + 1) * MAXOPBLOCKS <= LOGBLOCKS
    case Get(t, b) => !s.phase.Recovering? && 0 <= b < |s.disk| && (b in s.cache ==> t !in s.cache[b].users)
    case Lock(t, b) => b in s.cache && t in s.cache[b].users && s.cache[b].lock == NOBODY
    case Modify(t, b, v) =>
      t in s.ops && Home(s.start, |s.disk|, b) && b in s.cache && s.cache[b].lock == t &&
      |v| == WORDS
    case LogWrite(t, b) =>
      t in s.ops && Home(s.start, |s.disk|, b) && b in s.cache && s.cache[b].lock == t
    case Unlock(t, b) => b in s.cache && s.cache[b].lock == t && b !in s.dirty
    case Drop(t, b) => b in s.cache && t in s.cache[b].users && s.cache[b].lock != t
    case Evict(b) => b in s.cache && s.cache[b].users == {} && s.cache[b].pins == 0
    case EndOp(t) => t in s.ops && forall b :: b in s.dirty ==> s.dirty[b] != t
    case CopyOne =>
      s.phase.Copying? && s.phase.i < |s.lh| && Unlocked(s, s.lh[s.phase.i]) &&
      Unlocked(s, LogBlock(s.start, s.phase.i))
    case CommitHead => s.phase.Copying? && s.phase.i == |s.lh| && Unlocked(s, s.start)
    case InstallOne =>
      s.phase.Installing? && s.phase.i < |s.lh| && Unlocked(s, s.lh[s.phase.i]) &&
      Unlocked(s, LogBlock(s.start, s.phase.i))
    case ClearLog => s.phase.Installing? && s.phase.i == |s.lh| && Unlocked(s, s.start)
    case EndCommit => s.phase.Quiet? && s.committing
    case Crash => true
    case RecoverOne => s.phase.Recovering? && s.phase.i < |s.lh|
    case RecoverClear => s.phase.Recovering? && s.phase.i == |s.lh|
  }

  /** bread of a block: the cached copy, or the disk's. */
  function Seen(s: Sys, b: int): Block
    requires 0 <= b < |s.disk|
  {
    if b in s.cache then s.cache[b].data else s.disk[b]
  }

  /** bwrite: the disk gets the block, and a cached copy is the one that was written. */
  function Written(s: Sys, b: int, v: Block): Sys
    requires 0 <= b < |s.disk|
  {
    s.(disk := s.disk[b := v],
       cache := if b in s.cache then s.cache[b := s.cache[b].(data := v)] else s.cache)
  }

  function Unpinned(s: Sys, b: int): Sys {
    if b in s.cache && s.cache[b].pins > 0
    then s.(cache := s.cache[b := s.cache[b].(pins := s.cache[b].pins - 1)])
    else s
  }

  predicate DiskShape(start: nat, disk: seq<Block>) {
    start + LOGBLOCKS < |disk| && HeadOk(disk[start]) && forall b :: 0 <= b < |disk| ==> |disk[b]| == WORDS
  }

  predicate CacheShape(size: nat, cache: map<int, Buf>) {
    forall b :: b in cache ==> 0 <= b < size && |cache[b].data| == WORDS
  }

  /** The logged block numbers are distinct home blocks. */
  ghost predicate LogShape(start: nat, size: nat, lh: seq<int>) {
    |lh| <= LOGBLOCKS && NoDup(lh) && forall i :: 0 <= i < |lh| ==> Home(start, size, lh[i])
  }

  ghost predicate Shape(s: Sys) {
    && DiskShape(s.start, s.disk)
    && CacheShape(|s.disk|, s.cache)
    && LogShape(s.start, |s.disk|, s.lh)
    && |s.current| == |s.disk| && |s.committed| == |s.disk|
  }

  /** The effect of an event, panics included. */
  function Next(s: Sys, e: Event): Sys
    requires Shape(s) && Enabled(s, e)
  {
    match e
    case BeginOp(t) => s.(ops := s.ops[t := Op(0, {})])
    case Get(t, b) =>
      if b in s.cache then s.(cache := s.cache[b := s.cache[b].(users := s.cache[b].users + {t})])
      else s.(cache := s.cache[b := Buf(s.disk[b], {t}, 0, t)])
    case Lock(t, b) => s.(cache := s.cache[b := s.cache[b].(lock := t)])
    case Modify(t, b, v) =>
      s.(cache := s.cache[b := s.cache[b].(data := v)], dirty := s.dirty[b := t], current := s.current[b := v])
    case LogWrite(t, b) =>
      if |s.lh| >= LOGBLOCKS || |s.ops| < 1 then s.(panicked := true)
      else
        var op := s.ops[t].(passed := s.ops[t].passed + {b});
        if b in s.lh then s.(ops := s.ops[t := op], dirty := s.dirty - {b})
        else s.(ops := s.ops[t := op.(taken := op.taken + 1)], dirty := s.dirty - {b}, lh := s.lh + [b],
                cache := s.cache[b := s.cache[b].(pins := s.cache[b].pins + 1)])
    case Unlock(t, b) => s.(cache := s.cache[b := s.cache[b].(lock := NOBODY)])
    case Drop(t, b) => s.(cache := s.cache[b := s.cache[b].(users := s.cache[b].users - {t})])
    case Evict(b) => s.(cache := s.cache - {b})
    case EndOp(t) =>
      var s' := s.(ops := s.ops - {t});
      if s.committing then s'.(panicked := true)
      else if s'.ops == map[] then s'.(committing := true, phase := if s.lh == [] then Quiet else Copying(0))
      else s'
    case CopyOne =>
      Written(s, LogBlock(s.start, s.phase.i), Seen(s, s.lh[s.phase.i])).(phase := Copying(s.phase.i + 1))
    case CommitHead =>
      Written(s, s.start, WithHead(Seen(s, s.start), s.lh)).(phase := Installing(0), committed := s.current)
    case InstallOne =>
      var b := s.lh[s.phase.i];
      Unpinned(Written(s, b, Seen(s, LogBlock(s.start, s.phase.i))), b).(phase := Installing(s.phase.i + 1))
    case ClearLog =>
      Written(s, s.start, WithHead(Seen(s, s.start), [])).(phase := Quiet, lh := [])
    case EndCommit => s.(committing := false)
    case Crash =>
      s.(cache := map[], lh := Head(s.disk[s.start]), committing := false, phase := Recovering(0),
         ops := map[], dirty := map[], panicked := false, current := s.committed)
    case RecoverOne =>
      s.(disk := s.disk[s.lh[s.phase.i] := s.disk[LogBlock(s.start, s.phase.i)]], phase := Recovering(s.phase.i + 1))
    case RecoverClear =>
      s.(disk := s.disk[s.start := WithHead(s.disk[s.start], [])], phase := Quiet, lh := [])
  }
}
