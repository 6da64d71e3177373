/**
 What begin_op reserves: log blocks for MAXOPBLOCKS of every operation in progress.  Operations that keep to
 it always find room; log_write's test comes before absorption, so an operation that has used all of its share
 can still fail when it logs one of its blocks again.
 */
module LogReservation {
  import opened LogModel
  import opened LogTheorems

  /** Log blocks that the running operations may still take. */
  ghost function Left(ops: map<nat, Op>): int
    decreases |ops|
  {
    if ops == map[] then 0
    else
      var t :| t in ops;
      assert |ops - {t}| < |ops| by { assert (ops - {t}).Keys == ops.Keys - {t}; }
      MAXOPBLOCKS - ops[t].taken + Left(ops - {t})
  }

  lemma {:induction false} LeftWithout(ops: map<nat, Op>, t: nat)
    requires t in ops
    ensures Left(ops) == MAXOPBLOCKS - ops[t].taken + Left(ops - {t})
    decreases |ops|
  {
    var u :| u in ops && Left(ops) == MAXOPBLOCKS - ops[u].taken + Left(ops - {u});
    if u != t {
      assert (ops - {u}).Keys == ops.Keys - {u};
      assert (ops - {t}).Keys == ops.Keys - {t};
      LeftWithout(ops - {u}, t);
      LeftWithout(ops - {t}, u);
      assert ops - {u} - {t} == ops - {t} - {u};
    }
  }

  lemma {:induction false} LeftBounds(ops: map<nat, Op>)
    requires forall t :: t in ops ==> ops[t].taken <= MAXOPBLOCKS
    ensures 0 <= Left(ops) <= |ops| * MAXOPBLOCKS
    decreases |ops|
  {
    if ops != map[] {
      var t :| t in ops;
      assert (ops - {t}).Keys == ops.Keys - {t};
      LeftWithout(ops, t);
      LeftBounds(ops - {t});
    }
  }

  lemma LeftUpdated(ops: map<nat, Op>, t: nat, op: Op)
    ensures t in ops ==> Left(ops[t := op]) == Left(ops) + ops[t].taken - op.taken
    ensures t !in ops ==> Left(ops[t := op]) == Left(ops) + MAXOPBLOCKS - op.taken
  {
    LeftWithout(ops[t := op], t);
    if t in ops {
      LeftWithout(ops, t);
      assert ops[t := op] - {t} == ops - {t};
    } else {
      assert ops[t := op] - {t} == ops;
    }
  }

  // ------------------------------------------------------------------------ invariant

  /** An operation has taken no more than its share, nor more than it has passed, and what it passed is logged. */
  ghost predicate OpOk(op: Op, lh: seq<int>) {
    op.taken <= MAXOPBLOCKS && op.taken <= |op.passed| && forall b :: b in op.passed ==> b in lh
  }

  /** The log has room for all that the running operations may still take. */
  ghost predicate Reserved(lh: seq<int>, ops: map<nat, Op>) {
    (forall t :: t in ops ==> OpOk(ops[t], lh)) && |lh| + Left(ops) <= LOGBLOCKS
  }

  /** How callers limit themselves: in the log blocks they take, or in the different blocks they pass to log_write. */
  datatype Limit = Share | Distinct(cap: nat)

  ghost predicate Within(s: Sys, e: Event, limit: Limit) {
    e.LogWrite? && e.t in s.ops ==>
      match limit
      case Share => e.b in s.lh || s.ops[e.t].taken < MAXOPBLOCKS
      case Distinct(cap) => |s.ops[e.t].passed + {e.b}| <= cap
  }

  lemma DistinctIsShare(s: Sys, e: Event, cap: nat)
    requires Reserved(s.lh, s.ops) && cap <= MAXOPBLOCKS && Within(s, e, Distinct(cap))
    ensures Within(s, e, Share)
  {
    hide Left;
    if e.LogWrite? && e.t in s.ops && e.b !in s.lh {
      assert OpOk(s.ops[e.t], s.lh);
      assert |s.ops[e.t].passed + {e.b}| == |s.ops[e.t].passed| + 1;
    }
  }

  lemma LoggedReserved(lh: seq<int>, ops: map<nat, Op>, t: nat, b: int)
    requires Reserved(lh, ops) && t in ops
    ensures b in lh ==> Reserved(lh, ops[t := ops[t].(passed := ops[t].passed + {b})])
    ensures b !in lh && ops[t].taken < MAXOPBLOCKS ==>
      Reserved(lh + [b], ops[t := Op(ops[t].taken + 1, ops[t].passed + {b})])
  {
    hide Left;
    var op := ops[t].(passed := ops[t].passed + {b});
    LeftUpdated(ops, t, op);
    LeftUpdated(ops, t, op.(taken := op.taken + 1));
    assert OpOk(ops[t], lh);
    assert b in ops[t].passed ==> op.passed == ops[t].passed;
    assert b !in ops[t].passed ==> |op.passed| == |ops[t].passed| + 1;
  }

  /** begin_op admits an operation only if its share fits, too. */
  lemma BegunReserved(lh: seq<int>, ops: map<nat, Op>, t: nat)
    requires Reserved(lh, ops) && t !in ops && |lh| + (|ops| + 1) * MAXOPBLOCKS <= LOGBLOCKS
    ensures Reserved(lh, ops[t := Op(0, {})])
  {
    hide Left;
    LeftBounds(ops);
    LeftUpdated(ops, t, Op(0, {}));
  }

  lemma EndedReserved(lh: seq<int>, ops: map<nat, Op>, t: nat)
    requires Reserved(lh, ops) && t in ops
    ensures Reserved(lh, ops - {t})
  {
    hide Left;
    LeftWithout(ops, t);
  }

  /** Every event of operations that take at most their share keeps the reservation. */
  lemma ReservedStep(s: Sys, e: Event)
    requires Inv(s) && Enabled(s, e) && Reserved(s.lh, s.ops) && Within(s, e, Share)
    ensures Reserved(Next(s, e).lh, Next(s, e).ops)
  {
    hide Reserved, DirtyOk, LocksOk, PinsOk, CacheData, DiskData, PhaseOk, DiskShape, CacheShape, WithHead, Head;
    match e
    case BeginOp(t) => BegunReserved(s.lh, s.ops, t);
    case LogWrite(t, b) => LoggedReserved(s.lh, s.ops, t, b);
    case EndOp(t) => EndedReserved(s.lh, s.ops, t);
    case Crash =>
      StepKeeps(s, e);
      NoneReserved(Next(s, e).lh);
    case ClearLog => NoneReserved([]);
    case RecoverClear => NoneReserved([]);
    case _ =>
  }

  lemma NoneReserved(lh: seq<int>)
    requires |lh| <= LOGBLOCKS
    ensures Reserved(lh, map[])
  {
  }

  // ------------------------------------------------------------------------ whole runs

  /** A run whose operations keep to the limit. */
  ghost predicate RunWithin(s: Sys, es: seq<Event>, t: Sys, limit: Limit)
    requires Inv(s)
    decreases |es|
  {
    if es == [] then s == t
    else
      Enabled(s, es[0]) && Within(s, es[0], limit) &&
      (StepKeeps(s, es[0]); RunWithin(Next(s, es[0]), es[1..], t, limit))
  }

  lemma {:induction false} ReservedInRun(s: Sys, es: seq<Event>, t: Sys, limit: Limit)
    requires Inv(s) && Reserved(s.lh, s.ops) && RunWithin(s, es, t, limit)
    requires limit.Distinct? ==> limit.cap <= MAXOPBLOCKS
    ensures Inv(t) && Reserved(t.lh, t.ops)
    ensures s.panicked || limit.Share? || limit.cap == MAXOPBLOCKS || !t.panicked
    decreases |es|
  {
    hide ControlOk, DirtyOk, LocksOk, PinsOk, CacheData, DiskData, PhaseOk, Reserved, Within, Next;
    if es != [] {
      StepKeeps(s, es[0]);
      if limit.Distinct? {
        DistinctIsShare(s, es[0], limit.cap);
      }
      ReservedStep(s, es[0]);
      if !s.panicked && limit.Distinct? && limit.cap < MAXOPBLOCKS {
        RoomBelow(s, es[0], limit.cap);
      }
      ReservedInRun(Next(s, es[0]), es[1..], t, limit);
    }
  }

  /** A full log means that every running operation has taken its whole share. */
  lemma FullLog(lh: seq<int>, ops: map<nat, Op>, t: nat)
    requires Reserved(lh, ops) && t in ops && |lh| >= LOGBLOCKS
    ensures ops[t].taken == MAXOPBLOCKS && |ops[t].passed| >= MAXOPBLOCKS
  {
    hide Left;
    LeftWithout(ops, t);
    LeftBounds(ops - {t});
    assert OpOk(ops[t], lh);
  }

  lemma RoomBelow(s: Sys, e: Event, cap: nat)
    requires Inv(s) && Enabled(s, e) && !s.panicked && Reserved(s.lh, s.ops)
    requires cap < MAXOPBLOCKS && Within(s, e, Distinct(cap))
    ensures !Next(s, e).panicked
  {
    hide Inv, Reserved, Next;
    PanicsIff(s, e);
    if e.LogWrite? && |s.lh| == LOGBLOCKS {
      FullLog(s.lh, s.ops, e.t);
      More(s.ops[e.t].passed, e.b);
    }
  }

  lemma More(p: set<int>, b: int)
    ensures |p + {b}| >= |p|
  {
    assert b in p ==> p + {b} == p;
    assert b !in p ==> |p + {b}| == |p| + 1;
  }

  /**
   In every run of operations that take at most MAXOPBLOCKS log blocks each, from any good disk: log_write panics
   exactly on a full log, and never for a caller that has taken fewer.
   */
  lemma ReservationHolds(start: nat, disk: seq<Block>, es: seq<Event>, s: Sys, t: nat, b: int)
    requires GoodDisk(start, disk) && Inv(Booting(start, disk)) && RunWithin(Booting(start, disk), es, s, Share)
    requires Enabled(s, LogWrite(t, b)) && !s.panicked
    ensures Inv(s) && (Next(s, LogWrite(t, b)).panicked <==> |s.lh| == LOGBLOCKS)
    ensures s.ops[t].taken < MAXOPBLOCKS ==> !Next(s, LogWrite(t, b)).panicked
  {
    hide Inv, Reserved, Next;
    BootReserved(start, disk);
    ReservedInRun(Booting(start, disk), es, s, Share);
    PanicsIff(s, LogWrite(t, b));
    if |s.lh| == LOGBLOCKS {
      FullLog(s.lh, s.ops, t);
    }
  }

  /** Operations that pass fewer than MAXOPBLOCKS different blocks to log_write, however often, never panic. */
  lemma FewBlocksNeverPanic(start: nat, disk: seq<Block>, es: seq<Event>, s: Sys)
    requires GoodDisk(start, disk) && Inv(Booting(start, disk))
    requires RunWithin(Booting(start, disk), es, s, Distinct(MAXOPBLOCKS - 1))
    ensures !s.panicked
  {
    hide Inv, Reserved, Next;
    BootReserved(start, disk);
    ReservedInRun(Booting(start, disk), es, s, Distinct(MAXOPBLOCKS - 1));
  }

  lemma BootReserved(start: nat, disk: seq<Block>)
    requires GoodDisk(start, disk)
    ensures Reserved(Booting(start, disk).lh, Booting(start, disk).ops) && !Booting(start, disk).panicked
  {
    hide Head;
    NoneReserved(Head(disk[start]));
  }

  // ------------------------------------------------------------------------ the share used up

  lemma NoEvents(s: Sys, t: Sys, limit: Limit)
    requires Inv(s)
    ensures RunWithin(s, [], t, limit) <==> s == t
  {
  }

  lemma FirstStep(s: Sys, es: seq<Event>, t: Sys, limit: Limit)
    requires Inv(s) && es != []
    ensures RunWithin(s, es, t, limit) <==>
      Enabled(s, es[0]) && Within(s, es[0], limit) && Inv(Next(s, es[0])) &&
      RunWithin(Next(s, es[0]), es[1..], t, limit)
  {
    hide ControlOk, DirtyOk, LocksOk, PinsOk, CacheData, DiskData, PhaseOk, Within, Next;
    if Enabled(s, es[0]) {
      StepKeeps(s, es[0]);
    }
  }

  lemma {:induction false} RunsJoin(s: Sys, es: seq<Event>, t: Sys, fs: seq<Event>, u: Sys, limit: Limit)
    requires Inv(s) && RunWithin(s, es, t, limit) && Inv(t) && RunWithin(t, fs, u, limit)
    ensures RunWithin(s, es + fs, u, limit)
    decreases |es|
  {
    hide ControlOk, DirtyOk, LocksOk, PinsOk, CacheData, DiskData, PhaseOk, DiskShape, CacheShape, LogShape;
    hide Within, Enabled, Next, RunWithin;
    if es == [] {
      NoEvents(s, t, limit);
      assert es + fs == fs;
    } else {
      FirstStep(s, es, t, limit);
      RunsJoin(Next(s, es[0]), es[1..], t, fs, u, limit);
      assert (es + fs)[1..] == es[1..] + fs;
      FirstStep(s, es + fs, u, limit);
    }
  }

  lemma Extend(s: Sys, es: seq<Event>, t: Sys, e: Event, limit: Limit)
    requires Inv(s) && RunWithin(s, es, t, limit) && Inv(t) && Enabled(t, e) && Within(t, e, limit)
    ensures Inv(Next(t, e)) && RunWithin(s, es + [e], Next(t, e), limit)
  {
    hide ControlOk, DirtyOk, LocksOk, PinsOk, CacheData, DiskData, PhaseOk, DiskShape, CacheShape, LogShape;
    hide Within, Enabled, Next, RunWithin;
    StepKeeps(t, e);
    NoEvents(Next(t, e), Next(t, e), limit);
    assert [e][1..] == [];
    FirstStep(t, [e], Next(t, e), limit);
    RunsJoin(s, es, t, [e], Next(t, e), limit);
  }

  /** The blocks that are thread t's to log, of those from b on. */
  function Batch(b: int, t: nat): set<int> {
    var a := b + t * MAXOPBLOCKS;
    {a, a + 1, a + 2, a + 3, a + 4, a + 5, a + 6, a + 7, a + 8, a + 9}
  }

  /**
   Threads 0, 1 and 2 are in operations, each to log a batch of the blocks from b on; so far `read` blocks have been
   read, `logged` of them logged, and `freed` of those unlocked again.
   */
  ghost predicate Filling(s: Sys, b: int, read: nat, logged: nat, freed: nat) {
    && s.phase.Quiet? && !s.panicked && s.dirty == map[] && freed <= logged <= read <= LOGBLOCKS
    && s.start + LOGBLOCKS < b && b + LOGBLOCKS <= |s.disk|
    && |s.lh| == logged && (forall j :: 0 <= j < logged ==> s.lh[j] == b + j)
    && (forall x :: b + read <= x < b + LOGBLOCKS ==> x !in s.cache)
    && (forall x :: b <= x < b + read ==> Held(s.cache, b, x, freed))
    && (forall t: nat :: t < 3 ==> t in s.ops && s.ops[t].passed <= Batch(b, t))
  }

  ghost predicate Held(cache: map<int, Buf>, b: int, x: int, freed: nat)
    requires b <= x
  {
    var t := (x - b) / MAXOPBLOCKS;
    x in cache && t in cache[x].users && cache[x].lock == if x < b + freed then NOBODY else t
  }

  lemma FillGet(s: Sys, b: int, n: nat)
    requires Inv(s) && Filling(s, b, n, n, n) && n < LOGBLOCKS
    ensures var e := Get(n / MAXOPBLOCKS, b + n);
            Enabled(s, e) && Within(s, e, Distinct(MAXOPBLOCKS)) && Filling(Next(s, e), b, n + 1, n, n)
  {
    hide ControlOk, DirtyOk, LocksOk, PinsOk, CacheData, DiskData, PhaseOk, DiskShape, CacheShape, LogShape, Batch;
    var cache := Next(s, Get(n / MAXOPBLOCKS, b + n)).cache;
    forall x | b <= x < b + n + 1
      ensures Held(cache, b, x, n)
    {
      assert x < b + n ==> Held(s.cache, b, x, n);
    }
  }

  lemma FillLog(s: Sys, b: int, n: nat)
    requires Inv(s) && Filling(s, b, n + 1, n, n)
    ensures var e := LogWrite(n / MAXOPBLOCKS, b + n);
            Enabled(s, e) && Within(s, e, Distinct(MAXOPBLOCKS)) && Filling(Next(s, e), b, n + 1, n + 1, n)
  {
    hide ControlOk, DirtyOk, LocksOk, PinsOk, CacheData, DiskData, PhaseOk, DiskShape, CacheShape, LogShape, Batch;
    var t, x := n / MAXOPBLOCKS, b + n;
    assert Held(s.cache, b, x, n) && t in s.ops.Keys;
    InBatch(b, n, s.ops[t].passed);
    assert s.dirty - {x} == s.dirty;
    var cache := Next(s, LogWrite(t, x)).cache;
    forall y | b <= y < b + n + 1
      ensures Held(cache, b, y, n)
    {
      assert Held(s.cache, b, y, n);
    }
  }

  lemma InBatch(b: int, n: nat, passed: set<int>)
    requires passed <= Batch(b, n / MAXOPBLOCKS)
    ensures passed + {b + n} <= Batch(b, n / MAXOPBLOCKS) && |passed + {b + n}| <= MAXOPBLOCKS
  {
    var p, a := passed + {b + n}, Batch(b, n / MAXOPBLOCKS);
    assert b + n in a;
    assert a == p + (a - p);
  }

  lemma FillUnlock(s: Sys, b: int, n: nat)
    requires Inv(s) && Filling(s, b, n + 1, n + 1, n)
    ensures var e := Unlock(n / MAXOPBLOCKS, b + n);
            Enabled(s, e) && Within(s, e, Distinct(MAXOPBLOCKS)) && Filling(Next(s, e), b, n + 1, n + 1, n + 1)
  {
    hide ControlOk, DirtyOk, LocksOk, PinsOk, CacheData, DiskData, PhaseOk, DiskShape, CacheShape, LogShape, Batch;
    assert Held(s.cache, b, b + n, n);
    var cache, freed := Next(s, Unlock(n / MAXOPBLOCKS, b + n)).cache, n + 1;
    forall x | b <= x < b + n + 1
      ensures Held(cache, b, x, freed)
    {
      assert Held(s.cache, b, x, n);
    }
  }

  lemma {:induction false} FillUpTo(s: Sys, b: int, n: nat) returns (es: seq<Event>, u: Sys)
    requires Inv(s) && Filling(s, b, 0, 0, 0) && n <= LOGBLOCKS
    ensures Inv(u) && RunWithin(s, es, u, Distinct(MAXOPBLOCKS)) && Filling(u, b, n, n, n)
    decreases n
  {
    hide ControlOk, DirtyOk, LocksOk, PinsOk, CacheData, DiskData, PhaseOk, DiskShape, CacheShape, LogShape;
    hide Within, Next, Enabled, Filling, RunWithin;
    if n == 0 {
      es, u := [], s;
      NoEvents(s, s, Distinct(MAXOPBLOCKS));
    } else {
      es, u := FillUpTo(s, b, n - 1);
      var t, x, limit := (n - 1) / MAXOPBLOCKS, b + n - 1, Distinct(MAXOPBLOCKS);
      FillGet(u, b, n - 1);
      Extend(s, es, u, Get(t, x), limit);
      es, u := es + [Get(t, x)], Next(u, Get(t, x));
      FillLog(u, b, n - 1);
      Extend(s, es, u, LogWrite(t, x), limit);
      es, u := es + [LogWrite(t, x)], Next(u, LogWrite(t, x));
      FillUnlock(u, b, n - 1);
      Extend(s, es, u, Unlock(t, x), limit);
      es, u := es + [Unlock(t, x)], Next(u, Unlock(t, x));
    }
  }

  /** The threads below n are in operations and nothing else has happened. */
  ghost predicate Begun(s: Sys, n: nat) {
    && s.phase.Quiet? && !s.panicked && !s.committing && s.lh == [] && s.cache == map[] && s.dirty == map[]
    && |s.ops| == n && (forall t: nat :: t in s.ops <==> t < n) && (forall t :: t in s.ops ==> s.ops[t] == Op(0, {}))
  }

  lemma BeginNext(s: Sys, n: nat)
    requires Inv(s) && Begun(s, n) && n < 3
    ensures Enabled(s, BeginOp(n)) && Within(s, BeginOp(n), Distinct(MAXOPBLOCKS)) && Begun(Next(s, BeginOp(n)), n + 1)
  {
    hide ControlOk, DirtyOk, LocksOk, PinsOk, CacheData, DiskData, PhaseOk;
  }

  /** Three operations begin on a freshly recovered machine. */
  lemma BeginThree(start: nat, disk: seq<Block>) returns (es: seq<Event>, u: Sys)
    requires GoodDisk(start, disk) && Inv(Booting(start, disk)) && Head(disk[start]) == []
    requires start + 2 * LOGBLOCKS < |disk|
    ensures Inv(u) && RunWithin(Booting(start, disk), es, u, Distinct(MAXOPBLOCKS))
    ensures Filling(u, start + LOGBLOCKS + 1, 0, 0, 0)
  {
    hide ControlOk, DirtyOk, LocksOk, PinsOk, CacheData, DiskData, PhaseOk, Head, WithHead, Batch, RunWithin;
    var s, limit := Booting(start, disk), Distinct(MAXOPBLOCKS);
    NoEvents(s, s, limit);
    es, u := [], s;
    Extend(s, es, u, RecoverClear, limit);
    es, u := es + [RecoverClear], Next(u, RecoverClear);
    for t: nat := 0 to 3
      invariant Inv(u) && RunWithin(s, es, u, limit) && Begun(u, t) && u.start == start && |u.disk| == |disk|
    {
      BeginNext(u, t);
      Extend(s, es, u, BeginOp(t), limit);
      es, u := es + [BeginOp(t)], Next(u, BeginOp(t));
    }
  }

  /**
   MAXOPBLOCKS different blocks for each operation are one too many: once three operations have logged that many
   each, one of them panics when it logs its first block again.
   */
  lemma FullShareCanPanic(start: nat, disk: seq<Block>) returns (es: seq<Event>, u: Sys)
    requires GoodDisk(start, disk) && Inv(Booting(start, disk)) && Head(disk[start]) == []
    requires start + 2 * LOGBLOCKS < |disk|
    ensures RunWithin(Booting(start, disk), es, u, Distinct(MAXOPBLOCKS)) && u.panicked
  {
    hide ControlOk, DirtyOk, LocksOk, PinsOk, CacheData, DiskData, PhaseOk, DiskShape, CacheShape, LogShape;
    hide Within, Next, Enabled, Filling, RunWithin;
    var s, b, limit := Booting(start, disk), start + LOGBLOCKS + 1, Distinct(MAXOPBLOCKS);
    var s0, fs;
    es, s0 := BeginThree(start, disk);
    fs, u := FillUpTo(s0, b, LOGBLOCKS);
    RunsJoin(s, es, s0, fs, u, limit);
    es := es + fs;
    FilledPanics(u, b);
    Extend(s, es, u, Lock(0, b), limit);
    es, u := es + [Lock(0, b)], Next(u, Lock(0, b));
    Extend(s, es, u, LogWrite(0, b), limit);
    es, u := es + [LogWrite(0, b)], Next(u, LogWrite(0, b));
  }

  lemma FilledPanics(s: Sys, b: int)
    requires Inv(s) && Filling(s, b, LOGBLOCKS, LOGBLOCKS, LOGBLOCKS)
    ensures Enabled(s, Lock(0, b)) && Within(s, Lock(0, b), Distinct(MAXOPBLOCKS))
    ensures var u := Next(s, Lock(0, b));
            && Shape(u) && Enabled(u, LogWrite(0, b)) && Within(u, LogWrite(0, b), Distinct(MAXOPBLOCKS))
            && Next(u, LogWrite(0, b)).panicked
  {
    hide ControlOk, DirtyOk, LocksOk, PinsOk, CacheData, DiskData, PhaseOk, DiskShape, LogShape, Batch;
    assert Held(s.cache, b, b, LOGBLOCKS);
    InBatch(b, 0, s.ops[0].passed);
  }
}
