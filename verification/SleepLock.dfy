/**
 Waiting with sleep and wakeup under a condition lock, and sleep locks as the main case, one
 step at a time, for any number of processes in any order.  A step is what one process does
 between two points where another can get in; the process locks that close the window between
 releasing the condition lock and falling asleep are kept explicit.  `locked` set means that the
 condition waited for does not hold.  With `asLock` all processes run the sleep-lock code;
 without, a process may also wait without taking, and anybody may make the condition true.
 */
module SleepLock {

  /** Where a process is in acquiresleep, sleep, releasesleep or wakeup. */
  datatype Pc =
    | Outside          // not using the lock
    | Entering         // acquiresleep: about to acquire the inner lock
    | Testing          // holds the inner lock, about to test `locked`
    | Took             // has set `locked`, still holds the inner lock
    | Holding          // holds the sleep lock
    | SleepLocking     // sleep: holds the inner lock, about to acquire its process lock
    | SleepReleasing   // holds both, about to release the inner lock
    | SleepMarking     // holds its process lock, about to record chan and SLEEPING
    | SleepSwitching   // marked, about to switch away, which releases the process lock
    | Asleep           // switched away, until the scheduler runs it again
    | Resumed          // running again with its process lock, about to clear chan
    | SleepLeaving     // about to release its process lock
    | Reentering       // about to reacquire the inner lock
    | Leaving          // releasesleep: about to acquire the inner lock
    | Freeing          // holds the inner lock, about to clear `locked`
    | Waking(i: nat)   // in wakeup, about to look at process i
    | Done             // about to release the inner lock

  datatype State = Running | Runnable | Sleeping

  datatype Sys = Sys(pc: seq<Pc>, state: seq<State>, chan: seq<bool>, plock: seq<bool>, lk: int, locked: bool,
    asLock: bool)

  const FREE: int := -1

  datatype Event =
    Enter(p: nat) | Leave(p: nat) | Rouse(p: nat) | Pass(p: nat) | Step(p: nat) | Resume(p: nat) | Kill(p: nat)

  predicate Shape(s: Sys) {
    |s.pc| == |s.state| == |s.chan| == |s.plock|
  }

  predicate Enabled(s: Sys, e: Event)
    requires Shape(s)
  {
    e.p < |s.pc| &&
    match e
    case Enter(p) => s.pc[p].Outside?
    case Leave(p) => s.pc[p].Holding?
    case Rouse(p) => s.pc[p].Outside? && !s.asLock
    case Pass(p) => s.pc[p].Testing? && !s.locked && !s.asLock
    case Resume(p) => s.pc[p].Asleep? && s.state[p].Runnable? && !s.plock[p]
    case Kill(p) => !s.plock[p]
    case Step(p) =>
      match s.pc[p]
      case Entering => s.lk == FREE
      case Testing => true
      case Took => true
      case SleepLocking => !s.plock[p]
      case SleepReleasing => true
      case SleepMarking => true
      case SleepSwitching => true
      case Resumed => true
      case SleepLeaving => true
      case Reentering => s.lk == FREE
      case Leaving => s.lk == FREE
      case Freeing => true
      case Waking(i) => i < |s.pc| ==> i == p || !s.plock[i]
      case Done => true
      case _ => false
  }

  function At(s: Sys, p: nat, pc: Pc): Sys
    requires p < |s.pc|
  {
    s.(pc := s.pc[p := pc])
  }

  /** wakeup's work on one process, and kkill's: a sleeper becomes runnable. */
  function Woken(s: Sys, q: nat, onChan: bool): Sys
    requires Shape(s) && q < |s.pc|
  {
    if s.state[q].Sleeping? && (onChan ==> s.chan[q]) then s.(state := s.state[q := Runnable]) else s
  }

  function Next(s: Sys, e: Event): Sys
    requires Shape(s) && Enabled(s, e)
  {
    match e
    case Enter(p) => At(s, p, Entering)
    case Leave(p) => At(s, p, Leaving)
    case Rouse(p) => At(s, p, Leaving)
    case Pass(p) => At(s, p, Done)
    case Resume(p) => At(s.(state := s.state[p := Running], plock := s.plock[p := true]), p, Resumed)
    case Kill(p) => Woken(s, p, false)
    case Step(p) =>
      match s.pc[p]
      case Entering => At(s.(lk := p), p, Testing)
      case Testing => if s.locked then At(s, p, SleepLocking) else At(s.(locked := true), p, Took)
      case Took => At(s.(lk := FREE), p, Holding)
      case SleepLocking => At(s.(plock := s.plock[p := true]), p, SleepReleasing)
      case SleepReleasing => At(s.(lk := FREE), p, SleepMarking)
      case SleepMarking => At(s.(chan := s.chan[p := true], state := s.state[p := Sleeping]), p, SleepSwitching)
      case SleepSwitching => At(s.(plock := s.plock[p := false]), p, Asleep)
      case Resumed => At(s.(chan := s.chan[p := false]), p, SleepLeaving)
      case SleepLeaving => At(s.(plock := s.plock[p := false]), p, Reentering)
      case Reentering => At(s.(lk := p), p, Testing)
      case Leaving => At(s.(lk := p), p, Freeing)
      case Freeing => At(s.(locked := false), p, Waking(0))
      case Waking(i) =>
        if i >= |s.pc| then At(s, p, Done)
        else At(if i == p then s else Woken(s, i, true), p, Waking(i + 1))
      case Done => At(s.(lk := FREE), p, Outside)
      case _ => s
  }

  // ----------------------------------------------------------------------- invariant

  predicate HasInner(pc: Pc) {
    match pc
    case Testing => true
    case Took => true
    case SleepLocking => true
    case SleepReleasing => true
    case Freeing => true
    case Waking(_) => true
    case Done => true
    case _ => false
  }

  /** Between taking the sleep lock and giving it back. */
  predicate Owns(pc: Pc) {
    match pc
    case Took => true
    case Holding => true
    case Leaving => true
    case Freeing => true
    case _ => false
  }

  /** Has found `locked` set and will be asleep on the channel, or is, until somebody wakes it. */
  predicate Committed(pc: Pc, state: State) {
    match pc
    case SleepLocking => true
    case SleepReleasing => true
    case SleepMarking => true
    case SleepSwitching => true
    case Asleep => state.Sleeping?
    case _ => false
  }

  /** The process that holds the inner lock is on its way to look at p. */
  ghost predicate WakerComing(s: Sys, p: nat)
    requires Shape(s)
  {
    0 <= s.lk < |s.pc| && s.pc[s.lk].Waking? && s.pc[s.lk].i <= p
  }

  /** Each process's own lock, channel and state agree with where it is. */
  ghost predicate LocalOk(pc: Pc, state: State, chan: bool, plock: bool) {
    match pc
    case SleepReleasing => plock && !state.Sleeping?
    case SleepMarking => plock && !state.Sleeping?
    case SleepSwitching => plock && chan && state.Sleeping?
    case Asleep => !plock && chan && !state.Running?
    case Resumed => plock && !state.Sleeping?
    case SleepLeaving => plock && !state.Sleeping?
    case _ => !plock && !state.Sleeping?
  }

  ghost predicate Locals(s: Sys)
    requires Shape(s)
  {
    forall p :: 0 <= p < |s.pc| ==> LocalOk(s.pc[p], s.state[p], s.chan[p], s.plock[p])
  }

  /** The inner lock is held by the one process whose place in the code says so. */
  ghost predicate Inner(pc: seq<Pc>, lk: int) {
    (lk == FREE || 0 <= lk < |pc|) && forall p :: 0 <= p < |pc| ==> (HasInner(pc[p]) <==> lk == p)
  }

  /** `locked` is set exactly while one process owns the sleep lock, and never do two own it. */
  ghost predicate Owners(pc: seq<Pc>, locked: bool) {
    && (forall p :: 0 <= p < |pc| && Owns(pc[p]) ==> locked)
    && (locked ==> exists p :: 0 <= p < |pc| && Owns(pc[p]))
    && (forall p, q :: 0 <= p < |pc| && 0 <= q < |pc| && Owns(pc[p]) && Owns(pc[q]) ==> p == q)
  }

  /** Whoever has committed to sleep does so while the lock is taken, or will still be woken. */
  ghost predicate NoneForgotten(s: Sys)
    requires Shape(s)
  {
    forall p :: 0 <= p < |s.pc| && Committed(s.pc[p], s.state[p]) ==> s.locked || WakerComing(s, p)
  }

  ghost predicate Inv(s: Sys) {
    Shape(s) && Locals(s) && Inner(s.pc, s.lk) && (s.asLock ==> Owners(s.pc, s.locked)) && NoneForgotten(s)
  }

  /** The two states differ at most in process p. */
  ghost predicate SameBut(s: Sys, s': Sys, p: nat) {
    && Shape(s) && Shape(s') && p < |s.pc| == |s'.pc|
    && forall q :: 0 <= q < |s.pc| && q != p ==>
         s'.pc[q] == s.pc[q] && s'.state[q] == s.state[q] && s'.chan[q] == s.chan[q] && s'.plock[q] == s.plock[q]
  }

  ghost predicate SomeWaker(s: Sys) {
    0 <= s.lk < |s.pc| && s.pc[s.lk].Waking?
  }

  lemma LockHolder(s: Sys, p: nat)
    requires Inv(s) && p < |s.pc|
    ensures HasInner(s.pc[p]) <==> s.lk == p
    ensures LocalOk(s.pc[p], s.state[p], s.chan[p], s.plock[p])
  {
  }

  /** A step of process p that keeps its share in the locks, or takes or gives back the inner lock. */
  lemma PlainKeeps(s: Sys, s': Sys, p: nat)
    requires Inv(s) && SameBut(s, s', p) && s'.locked == s.locked && s'.asLock == s.asLock
    requires s'.pc == s.pc[p := s'.pc[p]] && (s.asLock ==> (Owns(s'.pc[p]) <==> Owns(s.pc[p])))
    requires LocalOk(s'.pc[p], s'.state[p], s'.chan[p], s'.plock[p])
    requires Committed(s'.pc[p], s'.state[p]) ==> Committed(s.pc[p], s.state[p])
    requires !SomeWaker(s) || (s'.lk == s.lk && s.lk != p)
    requires || (s'.lk == s.lk && (HasInner(s'.pc[p]) <==> HasInner(s.pc[p])))
             || (s.lk == FREE && s'.lk == p && HasInner(s'.pc[p]))
             || (s.lk == p && s'.lk == FREE && !HasInner(s'.pc[p]))
    ensures Inv(s')
  {
    hide LocalOk, HasInner, Owns, Committed;
  }

  /** Starting to wait, to take, to give back or to wake. */
  lemma CallKeeps(s: Sys, e: Event)
    requires Inv(s) && Enabled(s, e) && (e.Enter? || e.Leave? || e.Rouse? || e.Pass?)
    ensures Inv(Next(s, e))
  {
    hide Locals, Inner, Owners, NoneForgotten;
    LockHolder(s, e.p);
    PlainKeeps(s, Next(s, e), e.p);
  }

  lemma ResumeKillKeeps(s: Sys, e: Event)
    requires Inv(s) && Enabled(s, e) && (e.Resume? || e.Kill?)
    ensures Inv(Next(s, e))
  {
    hide Locals, Inner, Owners, NoneForgotten;
    LockHolder(s, e.p);
    if e.Resume? {
      PlainKeeps(s, Next(s, e), e.p);
    } else {
      assert s.pc[e.p := s.pc[e.p]] == s.pc;
      WokenKeeps(s, e.p, false);
    }
  }

  /** Waking a sleeper takes it out of the committed ones. */
  lemma WokenKeeps(s: Sys, q: nat, onChan: bool)
    requires Inv(s) && q < |s.pc| && !s.plock[q]
    ensures Inv(Woken(s, q, onChan)) && Woken(s, q, onChan).pc == s.pc
    ensures s.pc[q].Asleep? && onChan ==> !Woken(s, q, onChan).state[q].Sleeping?
    ensures !Committed(s.pc[q], Woken(s, q, onChan).state[q]) || !onChan || s.pc[q].SleepLocking?
  {
  }

  /** Taking the inner lock. */
  lemma AcquireKeeps(s: Sys, p: nat)
    requires Inv(s) && Enabled(s, Step(p)) && (s.pc[p].Entering? || s.pc[p].Reentering? || s.pc[p].Leaving?)
    ensures Inv(Next(s, Step(p)))
  {
  }

  lemma TestKeeps(s: Sys, p: nat)
    requires Inv(s) && Enabled(s, Step(p)) && s.pc[p].Testing?
    ensures Inv(Next(s, Step(p)))
  {
  }

  /** Giving the inner lock back. */
  lemma ReleaseKeeps(s: Sys, p: nat)
    requires Inv(s) && Enabled(s, Step(p)) && (s.pc[p].Took? || s.pc[p].SleepReleasing? || s.pc[p].Done?)
    ensures Inv(Next(s, Step(p)))
  {
  }

  /** The steps of sleep under the process lock, up to the switch. */
  lemma FallAsleepKeeps(s: Sys, p: nat)
    requires Inv(s) && Enabled(s, Step(p)) && (s.pc[p].SleepLocking? || s.pc[p].SleepMarking? ||
      s.pc[p].SleepSwitching?)
    ensures Inv(Next(s, Step(p)))
  {
    hide Locals, Inner, Owners, NoneForgotten;
    LockHolder(s, p);
    PlainKeeps(s, Next(s, Step(p)), p);
  }

  /** The steps of sleep after the switch back. */
  lemma ResumedKeeps(s: Sys, p: nat)
    requires Inv(s) && Enabled(s, Step(p)) && (s.pc[p].Resumed? || s.pc[p].SleepLeaving?)
    ensures Inv(Next(s, Step(p)))
  {
    hide Locals, Inner, Owners, NoneForgotten;
    LockHolder(s, p);
    PlainKeeps(s, Next(s, Step(p)), p);
  }

  /** Clearing `locked`: every committed sleeper is still ahead of the waker. */
  lemma FreeKeeps(s: Sys, p: nat)
    requires Inv(s) && Enabled(s, Step(p)) && s.pc[p].Freeing?
    ensures Inv(Next(s, Step(p)))
  {
  }

  /** The waker moves on: the process it passed is not committed to sleep any more. */
  lemma WakeKeeps(s: Sys, p: nat)
    requires Inv(s) && Enabled(s, Step(p)) && s.pc[p].Waking?
    ensures Inv(Next(s, Step(p)))
  {
    hide Locals, Inner, Owners, NoneForgotten;
    LockHolder(s, p);
    var i := s.pc[p].i;
    if i >= |s.pc| {
      PassTo(s, p, Done);
    } else if i == p {
      PassTo(s, p, Waking(i + 1));
    } else {
      LockHolder(s, i);
      WokenKeeps(s, i, true);
      PassTo(Woken(s, i, true), p, Waking(i + 1));
    }
  }

  /** The waker leaves position i, with process i, if there is one, not committed to sleep. */
  lemma PassTo(s: Sys, p: nat, x: Pc)
    requires Inv(s) && p < |s.pc| && s.lk == p && s.pc[p].Waking?
    requires x == if s.pc[p].i >= |s.pc| then Done else Waking(s.pc[p].i + 1)
    requires s.pc[p].i < |s.pc| ==> !Committed(s.pc[s.pc[p].i], s.state[s.pc[p].i])
    ensures Inv(At(s, p, x))
  {
  }

  lemma StepKeeps(s: Sys, e: Event)
    requires Inv(s) && Enabled(s, e)
    ensures Inv(Next(s, e))
  {
    hide Next, Locals, Inner, Owners, NoneForgotten;
    if e.Enter? || e.Leave? || e.Rouse? || e.Pass? {
      CallKeeps(s, e);
    } else if e.Resume? || e.Kill? {
      ResumeKillKeeps(s, e);
    } else {
      match s.pc[e.p]
      case Entering => AcquireKeeps(s, e.p);
      case Reentering => AcquireKeeps(s, e.p);
      case Leaving => AcquireKeeps(s, e.p);
      case Testing => TestKeeps(s, e.p);
      case Took => ReleaseKeeps(s, e.p);
      case SleepReleasing => ReleaseKeeps(s, e.p);
      case Done => ReleaseKeeps(s, e.p);
      case Freeing => FreeKeeps(s, e.p);
      case Waking(i) => WakeKeeps(s, e.p);
      case SleepLocking => FallAsleepKeeps(s, e.p);
      case SleepMarking => FallAsleepKeeps(s, e.p);
      case SleepSwitching => FallAsleepKeeps(s, e.p);
      case _ => ResumedKeeps(s, e.p);
    }
  }

  /** Where a process is on its own: it has not called in, or it has the sleep lock and keeps it as long as it likes. */
  predicate Away(pc: Pc) {
    pc.Outside? || pc.Holding?
  }

  /** What a process inside can do next, unless a lock or its sleep keeps it. */
  predicate CanMove(s: Sys, p: nat)
    requires Shape(s)
  {
    p < |s.pc| && !Away(s.pc[p]) && (Enabled(s, Step(p)) || Enabled(s, Resume(p)))
  }

  /** Whoever has the inner lock can go on, or waits for a process lock whose holder can. */
  lemma HolderMoves(s: Sys, p: nat)
    requires Inv(s) && p < |s.pc| && s.lk == p
    ensures exists q :: CanMove(s, q)
  {
    LockHolder(s, p);
    if s.pc[p].Waking? && s.pc[p].i < |s.pc| && s.pc[p].i != p && s.plock[s.pc[p].i] {
      LockHolder(s, s.pc[p].i);
      assert CanMove(s, s.pc[p].i);
    } else {
      assert CanMove(s, p);
    }
  }

  /** kkill: a process asleep can be run again at once, whatever the condition. */
  lemma KilledWakes(s: Sys, p: nat)
    requires Inv(s) && p < |s.pc| && s.pc[p].Asleep?
    ensures Enabled(s, Kill(p)) && Inv(Next(s, Kill(p))) && Enabled(Next(s, Kill(p)), Resume(p))
  {
    hide Inner, Owners, NoneForgotten;
    LockHolder(s, p);
    StepKeeps(s, Kill(p));
  }

  /**
   No deadlock: while some process is inside acquiresleep or releasesleep and nobody has the sleep lock, some process
   inside can move.
   */
  lemma NoDeadlock(s: Sys, p: nat)
    requires Inv(s) && s.asLock && p < |s.pc| && !Away(s.pc[p]) && forall q :: 0 <= q < |s.pc| ==> !s.pc[q].Holding?
    ensures exists q :: CanMove(s, q)
  {
    LockHolder(s, p);
    if s.lk != FREE {
      HolderMoves(s, s.lk);
    } else if s.pc[p].Asleep? && s.state[p].Sleeping? {
      assert Committed(s.pc[p], s.state[p]);
      var q :| 0 <= q < |s.pc| && Owns(s.pc[q]);
      LockHolder(s, q);
      assert CanMove(s, q);
    } else {
      assert CanMove(s, p);
    }
  }

  // ----------------------------------------------------------------------- whole runs

  /** Nobody is using the lock; a condition may start true or false. */
  ghost predicate Start(s: Sys) {
    && Shape(s) && s.lk == FREE && (s.asLock ==> !s.locked)
    && forall p :: 0 <= p < |s.pc| ==> s.pc[p] == Outside && s.state[p] == Running && !s.chan[p] && !s.plock[p]
  }

  ghost predicate Run(s: Sys, es: seq<Event>, t: Sys)
    requires Inv(s)
    decreases |es|
  {
    if es == [] then s == t
    else Enabled(s, es[0]) && (StepKeeps(s, es[0]); Run(Next(s, es[0]), es[1..], t))
  }

  lemma SameCode(s: Sys, e: Event)
    requires Shape(s) && Enabled(s, e)
    ensures Next(s, e).asLock == s.asLock
  {
  }

  lemma {:induction false} RunKeeps(s: Sys, es: seq<Event>, t: Sys)
    requires Inv(s) && Run(s, es, t)
    ensures Inv(t) && t.asLock == s.asLock
    decreases |es|
  {
    hide Next, Locals, Inner, Owners, NoneForgotten;
    if es != [] {
      StepKeeps(s, es[0]);
      SameCode(s, es[0]);
      RunKeeps(Next(s, es[0]), es[1..], t);
    }
  }

  lemma StartInv(s: Sys)
    requires Start(s)
    ensures Inv(s)
  {
  }

  /**
   After any run, of sleep locks or of any code that tests, changes the condition and wakes under
   the condition lock: when that lock is free and the condition holds, nobody is asleep waiting
   for it or on the way to sleep.
   */
  lemma NoLostWakeup(s: Sys, es: seq<Event>, t: Sys, p: nat)
    requires Start(s) && Inv(s) && Run(s, es, t) && p < |t.pc|
    ensures Shape(t)
    ensures t.lk == FREE && !t.locked ==>
              !(t.pc[p].Asleep? && t.state[p].Sleeping?) && !t.pc[p].SleepMarking? && !t.pc[p].SleepSwitching?
  {
    hide Run, Start;
    RunKeeps(s, es, t);
  }

  /** After any run of the sleep-lock code at most one process holds the lock, and `locked` is set while it does. */
  lemma OneHolder(s: Sys, es: seq<Event>, t: Sys, p: nat, q: nat)
    requires Start(s) && s.asLock && Inv(s) && Run(s, es, t) && p < |t.pc| && q < |t.pc|
    ensures t.pc[p].Holding? && t.pc[q].Holding? ==> p == q
    ensures t.pc[p].Holding? ==> t.locked
  {
    hide Run, Start;
    RunKeeps(s, es, t);
  }
}
