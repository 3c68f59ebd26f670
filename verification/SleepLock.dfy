/**
 sleep(), wakeup() and kill() of proc.c with the sleep locks of sleeplock.c as clients, for any number of
 processes and locks.  One step is one access to shared state: taking or releasing a spinlock, one test or
 assignment under it, one iteration of wakeup1()'s scan, a switch to or from the scheduler.
 */
module SleepLock {

  import opened Params

  datatype RunState = Runnable | Running | Sleeping

  /** What the process does next; l is the sleep lock it works on. */
  datatype Pc =
    | Out
    // acquiresleep()
    | Acquire(l: nat) | Test(l: nat) | Take(l: nat) | Release(l: nat)
    // sleep()
    | SleepAcquire(l: nat) | SleepRelease(l: nat) | SleepMark(l: nat) | Switch(l: nat) | Sched(l: nat)
    | Tidy(l: nat) | Tidied(l: nat)
    // releasesleep() and wakeup()
    | Reenter(l: nat) | Clear(l: nat) | WakeAcquire(l: nat) | WakeScan(l: nat, i: nat) | WakeRelease(l: nat)
    | Leave(l: nat)
    // kill()
    | KillAcquire(victim: nat) | Kill(victim: nat) | KillRelease

  /** held: the sleep locks whose acquiresleep() has returned or is about to, and that were not released since. */
  datatype Proc = Proc(pc: Pc, state: RunState, chan: Option<nat>, held: set<nat>)

  /** owner is the spinlock's, pid the field releasesleep() clears. */
  datatype Lock = Lock(owner: Option<nat>, locked: bool, pid: Option<nat>)

  datatype State = State(procs: seq<Proc>, locks: seq<Lock>, ptable: Option<nat>)

  /** What a process outside any of these calls may begin. */
  datatype Choice = Continue | AcquireSleep(l: nat) | ReleaseSleep(l: nat) | KillPid(victim: nat)

  predicate Init(s: State) {
    && (forall p :: 0 <= p < |s.procs| ==> s.procs[p] == Proc(Out, Running, None, {}))
    && (forall l :: 0 <= l < |s.locks| ==> s.locks[l] == Lock(None, false, None))
    && s.ptable == None
  }

  // ---------------------------------------------------------------- steps

  predicate At(s: State, p: nat) { p < |s.procs| }

  predicate PcOk(s: State, pc: Pc) {
    match pc
    case Out => true
    case KillAcquire(v) => v < |s.procs|
    case Kill(v) => v < |s.procs|
    case KillRelease => true
    case _ => pc.l < |s.locks|
  }

  /** A spinlock is taken when free; a process in the scheduler resumes when runnable, with ptable.lock held. */
  predicate Enabled(s: State, p: nat, c: Choice) {
    && At(s, p) && PcOk(s, s.procs[p].pc)
    && var pr := s.procs[p];
       match pr.pc
       case Out =>
         (match c
          case Continue => false
          case AcquireSleep(l) => l < |s.locks|
          case ReleaseSleep(l) => l < |s.locks| && l in pr.held
          case KillPid(v) => v < |s.procs|)
       case Acquire(l) => s.locks[l].owner == None
       case Reenter(l) => s.locks[l].owner == None
       case SleepAcquire(_) => s.ptable == None
       case WakeAcquire(_) => s.ptable == None
       case KillAcquire(_) => s.ptable == None
       case Sched(_) => s.ptable == None && pr.state == Runnable
       case _ => true
  }

  /** What one step changes: the process's own record, one lock, ptable.lock's owner, one process woken. */
  datatype Effect = Effect(proc: Proc, l: nat, lock: Lock, ptable: Option<nat>, wake: Option<nat>)

  /** A step that only moves on to pc, on sleep lock l (any lock when it touches none). */
  function Move(s: State, p: nat, pc: Pc, l: nat): Effect
    requires At(s, p)
  {
    Effect(s.procs[p].(pc := pc), l, LockOf(s, l), s.ptable, None)
  }

  function LockOf(s: State, l: nat): Lock { if l < |s.locks| then s.locks[l] else Lock(None, false, None) }

  /** Is the process i of wakeup1()'s scan, or the victim of kill(), to be made runnable? */
  function Woken(s: State, i: nat, chan: Option<nat>): Option<nat> {
    if At(s, i) && s.procs[i].state == Sleeping && (chan == None || s.procs[i].chan == chan) then Some(i) else None
  }

  function EffectOf(s: State, p: nat, c: Choice): Effect
    requires Enabled(s, p, c)
  {
    var pr := s.procs[p];
    match pr.pc
    case Out =>
      (match c
       case Continue => Move(s, p, Out, 0)
       case AcquireSleep(l) => Move(s, p, Acquire(l), l)
       case ReleaseSleep(l) => Move(s, p, Reenter(l), l)
       case KillPid(v) => Move(s, p, KillAcquire(v), 0))
    case Acquire(l) => Move(s, p, Test(l), l).(lock := s.locks[l].(owner := Some(p)))
    case Test(l) => Move(s, p, if s.locks[l].locked then SleepAcquire(l) else Take(l), l)
    case Take(l) =>
      Effect(pr.(pc := Release(l), held := pr.held + {l}), l, s.locks[l].(locked := true, pid := Some(p)),
             s.ptable, None)
    case Release(l) => Move(s, p, Out, l).(lock := s.locks[l].(owner := None))
    case SleepAcquire(l) => Move(s, p, SleepRelease(l), l).(ptable := Some(p))
    case SleepRelease(l) => Move(s, p, SleepMark(l), l).(lock := s.locks[l].(owner := None))
    case SleepMark(l) => Effect(pr.(pc := Switch(l), chan := Some(l), state := Sleeping), l, s.locks[l], s.ptable, None)
    case Switch(l) => Move(s, p, Sched(l), l).(ptable := None)
    case Sched(l) => Effect(pr.(pc := Tidy(l), state := Running), l, s.locks[l], Some(p), None)
    case Tidy(l) => Effect(pr.(pc := Tidied(l), chan := None), l, s.locks[l], s.ptable, None)
    case Tidied(l) => Move(s, p, Acquire(l), l).(ptable := None)
    case Reenter(l) => Move(s, p, Clear(l), l).(lock := s.locks[l].(owner := Some(p)))
    case Clear(l) =>
      Effect(pr.(pc := WakeAcquire(l), held := pr.held - {l}), l, s.locks[l].(locked := false, pid := None),
             s.ptable, None)
    case WakeAcquire(l) => Move(s, p, WakeScan(l, 0), l).(ptable := Some(p))
    case WakeScan(l, i) =>
      var next := if i < |s.procs| then WakeScan(l, i + 1) else WakeRelease(l);
      Move(s, p, next, l).(wake := Woken(s, i, Some(l)))
    case WakeRelease(l) => Move(s, p, Leave(l), l).(ptable := None)
    case Leave(l) => Move(s, p, Out, l).(lock := s.locks[l].(owner := None))
    case KillAcquire(v) => Move(s, p, Kill(v), 0).(ptable := Some(p))
    case Kill(v) => Move(s, p, KillRelease, 0).(wake := Woken(s, v, None))
    case KillRelease => Move(s, p, Out, 0).(ptable := None)
  }

  function Apply(s: State, p: nat, e: Effect): (s': State)
    requires At(s, p)
    ensures |s'.procs| == |s.procs| && |s'.locks| == |s.locks|
  {
    var woken :=
      if e.wake.Some? && At(s, e.wake.value) then
        s.procs[e.wake.value := s.procs[e.wake.value].(state := Runnable)]
      else s.procs;
    State(woken[p := e.proc], if e.l < |s.locks| then s.locks[e.l := e.lock] else s.locks, e.ptable)
  }

  function Do(s: State, p: nat, c: Choice): State
    requires Enabled(s, p, c)
  {
    Apply(s, p, EffectOf(s, p, c))
  }

  // ---------------------------------------------------------------- what every step keeps

  /** The stretches of code between acquire() and release() of a sleep lock's spinlock, and of ptable.lock. */
  predicate InSpin(pc: Pc, l: nat) {
    match pc
    case Test(k) => k == l
    case Take(k) => k == l
    case Release(k) => k == l
    case SleepAcquire(k) => k == l
    case SleepRelease(k) => k == l
    case Clear(k) => k == l
    case WakeAcquire(k) => k == l
    case WakeScan(k, _) => k == l
    case WakeRelease(k) => k == l
    case Leave(k) => k == l
    case _ => false
  }

  predicate InPtable(pc: Pc) {
    || pc.SleepRelease? || pc.SleepMark? || pc.Switch? || pc.Tidy? || pc.Tidied?
    || pc.WakeScan? || pc.WakeRelease? || pc.Kill? || pc.KillRelease?
  }

  /** Each spinlock is owned by exactly the process between its acquire() and release(). */
  ghost predicate OwnerOk(s: State, p: nat, pc: Pc) {
    && PcOk(s, pc)
    && (InPtable(pc) <==> s.ptable == Some(p))
    && (forall l :: 0 <= l < |s.locks| ==> (InSpin(pc, l) <==> s.locks[l].owner == Some(p)))
  }

  ghost predicate Owners(s: State) {
    && (forall p :: 0 <= p < |s.procs| ==> OwnerOk(s, p, s.procs[p].pc))
    && (forall l :: 0 <= l < |s.locks| && s.locks[l].owner.Some? ==> At(s, s.locks[l].owner.value))
    && (s.ptable.Some? ==> At(s, s.ptable.value))
  }

  /** A step changes a spinlock only by taking it free or giving it back, and a lock's fields only while owning it. */
  predicate Local(s: State, p: nat, e: Effect) {
    && At(s, p) && e.wake != Some(p)
    && (e.wake.Some? ==> At(s, e.wake.value) && s.procs[e.wake.value].state == Sleeping)
    && e.ptable in {s.ptable, Some(p), None}
    && (e.ptable != s.ptable ==> s.ptable in {None, Some(p)})
    && (e.l < |s.locks| ==>
        && (e.lock.owner != s.locks[e.l].owner ==>
              s.locks[e.l].owner in {None, Some(p)} && e.lock.owner in {None, Some(p)})
        && ((e.lock.locked, e.lock.pid) != (s.locks[e.l].locked, s.locks[e.l].pid) ==>
              e.lock.owner == s.locks[e.l].owner == Some(p)))
  }

  lemma StepLocal(s: State, p: nat, c: Choice)
    requires Inv(s) && Enabled(s, p, c)
    ensures Local(s, p, EffectOf(s, p, c))
  {
    hide Inv, HolderOk;
    InvAt(s, p);
  }

  lemma OwnMoves(s: State, p: nat, c: Choice)
    requires Enabled(s, p, c) && OwnerOk(s, p, s.procs[p].pc)
    ensures OwnerOk(Do(s, p, c), p, EffectOf(s, p, c).proc.pc)
  {
  }

  lemma OwnersKept(s: State, p: nat, c: Choice)
    requires Inv(s) && Enabled(s, p, c)
    ensures Owners(Do(s, p, c))
  {
    hide EffectOf, InPtable, InSpin;
    StepLocal(s, p, c);
    assert OwnerOk(s, p, s.procs[p].pc);
    OwnMoves(s, p, c);
    var s' := Do(s, p, c);
    forall q | 0 <= q < |s.procs|
      ensures OwnerOk(s', q, s'.procs[q].pc)
    {
      assert OwnerOk(s, q, s.procs[q].pc);
    }
  }

  // ---------------------------------------------------------------- who holds a sleep lock

  /** held, locked and pid tell the same story. */
  ghost predicate HolderOk(s: State, p: nat, pr: Proc) {
    && (forall l :: l in pr.held ==> LockedAt(s, l) && s.locks[l].pid == Some(p))
    && (pr.pc.Take? ==> !LockedAt(s, pr.pc.l))
    && (pr.pc.Reenter? || pr.pc.Clear? ==> pr.pc.l in pr.held)
  }

  ghost predicate Holders(s: State) {
    && (forall p :: 0 <= p < |s.procs| ==> HolderOk(s, p, s.procs[p]))
    && (forall l :: 0 <= l < |s.locks| && s.locks[l].locked ==>
         s.locks[l].pid.Some? && At(s, s.locks[l].pid.value) && l in s.procs[s.locks[l].pid.value].held)
  }

  lemma HolderMoves(s: State, p: nat, c: Choice)
    requires Inv(s) && Enabled(s, p, c)
    ensures HolderOk(Do(s, p, c), p, EffectOf(s, p, c).proc)
  {
    assert OwnerOk(s, p, s.procs[p].pc) && HolderOk(s, p, s.procs[p]) && WaitOk(s, p);
  }

  /** A lock that is locked after the step is held by its pid: it was before, or p has just taken it. */
  lemma LockedMoves(s: State, p: nat, c: Choice, l: nat)
    requires Inv(s) && Enabled(s, p, c) && l < |s.locks| && Do(s, p, c).locks[l].locked
    ensures var k := Do(s, p, c).locks[l];
      if l == EffectOf(s, p, c).l && k != s.locks[l] && k.owner == s.locks[l].owner
      then k.pid == Some(p) && l in EffectOf(s, p, c).proc.held
      else s.locks[l].locked && s.locks[l].pid == k.pid && (l in s.procs[p].held ==> l in EffectOf(s, p, c).proc.held)
  {
    assert HolderOk(s, p, s.procs[p]);
  }

  /** Only the holder's step changes the fields of a locked lock. */
  lemma HeldStays(s: State, p: nat, c: Choice)
    requires Inv(s) && Enabled(s, p, c)
    ensures var e := EffectOf(s, p, c);
      LockedAt(s, e.l) && (e.lock.locked, e.lock.pid) != (s.locks[e.l].locked, s.locks[e.l].pid) ==>
        s.locks[e.l].pid == Some(p)
  {
    assert HolderOk(s, p, s.procs[p]);
  }

  lemma HoldersKept(s: State, p: nat, c: Choice)
    requires Inv(s) && Enabled(s, p, c)
    ensures Holders(Do(s, p, c))
  {
    hide EffectOf, InPtable, Inv, WaitOk;
    StepLocal(s, p, c);
    HolderMoves(s, p, c);
    HeldStays(s, p, c);
    var s' := Do(s, p, c);
    forall q | 0 <= q < |s.procs|
      ensures HolderOk(s', q, s'.procs[q])
    {
      InvAt(s, q);
    }
    forall l | 0 <= l < |s.locks| && s'.locks[l].locked
      ensures s'.locks[l].pid.Some? && At(s', s'.locks[l].pid.value) && l in s'.procs[s'.locks[l].pid.value].held
    {
      LockedMoves(s, p, c, l);
      if s.locks[l].locked { LockHeld(s, l); }
    }
  }

  // ---------------------------------------------------------------- who sleeps

  predicate LockedAt(s: State, l: nat) { l < |s.locks| && s.locks[l].locked }

  /** The owner of l's spinlock has cleared it and its scan has yet to reach process p. */
  predicate Waking(s: State, l: nat, p: nat) {
    && l < |s.locks| && s.locks[l].owner.Some? && At(s, s.locks[l].owner.value)
    && var pc := s.procs[s.locks[l].owner.value].pc;
       pc == WakeAcquire(l) || (pc.WakeScan? && pc.l == l && pc.i <= p)
  }

  predicate PastClear(pc: Pc) { pc.WakeAcquire? || pc.WakeScan? || pc.WakeRelease? || pc.Leave? }

  ghost predicate WaitOk(s: State, p: nat)
    requires At(s, p)
  {
    var pr := s.procs[p];
    && (pr.state == Sleeping ==>
        (pr.pc.Switch? || pr.pc.Sched?) && pr.chan == Some(pr.pc.l) && (LockedAt(s, pr.pc.l) || Waking(s, pr.pc.l, p)))
    && (pr.state == Running <==> !pr.pc.Switch? && !pr.pc.Sched?)
    && (pr.chan.Some? ==> pr.pc.Switch? || pr.pc.Sched? || pr.pc.Tidy?)
    && (pr.pc.SleepAcquire? || pr.pc.SleepRelease? ==> LockedAt(s, pr.pc.l))
    && (pr.pc.SleepMark? ==> LockedAt(s, pr.pc.l) || Waking(s, pr.pc.l, p))
    && (PastClear(pr.pc) ==> !LockedAt(s, pr.pc.l))
  }

  ghost predicate Waits(s: State) {
    forall p :: 0 <= p < |s.procs| ==> WaitOk(s, p)
  }

  ghost predicate Inv(s: State) { Owners(s) && Holders(s) && Waits(s) }

  lemma InvAt(s: State, p: nat)
    requires Inv(s) && At(s, p)
    ensures OwnerOk(s, p, s.procs[p].pc) && HolderOk(s, p, s.procs[p]) && WaitOk(s, p)
  {
  }

  lemma LockHeld(s: State, l: nat)
    requires Inv(s) && LockedAt(s, l)
    ensures s.locks[l].pid.Some? && At(s, s.locks[l].pid.value) && l in s.procs[s.locks[l].pid.value].held
  {
  }

  lemma WaitMoves(s: State, p: nat, c: Choice)
    requires Inv(s) && Enabled(s, p, c)
    ensures WaitOk(Do(s, p, c), p)
  {
    hide Inv, WaitOk, EffectOf;
    var pc := s.procs[p].pc;
    if InSleep(pc) {
      SleepMoves(s, p, c);
    } else if pc.Reenter? || pc.Clear? || PastClear(pc) {
      WakeMoves(s, p, c);
    } else {
      OtherMoves(s, p, c);
    }
  }

  predicate InSleep(pc: Pc) {
    || pc.Test? || pc.SleepAcquire? || pc.SleepRelease? || pc.SleepMark? || pc.Switch? || pc.Sched?
    || pc.Tidy? || pc.Tidied?
  }

  lemma SleepMoves(s: State, p: nat, c: Choice)
    requires Inv(s) && Enabled(s, p, c) && InSleep(s.procs[p].pc)
    ensures WaitOk(Do(s, p, c), p)
  {
    hide Inv, HolderOk;
    InvAt(s, p);
  }

  lemma WakeMoves(s: State, p: nat, c: Choice)
    requires Inv(s) && Enabled(s, p, c)
    requires var pc := s.procs[p].pc; pc.Reenter? || pc.Clear? || PastClear(pc)
    ensures WaitOk(Do(s, p, c), p)
  {
    hide Inv, HolderOk, OwnerOk;
    InvAt(s, p);
  }

  lemma OtherMoves(s: State, p: nat, c: Choice)
    requires Inv(s) && Enabled(s, p, c)
    requires var pc := s.procs[p].pc; !InSleep(pc) && !pc.Reenter? && !pc.Clear? && !PastClear(pc)
    ensures WaitOk(Do(s, p, c), p)
  {
    hide Inv, HolderOk, OwnerOk;
    InvAt(s, p);
  }

  /**
   A locked lock stays locked or its clearer is about to wake; a pending wakeup stays pending until its scan
   is at q.
   */
  lemma WakeStays(s: State, p: nat, c: Choice, l: nat, q: nat)
    requires Inv(s) && Enabled(s, p, c) && q != p && At(s, q) && (LockedAt(s, l) || Waking(s, l, q))
    ensures LockedAt(Do(s, p, c), l) || Waking(Do(s, p, c), l, q) || s.procs[p].pc == WakeScan(l, q)
    ensures
      s.procs[p].pc == WakeScan(l, q) ==> InPtable(s.procs[p].pc) && EffectOf(s, p, c).wake == Woken(s, q, Some(l))
  {
    hide Inv, EffectOf, InPtable;
    if s.procs[p].pc == WakeScan(l, q) {
      ScanAt(s, p, c, l, q);
    } else if LockedAt(s, l) {
      if !LockedAt(Do(s, p, c), l) { Cleared(s, p, c, l, q); }
    } else if s.locks[l].owner == Some(p) {
      ScanMoves(s, p, c, l, q);
    } else {
      ScanStays(s, p, c, l, q);
    }
  }

  lemma ScanAt(s: State, p: nat, c: Choice, l: nat, q: nat)
    requires Enabled(s, p, c) && s.procs[p].pc == WakeScan(l, q)
    ensures InPtable(s.procs[p].pc) && EffectOf(s, p, c).wake == Woken(s, q, Some(l))
  {
  }

  /** Only releasesleep() clears locked, owning the spinlock, and then goes on to wakeup(). */
  lemma Cleared(s: State, p: nat, c: Choice, l: nat, q: nat)
    requires Inv(s) && Enabled(s, p, c) && At(s, q) && LockedAt(s, l) && !LockedAt(Do(s, p, c), l)
    ensures Waking(Do(s, p, c), l, q)
  {
    hide Inv, HolderOk, WaitOk;
    InvAt(s, p);
  }

  /** The waker's own step brings its scan one process further. */
  lemma ScanMoves(s: State, p: nat, c: Choice, l: nat, q: nat)
    requires Enabled(s, p, c) && At(s, q) && Waking(s, l, q) && s.locks[l].owner == Some(p)
    requires s.procs[p].pc != WakeScan(l, q)
    ensures Waking(Do(s, p, c), l, q)
  {
  }

  /** Nobody else's step moves the waker or takes its spinlock. */
  lemma ScanStays(s: State, p: nat, c: Choice, l: nat, q: nat)
    requires Inv(s) && Enabled(s, p, c) && Waking(s, l, q) && s.locks[l].owner != Some(p)
    ensures Waking(Do(s, p, c), l, q)
  {
    hide Inv, EffectOf;
    StepLocal(s, p, c);
  }

  /** Nobody sets locked but a process that owns the spinlock and has found it clear. */
  lemma UnlockedStays(s: State, p: nat, c: Choice, l: nat)
    requires Inv(s) && Enabled(s, p, c) && LockedAt(Do(s, p, c), l) && !LockedAt(s, l)
    ensures s.locks[l].owner == Some(p)
  {
    hide EffectOf;
    StepLocal(s, p, c);
  }

  lemma WaitStays(s: State, p: nat, c: Choice, q: nat)
    requires Inv(s) && Enabled(s, p, c) && q != p && At(s, q)
    ensures WaitOk(Do(s, p, c), q)
  {
    hide EffectOf, Inv, HolderOk;
    var s', pc := Do(s, p, c), s.procs[q].pc;
    StepLocal(s, p, c);
    InvAt(s, q);
    InvAt(s, p);
    if PastClear(pc) && LockedAt(s', pc.l) {
      UnlockedStays(s, p, c, pc.l);
    }
    if pc.Switch? || pc.Sched? || pc.SleepAcquire? || pc.SleepRelease? || pc.SleepMark? {
      if LockedAt(s, pc.l) || Waking(s, pc.l, q) { WakeStays(s, p, c, pc.l, q); }
    }
  }

  lemma StepKeeps(s: State, p: nat, c: Choice)
    requires Inv(s) && Enabled(s, p, c)
    ensures Inv(Do(s, p, c))
  {
    hide EffectOf, Owners, Holders, WaitOk;
    OwnersKept(s, p, c);
    HoldersKept(s, p, c);
    WaitMoves(s, p, c);
    forall q | 0 <= q < |s.procs| && q != p
      ensures WaitOk(Do(s, p, c), q)
    {
      WaitStays(s, p, c, q);
    }
  }

  // ---------------------------------------------------------------- every run

  /** A run is a start state and the steps taken from it. */
  datatype Step = Step(p: nat, c: Choice)

  ghost predicate CanRun(s: State, steps: seq<Step>)
    decreases |steps|
  {
    steps == [] || (Enabled(s, steps[0].p, steps[0].c) && CanRun(Do(s, steps[0].p, steps[0].c), steps[1..]))
  }

  ghost function Run(s: State, steps: seq<Step>): State
    requires CanRun(s, steps)
    decreases |steps|
  {
    if steps == [] then s else Run(Do(s, steps[0].p, steps[0].c), steps[1..])
  }

  /** At most one holder, and with the spinlock free a sleeper means the lock is taken. */
  ghost predicate Safe(s: State) {
    && (forall p, q, l :: 0 <= p < |s.procs| && 0 <= q < |s.procs| && l in s.procs[p].held && l in s.procs[q].held ==>
          p == q)
    && (forall p, l :: 0 <= p < |s.procs| && l in s.procs[p].held ==> LockedAt(s, l) && s.locks[l].pid == Some(p))
    && (forall p :: 0 <= p < |s.procs| && s.procs[p].state == Sleeping ==>
         s.procs[p].chan.Some? && s.procs[p].chan.value < |s.locks|
         && (s.locks[s.procs[p].chan.value].owner == None ==> s.locks[s.procs[p].chan.value].locked))
  }

  lemma {:induction false} RunKeeps(s: State, steps: seq<Step>)
    requires Inv(s) && CanRun(s, steps)
    ensures Inv(Run(s, steps))
    decreases |steps|
  {
    if steps != [] {
      StepKeeps(s, steps[0].p, steps[0].c);
      RunKeeps(Do(s, steps[0].p, steps[0].c), steps[1..]);
    }
  }

  /** Mutual exclusion and no lost wakeup, in every reachable state. */
  lemma EveryRunSafe(s: State, steps: seq<Step>)
    requires Init(s) && CanRun(s, steps)
    ensures Safe(Run(s, steps))
  {
    RunKeeps(s, steps);
    InvSafe(Run(s, steps));
  }

  lemma InvSafe(s: State)
    requires Inv(s)
    ensures Safe(s)
  {
    forall p | 0 <= p < |s.procs|
      ensures HolderOk(s, p, s.procs[p]) && WaitOk(s, p) && OwnerOk(s, p, s.procs[p].pc)
    {
    }
  }

  /** When wakeup() returns to releasesleep(), nobody is left asleep on the lock. */
  lemma WakeupComplete(s: State, p: nat, q: nat)
    requires Inv(s) && At(s, p) && At(s, q) && (s.procs[p].pc.WakeRelease? || s.procs[p].pc.Leave?)
    ensures !(s.procs[q].state == Sleeping && s.procs[q].chan == Some(s.procs[p].pc.l))
  {
    assert OwnerOk(s, p, s.procs[p].pc) && WaitOk(s, p) && WaitOk(s, q);
  }

  /** The spinlocks never deadlock: while any is owned, a process that owns one can take its next step. */
  lemma SpinlocksProgress(s: State, l: nat) returns (p: nat)
    requires Inv(s) && l < |s.locks| && (s.locks[l].owner.Some? || s.ptable.Some?)
    ensures At(s, p) && Enabled(s, p, Continue) && (s.ptable == Some(p) || s.locks[l].owner == Some(p))
  {
    p := if s.ptable.Some? then s.ptable.value else s.locks[l].owner.value;
    assert OwnerOk(s, p, s.procs[p].pc);
  }

  /**
   A process inside one of these calls that cannot move while all spinlocks are free is asleep on a
   lock that some process holds: it waits for a release, never for a wakeup that has come and gone.
   */
  lemma BlockedOnHolder(s: State, p: nat)
    requires Inv(s) && At(s, p) && s.procs[p].pc != Out && !Enabled(s, p, Continue)
    requires s.ptable == None && forall l :: 0 <= l < |s.locks| ==> s.locks[l].owner == None
    ensures s.procs[p].state == Sleeping && s.procs[p].pc.Sched?
    ensures exists q :: 0 <= q < |s.procs| && s.procs[p].pc.l in s.procs[q].held
  {
    assert OwnerOk(s, p, s.procs[p].pc) && WaitOk(s, p);
    var l := s.procs[p].pc.l;
    assert LockedAt(s, l);
    var q := s.locks[l].pid.value;
    assert l in s.procs[q].held;
  }
}
