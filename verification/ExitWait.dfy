/**
 fork(), exit(), wait() and kill() of proc.c on the process table, for any number of slots.  Each critical
 section under ptable.lock is one step; fork()'s work outside the lock is a step of its own.  A process's
 kernel stack and page directory are numbered when allocated, so that freeing one twice, or losing one, shows.
 */
module ExitWait {

  import opened Params

  /** Live is RUNNABLE or RUNNING. */
  datatype RunState = Unused | Embryo | Live | Sleeping | Zombie

  /** How far a fork() is: it has a slot, a kernel stack for it, a page directory. */
  datatype Stage = Taken | Stacked | Copied

  /** Inside fork() with slot np taken; inside wait(); or anywhere else. */
  datatype Act = User | Forking(np: nat, stage: Stage) | Waiting

  /** chan is a slot number for a sleep in wait(), None for a sleep on anything else. */
  datatype Proc = Proc(
    state: RunState, pid: nat, parent: Option<nat>, killed: bool, chan: Option<nat>,
    kstack: Option<nat>, pgdir: Option<nat>, act: Act)

  /** Where a numbered stack or page directory is now. */
  datatype Place = Kstack(slot: nat) | Pgdir(slot: nat) | Freed

  /** reaped: the pids wait() has returned. */
  datatype Table = Table(procs: seq<Proc>, places: seq<Place>, nextpid: nat, reaped: seq<nat>)

  datatype Action =
    | ForkTake(np: nat) | ForkNoStack | ForkStack | ForkFail | ForkCopy | ForkDone
    | Exit | Wait | Kill(victim: nat) | SleepElsewhere | WakeElsewhere

  function Slot(): Proc { Proc(Unused, 0, None, false, None, None, None, User) }

  predicate IsLive(pr: Proc) { pr.state == Live || pr.state == Sleeping }

  predicate At(t: Table, p: nat) { p < |t.procs| }

  predicate ChildOf(t: Table, c: nat, p: nat) { At(t, c) && t.procs[c].parent == Some(p) }

  predicate ZombieChild(t: Table, c: nat, p: nat) { ChildOf(t, c, p) && t.procs[c].state == Zombie }

  /** The first process alone, running, in slot init. */
  predicate Init(t: Table, init: nat) {
    && At(t, init)
    && t.procs[init] == Proc(Live, 1, None, false, None, Some(0), Some(1), User)
    && (forall p :: 0 <= p < |t.procs| && p != init ==> t.procs[p] == Slot())
    && t.places == [Kstack(init), Pgdir(init)] && t.nextpid == 2 && t.reaped == []
  }

  // ---------------------------------------------------------------- steps

  predicate InFork(t: Table, p: nat, stage: Stage)
    requires At(t, p)
  {
    var pr := t.procs[p];
    pr.state == Live && pr.act.Forking? && pr.act.stage == stage && At(t, pr.act.np)
  }

  predicate Enabled(t: Table, init: nat, p: nat, a: Action) {
    && At(t, p) && At(t, init)
    && var pr := t.procs[p];
       match a
       case ForkTake(np) => pr.state == Live && pr.act == User && At(t, np) && t.procs[np].state == Unused
       case ForkNoStack => InFork(t, p, Taken)
       case ForkStack => InFork(t, p, Taken)
       case ForkFail => InFork(t, p, Stacked)
       case ForkCopy => InFork(t, p, Stacked)
       case ForkDone => InFork(t, p, Copied)
       case Exit => pr.state == Live && pr.act == User && p != init
       case Wait => pr.state == Live && (pr.act == User || pr.act == Waiting)
       case Kill(v) => pr.state == Live && pr.act == User && At(t, v)
       case SleepElsewhere => pr.state == Live && pr.act == User
       case WakeElsewhere => pr.state == Sleeping && pr.act == User
  }

  function Set(t: Table, p: nat, pr: Proc): Table
    requires At(t, p)
  {
    t.(procs := t.procs[p := pr])
  }

  predicate Wakes(pr: Proc, chan: Option<nat>) { pr.state == Sleeping && chan.Some? && pr.chan == chan }

  /** exit() as seen by slot c: woken if it waits for a child that is a zombie now, adopted if it was p's child. */
  function AfterExit(t: Table, init: nat, p: nat, c: nat): Proc
    requires At(t, p) && At(t, c)
  {
    var pr := t.procs[c];
    var woken := Wakes(pr, t.procs[p].parent) || (Wakes(pr, Some(init)) && HasZombie(t, p));
    var adopted := if pr.parent == Some(p) then Some(init) else pr.parent;
    if c == p then pr.(state := Zombie, parent := adopted)
    else pr.(state := if woken then Live else pr.state, parent := adopted)
  }

  predicate HasZombie(t: Table, p: nat) {
    exists c :: 0 <= c < |t.procs| && ZombieChild(t, c, p)
  }

  predicate HasKids(t: Table, p: nat) {
    exists c :: 0 <= c < |t.procs| && ChildOf(t, c, p)
  }

  /** The zombie child that wait()'s scan meets first. */
  function FirstZombie(t: Table, p: nat, i: nat): (c: nat)
    requires i <= |t.procs| && exists c :: i <= c < |t.procs| && ZombieChild(t, c, p)
    ensures i <= c < |t.procs| && ZombieChild(t, c, p)
    ensures forall d :: i <= d < c ==> !ZombieChild(t, d, p)
    decreases |t.procs| - i
  {
    if ZombieChild(t, i, p) then i else FirstZombie(t, p, i + 1)
  }

  function Free(places: seq<Place>, r: Option<nat>): (r': seq<Place>)
    ensures |r'| == |places|
  {
    if r.Some? && r.value < |places| then places[r.value := Freed] else places
  }

  /** wait() takes the zombie c out of the table. */
  function Reap(t: Table, p: nat, c: nat): Table
    requires At(t, p) && At(t, c)
  {
    var z := t.procs[c];
    var t1 := Set(t, c, Proc(Unused, 0, None, false, z.chan, None, None, z.act));
    Table(t1.procs[p := t1.procs[p].(act := User, chan := None)], Free(Free(t.places, z.kstack), z.pgdir),
          t.nextpid, t.reaped + [z.pid])
  }

  /** allocproc() takes an unused slot for p's fork(), under the lock. */
  function Take(t: Table, p: nat, np: nat): Table
    requires At(t, p) && At(t, np)
  {
    var t1 := Set(t, np, t.procs[np].(state := Embryo, pid := t.nextpid));
    Table(t1.procs[p := t1.procs[p].(act := Forking(np, Taken))], t.places, t.nextpid + 1, t.reaped)
  }

  /** It gets a kernel stack, after the lock is released. */
  function Stack(t: Table, p: nat, np: nat): Table
    requires At(t, p) && At(t, np)
  {
    var t1 := Set(t, np, t.procs[np].(kstack := Some(|t.places|)));
    Table(t1.procs[p := t1.procs[p].(act := Forking(np, Stacked))], t.places + [Kstack(np)], t.nextpid, t.reaped)
  }

  /** There was no stack, or copyuvm() failed: the stack, if any, is freed and the slot unused again. */
  function Drop(t: Table, p: nat, np: nat): Table
    requires At(t, p) && At(t, np)
  {
    var t1 := Set(t, np, t.procs[np].(state := Unused, kstack := None));
    Table(t1.procs[p := t1.procs[p].(act := User)], Free(t.places, t.procs[np].kstack), t.nextpid, t.reaped)
  }

  function Copy(t: Table, p: nat, np: nat): Table
    requires At(t, p) && At(t, np)
  {
    var t1 := Set(t, np, t.procs[np].(pgdir := Some(|t.places|), parent := Some(p)));
    Table(t1.procs[p := t1.procs[p].(act := Forking(np, Copied))], t.places + [Pgdir(np)], t.nextpid, t.reaped)
  }

  function Start(t: Table, p: nat, np: nat): Table
    requires At(t, p) && At(t, np)
  {
    var t1 := Set(t, np, t.procs[np].(state := Live));
    Set(t1, p, t1.procs[p].(act := User))
  }

  function ExitOf(t: Table, init: nat, p: nat): (t': Table)
    requires At(t, p)
    ensures |t'.procs| == |t.procs| && forall c :: 0 <= c < |t.procs| ==> t'.procs[c] == AfterExit(t, init, p, c)
  {
    t.(procs := seq(|t.procs|, c requires 0 <= c < |t.procs| => AfterExit(t, init, p, c)))
  }

  function WaitOf(t: Table, p: nat): Table
    requires At(t, p)
  {
    if HasZombie(t, p) then Reap(t, p, FirstZombie(t, p, 0))
    else if !HasKids(t, p) || t.procs[p].killed then Set(t, p, t.procs[p].(act := User, chan := None))
    else Set(t, p, t.procs[p].(state := Sleeping, act := Waiting, chan := Some(p)))
  }

  function Do(t: Table, init: nat, p: nat, a: Action): Table
    requires Enabled(t, init, p, a)
  {
    var pr := t.procs[p];
    match a
    case ForkTake(np) => Take(t, p, np)
    case ForkNoStack => Drop(t, p, pr.act.np)
    case ForkStack => Stack(t, p, pr.act.np)
    case ForkFail => Drop(t, p, pr.act.np)
    case ForkCopy => Copy(t, p, pr.act.np)
    case ForkDone => Start(t, p, pr.act.np)
    case Exit => ExitOf(t, init, p)
    case Wait => WaitOf(t, p)
    case Kill(v) =>
      var state := if t.procs[v].state == Sleeping then Live else t.procs[v].state;
      Set(t, v, t.procs[v].(killed := true, state := state))
    case SleepElsewhere => Set(t, p, pr.(state := Sleeping))
    case WakeElsewhere => Set(t, p, pr.(state := Live))
  }

  // ---------------------------------------------------------------- what every step keeps

  /** Every process but init that runs, sleeps or is a zombie has a parent that runs or sleeps. */
  predicate FamilyOk(t: Table, init: nat, p: nat)
    requires At(t, p)
  {
    var pr := t.procs[p];
    if p == init then IsLive(pr) && pr.parent == None
    else IsLive(pr) || pr.state == Zombie ==>
      pr.parent.Some? && pr.parent.value != p && At(t, pr.parent.value) && IsLive(t.procs[pr.parent.value])
  }

  ghost predicate Family(t: Table, init: nat) {
    At(t, init) && forall p :: 0 <= p < |t.procs| ==> FamilyOk(t, init, p)
  }

  /** A fork() works on an embryo of its own, with the forking process as parent once it is copied. */
  predicate SlotOk(t: Table, p: nat)
    requires At(t, p)
  {
    var pr := t.procs[p];
    && (pr.act.Forking? ==>
        pr.state == Live && At(t, pr.act.np) && t.procs[pr.act.np].state == Embryo
        && (t.procs[pr.act.np].kstack.Some? <==> pr.act.stage != Taken)
        && t.procs[pr.act.np].parent == if pr.act.stage == Copied then Some(p) else None)
    && match pr.state
       case Unused => pr.parent == None && pr.kstack == None && pr.pgdir == None && pr.act == User
       case Embryo => pr.act == User && (pr.parent.Some? <==> pr.pgdir.Some?) && (pr.pgdir.Some? ==> pr.kstack.Some?)
       case Zombie => pr.kstack.Some? && pr.pgdir.Some? && pr.act == User
       case Live => pr.kstack.Some? && pr.pgdir.Some?
       case Sleeping => pr.kstack.Some? && pr.pgdir.Some?
  }

  predicate ForksApart(t: Table, p: nat, q: nat)
    requires At(t, p) && At(t, q)
  {
    p != q && t.procs[p].act.Forking? && t.procs[q].act.Forking? ==> t.procs[p].act.np != t.procs[q].act.np
  }

  ghost predicate Slots(t: Table) {
    && (forall p :: 0 <= p < |t.procs| ==> SlotOk(t, p))
    && (forall p, q :: 0 <= p < |t.procs| && 0 <= q < |t.procs| ==> ForksApart(t, p, q))
  }

  /** A process asleep in wait() has a child, and none that is a zombie. */
  ghost predicate WaitOk(t: Table, p: nat)
    requires At(t, p)
  {
    t.procs[p].state == Sleeping && t.procs[p].act == Waiting ==>
      t.procs[p].chan == Some(p) && HasKids(t, p) && !HasZombie(t, p)
  }

  ghost predicate Waits(t: Table) {
    forall p :: 0 <= p < |t.procs| ==> WaitOk(t, p)
  }

  /** Every stack and page directory ever allocated is in exactly one slot or has been freed. */
  predicate HoldsOk(t: Table, p: nat)
    requires At(t, p)
  {
    && (t.procs[p].kstack.Some? ==>
          t.procs[p].kstack.value < |t.places| && t.places[t.procs[p].kstack.value] == Kstack(p))
    && (t.procs[p].pgdir.Some? ==> t.procs[p].pgdir.value < |t.places| && t.places[t.procs[p].pgdir.value] == Pgdir(p))
  }

  predicate PlaceOk(t: Table, r: nat)
    requires r < |t.places|
  {
    match t.places[r]
    case Kstack(p) => At(t, p) && t.procs[p].kstack == Some(r)
    case Pgdir(p) => At(t, p) && t.procs[p].pgdir == Some(r)
    case Freed => true
  }

  ghost predicate Places(t: Table) {
    && (forall p :: 0 <= p < |t.procs| ==> HoldsOk(t, p))
    && (forall r :: 0 <= r < |t.places| ==> PlaceOk(t, r))
  }

  /** wait() returns a pid once. */
  predicate PidOk(t: Table, p: nat)
    requires At(t, p)
  {
    t.procs[p].state != Unused ==> t.procs[p].pid < t.nextpid && t.procs[p].pid !in t.reaped
  }

  predicate PidsApart(t: Table, p: nat, q: nat)
    requires At(t, p) && At(t, q)
  {
    p != q && t.procs[p].state != Unused && t.procs[q].state != Unused ==> t.procs[p].pid != t.procs[q].pid
  }

  ghost predicate Pids(t: Table) {
    && (forall p :: 0 <= p < |t.procs| ==> PidOk(t, p))
    && (forall p, q :: 0 <= p < |t.procs| && 0 <= q < |t.procs| ==> PidsApart(t, p, q))
    && ReapedOk(t)
  }

  ghost predicate ReapedOk(t: Table) {
    && (forall i :: 0 <= i < |t.reaped| ==> t.reaped[i] < t.nextpid)
    && (forall i, j :: 0 <= i < j < |t.reaped| ==> t.reaped[i] != t.reaped[j])
  }

  ghost predicate Relations(t: Table, init: nat) { Slots(t) && Family(t, init) && Waits(t) }
  ghost predicate Accounts(t: Table) { Places(t) && Pids(t) }
  ghost predicate Inv(t: Table, init: nat) { Relations(t, init) && Accounts(t) }

  // ---------------------------------------------------------------- one lemma per step

  /** No child of q appears, disappears or becomes a zombie: q's sleep stays justified. */
  lemma KidsSame(t: Table, t': Table, q: nat)
    requires |t'.procs| == |t.procs|
    requires forall c :: 0 <= c < |t.procs| && t.procs[c].parent == Some(q) ==> t'.procs[c].parent == Some(q)
    requires forall c :: 0 <= c < |t.procs| && t'.procs[c].parent == Some(q) && t'.procs[c].state == Zombie ==>
      t.procs[c].parent == Some(q) && t.procs[c].state == Zombie
    ensures HasKids(t, q) ==> HasKids(t', q)
    ensures HasZombie(t', q) ==> HasZombie(t, q)
  {
    if HasKids(t, q) {
      var c :| 0 <= c < |t.procs| && ChildOf(t, c, q);
      assert ChildOf(t', c, q);
    }
    if HasZombie(t', q) {
      var c :| 0 <= c < |t.procs| && ZombieChild(t', c, q);
      assert ZombieChild(t, c, q);
    }
  }

  lemma RelationsAt(t: Table, init: nat, q: nat)
    requires Relations(t, init) && At(t, q)
    ensures SlotOk(t, q) && FamilyOk(t, init, q) && WaitOk(t, q)
  {
  }

  lemma ForksAt(t: Table, init: nat, x: nat, y: nat)
    requires Relations(t, init) && At(t, x) && At(t, y)
    ensures ForksApart(t, x, y) && SlotOk(t, x) && SlotOk(t, y)
  {
  }

  lemma RelationsFrom(t: Table, init: nat)
    requires At(t, init)
    requires forall q :: 0 <= q < |t.procs| ==> SlotOk(t, q) && FamilyOk(t, init, q) && WaitOk(t, q)
    requires forall x, y :: 0 <= x < |t.procs| && 0 <= y < |t.procs| ==> ForksApart(t, x, y)
    ensures Relations(t, init)
  {
  }

  lemma AccountsAt(t: Table, q: nat)
    requires Accounts(t) && At(t, q)
    ensures HoldsOk(t, q) && PidOk(t, q)
  {
  }

  lemma PidsAt(t: Table, x: nat, y: nat)
    requires Accounts(t) && At(t, x) && At(t, y)
    ensures PidsApart(t, x, y) && PidOk(t, x) && PidOk(t, y)
  {
  }

  lemma PlaceAt(t: Table, r: nat)
    requires Accounts(t) && r < |t.places|
    ensures PlaceOk(t, r)
  {
  }

  lemma AccountsFrom(t: Table)
    requires forall q :: 0 <= q < |t.procs| ==> HoldsOk(t, q) && PidOk(t, q)
    requires forall x, y :: 0 <= x < |t.procs| && 0 <= y < |t.procs| ==> PidsApart(t, x, y)
    requires forall r :: 0 <= r < |t.places| ==> PlaceOk(t, r)
    requires ReapedOk(t)
    ensures Accounts(t)
  {
  }

  lemma ReapedAt(t: Table)
    requires Accounts(t)
    ensures ReapedOk(t)
  {
  }

  /** A step that touches one slot, and there only what is not about family, forks or storage. */
  ghost predicate Minor(t: Table, v: nat, pr: Proc)
    requires At(t, v)
  {
    var was := t.procs[v];
    && (pr.pid, pr.parent, pr.kstack, pr.pgdir) == (was.pid, was.parent, was.kstack, was.pgdir)
    && (pr.state == was.state || (IsLive(pr) && IsLive(was)))
    && (pr.act == was.act || (!pr.act.Forking? && !was.act.Forking? && IsLive(pr)))
    && (pr.act.Forking? && pr.state != was.state ==> pr.state == Live)
    && (pr.state == Sleeping && pr.act == Waiting ==>
          pr == was || (pr.chan == Some(v) && HasKids(t, v) && !HasZombie(t, v)))
  }

  lemma MinorRelations(t: Table, init: nat, v: nat, pr: Proc)
    requires Relations(t, init) && At(t, v) && At(t, init) && Minor(t, v, pr)
    ensures Relations(Set(t, v, pr), init)
  {
    hide Relations, HasKids, HasZombie;
    var t' := Set(t, v, pr);
    RelationsAt(t, init, v);
    forall q | 0 <= q < |t.procs|
      ensures SlotOk(t', q) && FamilyOk(t', init, q) && WaitOk(t', q)
    {
      RelationsAt(t, init, q);
      KidsSame(t, t', q);
    }
    forall x, y | 0 <= x < |t.procs| && 0 <= y < |t.procs|
      ensures ForksApart(t', x, y)
    {
      ForksAt(t, init, x, y);
    }
    RelationsFrom(t', init);
  }

  lemma MinorAccounts(t: Table, init: nat, v: nat, pr: Proc)
    requires Inv(t, init) && At(t, v) && Minor(t, v, pr)
    ensures Accounts(Set(t, v, pr))
  {
    hide Relations, Accounts;
    var t' := Set(t, v, pr);
    ReapedAt(t);
    forall q | 0 <= q < |t.procs|
      ensures HoldsOk(t', q) && PidOk(t', q)
    {
      AccountsAt(t, q);
    }
    forall x, y | 0 <= x < |t.procs| && 0 <= y < |t.procs|
      ensures PidsApart(t', x, y)
    {
      PidsAt(t, x, y);
    }
    forall r | 0 <= r < |t'.places|
      ensures PlaceOk(t', r)
    {
      PlaceAt(t, r);
    }
    AccountsFrom(t');
  }

  // ---------------------------------------------------------------- fork(), step by step

  /** Between p, inside fork(), and the slot np it works on: np becomes p's child, if it does, before it runs. */
  ghost predicate ForkStep(t: Table, t': Table, p: nat, np: nat) {
    && At(t, p) && At(t, np) && |t'.procs| == |t.procs|
    && (forall c :: 0 <= c < |t.procs| && c != p && c != np ==> t'.procs[c] == t.procs[c])
    && t.procs[p].state == Live && t'.procs[p] == t.procs[p].(act := t'.procs[p].act)
    && (t.procs[np].state == Unused || t.procs[np].state == Embryo)
    && t'.procs[np].state != Zombie && t'.procs[np].state != Sleeping
    && (t'.procs[np].parent == t.procs[np].parent || (t.procs[np].parent == None && t'.procs[np].parent == Some(p)))
    && (t'.procs[np].state == Live ==> t'.procs[np].parent == Some(p))
  }

  /** Such a step takes no parent away and gives nobody a zombie child. */
  lemma ForkFamily(t: Table, t': Table, init: nat, p: nat, np: nat)
    requires Relations(t, init) && At(t, init) && ForkStep(t, t', p, np)
    ensures forall q :: 0 <= q < |t'.procs| ==> FamilyOk(t', init, q) && WaitOk(t', q)
  {
    hide Relations, SlotOk, HasKids, HasZombie;
    RelationsAt(t, init, init);
    forall q | 0 <= q < |t'.procs|
      ensures FamilyOk(t', init, q) && WaitOk(t', q)
    {
      RelationsAt(t, init, q);
      KidsSame(t, t', q);
    }
  }

  lemma TakeRelations(t: Table, init: nat, p: nat, np: nat)
    requires Relations(t, init) && Enabled(t, init, p, ForkTake(np))
    ensures Relations(Take(t, p, np), init)
  {
    hide Relations, FamilyOk, WaitOk;
    var t' := Take(t, p, np);
    RelationsAt(t, init, p);
    RelationsAt(t, init, np);
    ForkFamily(t, t', init, p, np);
    forall q | 0 <= q < |t.procs|
      ensures SlotOk(t', q)
    {
      RelationsAt(t, init, q);
    }
    forall x, y | 0 <= x < |t.procs| && 0 <= y < |t.procs|
      ensures ForksApart(t', x, y)
    {
      ForksAt(t, init, x, y);
    }
    RelationsFrom(t', init);
  }

  lemma TakeAccounts(t: Table, init: nat, p: nat, np: nat)
    requires Inv(t, init) && Enabled(t, init, p, ForkTake(np))
    ensures Accounts(Take(t, p, np))
  {
    hide Relations, Accounts;
    var t' := Take(t, p, np);
    RelationsAt(t, init, p);
    RelationsAt(t, init, np);
    ReapedAt(t);
    forall q | 0 <= q < |t.procs|
      ensures HoldsOk(t', q) && PidOk(t', q)
    {
      AccountsAt(t, q);
    }
    forall x, y | 0 <= x < |t.procs| && 0 <= y < |t.procs|
      ensures PidsApart(t', x, y)
    {
      PidsAt(t, x, y);
    }
    forall r | 0 <= r < |t'.places|
      ensures PlaceOk(t', r)
    {
      PlaceAt(t, r);
    }
    AccountsFrom(t');
  }

  lemma StackRelations(t: Table, init: nat, p: nat)
    requires Relations(t, init) && Enabled(t, init, p, ForkStack)
    ensures Relations(Stack(t, p, t.procs[p].act.np), init)
  {
    hide Relations, FamilyOk, WaitOk;
    var np := t.procs[p].act.np;
    var t' := Stack(t, p, np);
    RelationsAt(t, init, p);
    RelationsAt(t, init, np);
    ForkFamily(t, t', init, p, np);
    forall q | 0 <= q < |t.procs|
      ensures SlotOk(t', q)
    {
      RelationsAt(t, init, q);
      ForksAt(t, init, p, q);
    }
    forall x, y | 0 <= x < |t.procs| && 0 <= y < |t.procs|
      ensures ForksApart(t', x, y)
    {
      ForksAt(t, init, x, y);
    }
    RelationsFrom(t', init);
  }

  lemma StackAccounts(t: Table, init: nat, p: nat)
    requires Inv(t, init) && Enabled(t, init, p, ForkStack)
    ensures Accounts(Stack(t, p, t.procs[p].act.np))
  {
    hide Relations, Accounts;
    var np := t.procs[p].act.np;
    var t' := Stack(t, p, np);
    RelationsAt(t, init, p);
    RelationsAt(t, init, np);
    AccountsAt(t, np);
    ReapedAt(t);
    forall q | 0 <= q < |t.procs|
      ensures HoldsOk(t', q) && PidOk(t', q)
    {
      AccountsAt(t, q);
    }
    forall x, y | 0 <= x < |t.procs| && 0 <= y < |t.procs|
      ensures PidsApart(t', x, y)
    {
      PidsAt(t, x, y);
    }
    forall r | 0 <= r < |t'.places|
      ensures PlaceOk(t', r)
    {
      if r < |t.places| { PlaceAt(t, r); }
    }
    AccountsFrom(t');
  }

  lemma DropRelations(t: Table, init: nat, p: nat)
    requires Relations(t, init) && (Enabled(t, init, p, ForkFail) || Enabled(t, init, p, ForkNoStack))
    ensures Relations(Drop(t, p, t.procs[p].act.np), init)
  {
    hide Relations, FamilyOk, WaitOk;
    var np := t.procs[p].act.np;
    var t' := Drop(t, p, np);
    RelationsAt(t, init, p);
    RelationsAt(t, init, np);
    ForkFamily(t, t', init, p, np);
    forall q | 0 <= q < |t.procs|
      ensures SlotOk(t', q)
    {
      RelationsAt(t, init, q);
      ForksAt(t, init, p, q);
    }
    forall x, y | 0 <= x < |t.procs| && 0 <= y < |t.procs|
      ensures ForksApart(t', x, y)
    {
      ForksAt(t, init, x, y);
    }
    RelationsFrom(t', init);
  }

  lemma DropAccounts(t: Table, init: nat, p: nat)
    requires Inv(t, init) && (Enabled(t, init, p, ForkFail) || Enabled(t, init, p, ForkNoStack))
    ensures Accounts(Drop(t, p, t.procs[p].act.np))
  {
    hide Relations, Accounts;
    var np := t.procs[p].act.np;
    var t' := Drop(t, p, np);
    RelationsAt(t, init, p);
    RelationsAt(t, init, np);
    AccountsAt(t, np);
    ReapedAt(t);
    forall q | 0 <= q < |t.procs|
      ensures HoldsOk(t', q) && PidOk(t', q)
    {
      AccountsAt(t, q);
    }
    forall x, y | 0 <= x < |t.procs| && 0 <= y < |t.procs|
      ensures PidsApart(t', x, y)
    {
      PidsAt(t, x, y);
    }
    forall r | 0 <= r < |t'.places|
      ensures PlaceOk(t', r)
    {
      PlaceAt(t, r);
    }
    AccountsFrom(t');
  }

  lemma CopyRelations(t: Table, init: nat, p: nat)
    requires Relations(t, init) && Enabled(t, init, p, ForkCopy)
    ensures Relations(Copy(t, p, t.procs[p].act.np), init)
  {
    hide Relations, FamilyOk, WaitOk;
    var np := t.procs[p].act.np;
    var t' := Copy(t, p, np);
    RelationsAt(t, init, p);
    RelationsAt(t, init, np);
    ForkFamily(t, t', init, p, np);
    forall q | 0 <= q < |t.procs|
      ensures SlotOk(t', q)
    {
      RelationsAt(t, init, q);
      ForksAt(t, init, p, q);
    }
    forall x, y | 0 <= x < |t.procs| && 0 <= y < |t.procs|
      ensures ForksApart(t', x, y)
    {
      ForksAt(t, init, x, y);
    }
    RelationsFrom(t', init);
  }

  lemma CopyAccounts(t: Table, init: nat, p: nat)
    requires Inv(t, init) && Enabled(t, init, p, ForkCopy)
    ensures Accounts(Copy(t, p, t.procs[p].act.np))
  {
    hide Relations, Accounts;
    var np := t.procs[p].act.np;
    var t' := Copy(t, p, np);
    RelationsAt(t, init, p);
    RelationsAt(t, init, np);
    AccountsAt(t, np);
    ReapedAt(t);
    forall q | 0 <= q < |t.procs|
      ensures HoldsOk(t', q) && PidOk(t', q)
    {
      AccountsAt(t, q);
    }
    forall x, y | 0 <= x < |t.procs| && 0 <= y < |t.procs|
      ensures PidsApart(t', x, y)
    {
      PidsAt(t, x, y);
    }
    forall r | 0 <= r < |t'.places|
      ensures PlaceOk(t', r)
    {
      if r < |t.places| { PlaceAt(t, r); }
    }
    AccountsFrom(t');
  }

  lemma StartRelations(t: Table, init: nat, p: nat)
    requires Relations(t, init) && Enabled(t, init, p, ForkDone)
    ensures Relations(Start(t, p, t.procs[p].act.np), init)
  {
    hide Relations, FamilyOk, WaitOk;
    var np := t.procs[p].act.np;
    var t' := Start(t, p, np);
    RelationsAt(t, init, p);
    RelationsAt(t, init, np);
    ForkFamily(t, t', init, p, np);
    forall q | 0 <= q < |t.procs|
      ensures SlotOk(t', q)
    {
      RelationsAt(t, init, q);
      ForksAt(t, init, p, q);
    }
    forall x, y | 0 <= x < |t.procs| && 0 <= y < |t.procs|
      ensures ForksApart(t', x, y)
    {
      ForksAt(t, init, x, y);
    }
    RelationsFrom(t', init);
  }

  lemma StartAccounts(t: Table, init: nat, p: nat)
    requires Inv(t, init) && Enabled(t, init, p, ForkDone)
    ensures Accounts(Start(t, p, t.procs[p].act.np))
  {
    hide Relations, Accounts;
    var np := t.procs[p].act.np;
    var t' := Start(t, p, np);
    RelationsAt(t, init, p);
    RelationsAt(t, init, np);
    ReapedAt(t);
    forall q | 0 <= q < |t.procs|
      ensures HoldsOk(t', q) && PidOk(t', q)
    {
      AccountsAt(t, q);
    }
    forall x, y | 0 <= x < |t.procs| && 0 <= y < |t.procs|
      ensures PidsApart(t', x, y)
    {
      PidsAt(t, x, y);
    }
    forall r | 0 <= r < |t'.places|
      ensures PlaceOk(t', r)
    {
      PlaceAt(t, r);
    }
    AccountsFrom(t');
  }

  lemma ReapRelations(t: Table, init: nat, p: nat, c: nat)
    requires Relations(t, init) && Enabled(t, init, p, Wait) && ZombieChild(t, c, p)
    ensures Relations(Reap(t, p, c), init)
  {
    hide Relations, FamilyOk, WaitOk, HasKids, HasZombie;
    var t' := Reap(t, p, c);
    RelationsAt(t, init, p);
    RelationsAt(t, init, c);
    ReapFamily(t, init, p, c);
    forall q | 0 <= q < |t.procs|
      ensures SlotOk(t', q)
    {
      RelationsAt(t, init, q);
    }
    forall x, y | 0 <= x < |t.procs| && 0 <= y < |t.procs|
      ensures ForksApart(t', x, y)
    {
      ForksAt(t, init, x, y);
    }
    RelationsFrom(t', init);
  }

  lemma ReapFamily(t: Table, init: nat, p: nat, c: nat)
    requires Relations(t, init) && Enabled(t, init, p, Wait) && ZombieChild(t, c, p)
    ensures forall q :: 0 <= q < |t.procs| ==> FamilyOk(Reap(t, p, c), init, q) && WaitOk(Reap(t, p, c), q)
  {
    hide Relations, HasKids, HasZombie;
    var t' := Reap(t, p, c);
    RelationsAt(t, init, p);
    RelationsAt(t, init, c);
    forall q | 0 <= q < |t.procs|
      ensures FamilyOk(t', init, q) && WaitOk(t', q)
    {
      RelationsAt(t, init, q);
      if q != p { KidsSame(t, t', q); }
    }
  }

  lemma ReapAccounts(t: Table, init: nat, p: nat, c: nat)
    requires Inv(t, init) && Enabled(t, init, p, Wait) && ZombieChild(t, c, p)
    ensures Accounts(Reap(t, p, c))
  {
    hide Relations, Accounts;
    var t' := Reap(t, p, c);
    RelationsAt(t, init, p);
    RelationsAt(t, init, c);
    AccountsAt(t, c);
    ReapedAt(t);
    forall q | 0 <= q < |t.procs|
      ensures HoldsOk(t', q) && PidOk(t', q)
    {
      AccountsAt(t, q);
      PidsAt(t, q, c);
    }
    forall x, y | 0 <= x < |t.procs| && 0 <= y < |t.procs|
      ensures PidsApart(t', x, y)
    {
      PidsAt(t, x, y);
    }
    forall r | 0 <= r < |t'.places|
      ensures PlaceOk(t', r)
    {
      PlaceAt(t, r);
    }
    AccountsFrom(t');
  }

  lemma ExitRelations(t: Table, init: nat, p: nat)
    requires Relations(t, init) && Enabled(t, init, p, Exit)
    ensures Relations(ExitOf(t, init, p), init)
  {
    hide Relations, FamilyOk, WaitOk, HasKids, HasZombie;
    var t' := ExitOf(t, init, p);
    RelationsAt(t, init, p);
    RelationsAt(t, init, init);
    ExitFamily(t, init, p);
    forall q | 0 <= q < |t.procs|
      ensures SlotOk(t', q)
    {
      RelationsAt(t, init, q);
    }
    forall x, y | 0 <= x < |t.procs| && 0 <= y < |t.procs|
      ensures ForksApart(t', x, y)
    {
      ForksAt(t, init, x, y);
    }
    RelationsFrom(t', init);
  }

  lemma ExitFamily(t: Table, init: nat, p: nat)
    requires Relations(t, init) && Enabled(t, init, p, Exit)
    ensures forall q :: 0 <= q < |t.procs| ==> FamilyOk(ExitOf(t, init, p), init, q) && WaitOk(ExitOf(t, init, p), q)
  {
    hide Relations, HasKids, HasZombie, WaitOk;
    var t' := ExitOf(t, init, p);
    RelationsAt(t, init, p);
    RelationsAt(t, init, init);
    forall q | 0 <= q < |t.procs|
      ensures FamilyOk(t', init, q) && WaitOk(t', q)
    {
      RelationsAt(t, init, q);
      ExitWaiter(t, init, p, q);
    }
  }

  /** exit() wakes whoever waits for a child it makes, or hands over as, a zombie. */
  lemma ExitWaiter(t: Table, init: nat, p: nat, q: nat)
    requires Relations(t, init) && Enabled(t, init, p, Exit) && At(t, q)
    ensures WaitOk(ExitOf(t, init, p), q)
  {
    hide Relations;
    var t' := ExitOf(t, init, p);
    RelationsAt(t, init, q);
    RelationsAt(t, init, p);
    if t'.procs[q].state == Sleeping && t'.procs[q].act == Waiting {
      var c :| 0 <= c < |t.procs| && ChildOf(t, c, q);
      assert ChildOf(t', c, q);
      forall d | 0 <= d < |t.procs|
        ensures !ZombieChild(t', d, q)
      {
        assert !ZombieChild(t, d, q);
        assert ZombieChild(t, d, p) ==> HasZombie(t, p);
      }
    }
  }

  lemma ExitAccounts(t: Table, init: nat, p: nat)
    requires Inv(t, init) && Enabled(t, init, p, Exit)
    ensures Accounts(ExitOf(t, init, p))
  {
    hide Relations, Accounts;
    var t' := ExitOf(t, init, p);
    ReapedAt(t);
    forall q | 0 <= q < |t.procs|
      ensures HoldsOk(t', q) && PidOk(t', q)
    {
      AccountsAt(t, q);
    }
    forall x, y | 0 <= x < |t.procs| && 0 <= y < |t.procs|
      ensures PidsApart(t', x, y)
    {
      PidsAt(t, x, y);
    }
    forall r | 0 <= r < |t'.places|
      ensures PlaceOk(t', r)
    {
      PlaceAt(t, r);
    }
    AccountsFrom(t');
  }

  lemma StepKeeps(t: Table, init: nat, p: nat, a: Action)
    requires Inv(t, init) && Enabled(t, init, p, a)
    ensures Inv(Do(t, init, p, a), init)
  {
    hide Relations, Accounts, ExitOf, Take, Stack, Drop, Copy, Start, Reap;
    var pr := t.procs[p];
    match a
    case ForkTake(np) => TakeRelations(t, init, p, np); TakeAccounts(t, init, p, np);
    case ForkNoStack => DropRelations(t, init, p); DropAccounts(t, init, p);
    case ForkStack => StackRelations(t, init, p); StackAccounts(t, init, p);
    case ForkFail => DropRelations(t, init, p); DropAccounts(t, init, p);
    case ForkCopy => CopyRelations(t, init, p); CopyAccounts(t, init, p);
    case ForkDone => StartRelations(t, init, p); StartAccounts(t, init, p);
    case Exit => ExitRelations(t, init, p); ExitAccounts(t, init, p);
    case Wait =>
      if HasZombie(t, p) {
        var c := FirstZombie(t, p, 0);
        ReapRelations(t, init, p, c);
        ReapAccounts(t, init, p, c);
      } else {
        var pr' :=
          if !HasKids(t, p) || pr.killed then pr.(act := User, chan := None)
          else pr.(state := Sleeping, act := Waiting, chan := Some(p));
        MinorRelations(t, init, p, pr');
        MinorAccounts(t, init, p, pr');
      }
    case Kill(v) =>
      var pr' := t.procs[v].(killed := true, state := if t.procs[v].state == Sleeping then Live else t.procs[v].state);
      MinorRelations(t, init, v, pr');
      MinorAccounts(t, init, v, pr');
    case SleepElsewhere =>
      MinorRelations(t, init, p, pr.(state := Sleeping));
      MinorAccounts(t, init, p, pr.(state := Sleeping));
    case WakeElsewhere =>
      MinorRelations(t, init, p, pr.(state := Live));
      MinorAccounts(t, init, p, pr.(state := Live));
  }

  // ---------------------------------------------------------------- every run

  datatype Step = Step(p: nat, a: Action)

  ghost predicate CanRun(t: Table, init: nat, steps: seq<Step>)
    decreases |steps|
  {
    steps != [] ==>
      && Enabled(t, init, steps[0].p, steps[0].a)
      && CanRun(Do(t, init, steps[0].p, steps[0].a), init, steps[1..])
  }

  ghost function Run(t: Table, init: nat, steps: seq<Step>): Table
    requires CanRun(t, init, steps)
    decreases |steps|
  {
    if steps == [] then t else Run(Do(t, init, steps[0].p, steps[0].a), init, steps[1..])
  }

  lemma {:induction false} RunKeeps(t: Table, init: nat, steps: seq<Step>)
    requires Inv(t, init) && CanRun(t, init, steps)
    ensures Inv(Run(t, init, steps), init)
    decreases |steps|
  {
    if steps != [] {
      StepKeeps(t, init, steps[0].p, steps[0].a);
      RunKeeps(Do(t, init, steps[0].p, steps[0].a), init, steps[1..]);
    }
  }

  /**
   In every run from the first process: parents are alive, nobody sleeps in wait() with a zombie child
   or without a child, wait() never returns a pid twice, and each stack and page directory is held by
   exactly one slot or has been freed.
   */
  lemma EveryRun(t: Table, init: nat, steps: seq<Step>)
    requires Init(t, init) && CanRun(t, init, steps)
    ensures Inv(Run(t, init, steps), init)
  {
    forall r | 0 <= r < |t.places|
      ensures PlaceOk(t, r)
    {
    }
    RunKeeps(t, init, steps);
  }

  /** Reaping frees exactly the zombie's stack and page directory, both held until then. */
  lemma ReapFrees(t: Table, init: nat, p: nat)
    requires Inv(t, init) && Enabled(t, init, p, Wait) && HasZombie(t, p)
    ensures var c, t' := FirstZombie(t, p, 0), Do(t, init, p, Wait);
      && t.procs[c].kstack.Some? && t.procs[c].pgdir.Some? && t.procs[c].kstack != t.procs[c].pgdir
      && t'.procs[c].state == Unused && t'.reaped == t.reaped + [t.procs[c].pid] && t.procs[c].pid !in t.reaped
      && forall r :: 0 <= r < |t.places| ==>
           (t'.places[r] == if Some(r) in {t.procs[c].kstack, t.procs[c].pgdir} then Freed else t.places[r])
           && (Some(r) in {t.procs[c].kstack, t.procs[c].pgdir} ==> t.places[r] != Freed)
  {
    var c := FirstZombie(t, p, 0);
    assert SlotOk(t, c) && HoldsOk(t, c) && PidOk(t, c);
  }

  /** What a step gives to kfree() and freevm(). */
  function FreedBy(t: Table, init: nat, p: nat, a: Action): set<Option<nat>>
    requires Enabled(t, init, p, a)
  {
    if a == Wait && HasZombie(t, p) then
      var z := t.procs[FirstZombie(t, p, 0)];
      {z.kstack, z.pgdir}
    else if a == ForkFail then {t.procs[t.procs[p].act.np].kstack}
    else {}
  }

  /** A step frees only what is held, and what it does not free stays where it is. */
  lemma StepFrees(t: Table, init: nat, p: nat, a: Action)
    requires Inv(t, init) && Enabled(t, init, p, a)
    ensures var freed, t' := FreedBy(t, init, p, a), Do(t, init, p, a);
      && (forall o :: o in freed ==> o.Some? && o.value < |t.places| && t.places[o.value] != Freed)
      && |t.places| <= |t'.places|
      && forall r :: 0 <= r < |t.places| ==> t'.places[r] == if Some(r) in freed then Freed else t.places[r]
  {
    if a == ForkFail || a == ForkNoStack {
      assert SlotOk(t, p) && SlotOk(t, t.procs[p].act.np) && HoldsOk(t, t.procs[p].act.np);
    } else if a == Wait && HasZombie(t, p) {
      ReapFrees(t, init, p);
      assert HoldsOk(t, FirstZombie(t, p, 0));
    }
  }

  /** Over a whole run storage is never lost: it stays in its slot until it is freed, and then stays freed. */
  lemma {:induction false} FreedStays(t: Table, init: nat, steps: seq<Step>)
    requires Inv(t, init) && CanRun(t, init, steps)
    ensures var t' := Run(t, init, steps);
      && |t.places| <= |t'.places|
      && forall r :: 0 <= r < |t.places| ==> t'.places[r] == Freed || t'.places[r] == t.places[r]
    decreases |steps|
  {
    if steps != [] {
      var t1 := Do(t, init, steps[0].p, steps[0].a);
      StepFrees(t, init, steps[0].p, steps[0].a);
      StepKeeps(t, init, steps[0].p, steps[0].a);
      FreedStays(t1, init, steps[1..]);
      assert forall r :: 0 <= r < |t.places| ==> t1.places[r] == Freed || t1.places[r] == t.places[r];
    }
  }

  // ---------------------------------------------------------------- the scans of proc.c

  /** Slot c when exit()'s loop is about to look at slot i. */
  ghost function DuringExit(t: Table, init: nat, p: nat, c: nat, i: nat): Proc
    requires At(t, p) && At(t, c)
  {
    var pr := t.procs[c];
    var woken :=
      || Wakes(pr, t.procs[p].parent)
      || (Wakes(pr, Some(init)) && exists z :: 0 <= z < i && ZombieChild(t, z, p));
    var parent := if c < i && pr.parent == Some(p) then Some(init) else pr.parent;
    pr.(state := if woken then Live else pr.state, parent := parent)
  }

  class ProcTable {
    const init: nat
    var procs: seq<Proc>
    var places: seq<Place>
    var nextpid: nat
    var reaped: seq<nat>

    ghost function T(): Table
      reads this
    {
      Table(procs, places, nextpid, reaped)
    }

    constructor (n: nat, init: nat)
      requires init < n
      ensures this.init == init && |procs| == n && Init(T(), init) && Inv(T(), init)
    {
      this.init := init;
      procs := seq(n, i => if i == init then Proc(Live, 1, None, false, None, Some(0), Some(1), User) else Slot());
      places, nextpid, reaped := [Kstack(init), Pgdir(init)], 2, [];
      new;
      EveryRun(T(), init, []);
    }

    method Wakeup1(chan: Option<nat>)
      modifies this`procs
      ensures |procs| == old(|procs|)
      ensures forall c :: 0 <= c < |procs| ==>
        procs[c] == if Wakes(old(procs[c]), chan) then old(procs[c]).(state := Live) else old(procs[c])
    {
      for i := 0 to |procs|
        invariant |procs| == old(|procs|)
        invariant forall c :: 0 <= c < |procs| ==>
          procs[c] == if c < i && Wakes(old(procs[c]), chan) then old(procs[c]).(state := Live) else old(procs[c])
      {
        if procs[i].state == Sleeping && chan.Some? && procs[i].chan == chan {
          procs := procs[i := procs[i].(state := Live)];
        }
      }
    }

    method Exit(p: nat)
      requires Inv(T(), init) && Enabled(T(), init, p, Action.Exit)
      modifies this`procs
      ensures T() == Do(old(T()), init, p, Action.Exit) && Inv(T(), init)
    {
      hide Relations, Accounts;
      ghost var t := T();
      StepKeeps(t, init, p, Action.Exit);
      Wakeup1(procs[p].parent);
      for i := 0 to |procs|
        invariant |procs| == |t.procs|
        invariant forall c :: 0 <= c < |procs| ==> procs[c] == DuringExit(t, init, p, c, i)
      {
        assert procs[i] == DuringExit(t, init, p, i, i);
        if procs[i].parent == Some(p) {
          procs := procs[i := procs[i].(parent := Some(init))];
          if procs[i].state == Zombie {
            assert ZombieChild(t, i, p);
            Wakeup1(Some(init));
          }
        }
      }
      procs := procs[p := procs[p].(state := Zombie)];
      assert forall c :: 0 <= c < |procs| ==> procs[c] == AfterExit(t, init, p, c);
      assert procs == ExitOf(t, init, p).procs;
    }

    /**
     wait() from acquiring the lock, or waking up, to releasing it or sleeping; -1 where it returns -1, -2
     where it sleeps.
     */
    method Wait(p: nat) returns (pid: int)
      requires Inv(T(), init) && Enabled(T(), init, p, Action.Wait)
      modifies this
      ensures T() == Do(old(T()), init, p, Action.Wait) && Inv(T(), init)
      ensures pid >= 0 <==> old(HasZombie(T(), p))
      ensures pid >= 0 ==> reaped == old(reaped) + [pid] && pid !in old(reaped)
      ensures pid == -2 <==> procs[p].state == Sleeping
    {
      hide Relations, Accounts;
      ghost var t := T();
      StepKeeps(t, init, p, Action.Wait);
      var havekids := false;
      for i := 0 to |procs|
        invariant T() == t
        invariant forall c :: 0 <= c < i ==> !ZombieChild(t, c, p)
        invariant havekids <==> exists c :: 0 <= c < i && ChildOf(t, c, p)
      {
        if procs[i].parent == Some(p) {
          assert ChildOf(t, i, p);
          havekids := true;
          if procs[i].state == Zombie {
            assert ZombieChild(t, i, p);
            assert FirstZombie(t, p, 0) == i;
            AccountsAt(t, i);
            pid := procs[i].pid;
            places := Free(Free(places, procs[i].kstack), procs[i].pgdir);
            procs := procs[i := Proc(Unused, 0, None, false, procs[i].chan, None, None, procs[i].act)];
            procs := procs[p := procs[p].(act := User, chan := None)];
            reaped := reaped + [pid];
            return;
          }
        }
      }
      assert !HasZombie(t, p);
      if !havekids || procs[p].killed {
        procs := procs[p := procs[p].(act := User, chan := None)];
        return -1;
      }
      procs := procs[p := procs[p].(state := Sleeping, act := Waiting, chan := Some(p))];
      return -2;
    }
  }
}
