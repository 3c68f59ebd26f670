/**
 The log protocol of log.c between processes: begin_op(), log_write(), end_op() and the commit that the
 last end_op() performs, for any number of processes and any interleaving.  Code between acquire() and
 release() of log.lock is one step; log_write()'s guard is a step of its own because it reads lh.n before
 taking the lock.  sleep() and wakeup() are the atomic operations the sleep-lock model shows them to be.
 */
module LogProtocol {

  import opened Params

  /** An operation has a number of its own, the blocks it has logged, and may be past log_write()'s guard. */
  datatype Pc =
    | Idle
    | Trying
    | Asleep
    | InOp(id: nat, logged: set<nat>, guarded: bool)
    | Committing
    | Committed

  datatype Panic = NoPanic | TooBig | OutsideTrans | LogCommitting

  /** A call of log_write(): which operation, which block. */
  datatype Entry = Entry(id: nat, block: nat)

  /** since: the log_write() calls not yet committed; commits: the calls each commit made permanent. */
  datatype State = State(
    procs: seq<Pc>, lh: seq<nat>, outstanding: int, committing: bool, panic: Panic,
    nextId: nat, since: seq<Entry>, commits: seq<seq<Entry>>)

  datatype Action = Call | Try | Guard | Write(block: nat) | End | Commit | CommitDone | Kill

  function Init(n: nat): State {
    State(seq(n, i => Idle), [], 0, false, NoPanic, 0, [], [])
  }

  /** begin_op()'s two reasons to wait. */
  predicate MustWait(s: State) {
    s.committing || |s.lh| + (s.outstanding + 1) * MAXOPBLOCKS > LOGSIZE
  }

  predicate Enabled(s: State, p: nat, a: Action) {
    && s.panic == NoPanic && p < |s.procs|
    && match a
       case Call => s.procs[p].Idle?
       case Try => s.procs[p].Trying?
       case Guard => s.procs[p].InOp? && !s.procs[p].guarded
       case Write(_) => s.procs[p].InOp? && s.procs[p].guarded
       case End => s.procs[p].InOp? && !s.procs[p].guarded
       case Commit => s.procs[p].Committing?
       case CommitDone => s.procs[p].Committed?
       case Kill => s.procs[p].Asleep?
  }

  /** wakeup(&log): every process asleep in begin_op() tests again. */
  function Wakeup(procs: seq<Pc>): (r: seq<Pc>)
    ensures |r| == |procs| && forall p :: 0 <= p < |r| ==> r[p] == if procs[p].Asleep? then Trying else procs[p]
  {
    seq(|procs|, p requires 0 <= p < |procs| => if procs[p].Asleep? then Trying else procs[p])
  }

  /** Log absorption: a block already in the header is not added again. */
  function Absorb(lh: seq<nat>, b: nat): seq<nat> { if b in lh then lh else lh + [b] }

  function Goto(s: State, p: nat, pc: Pc): State
    requires p < |s.procs|
  {
    s.(procs := s.procs[p := pc])
  }

  function Do(s: State, size: int, p: nat, a: Action): State
    requires Enabled(s, p, a)
  {
    match a
    case Call => Goto(s, p, Trying)
    case Try =>
      if MustWait(s) then Goto(s, p, Asleep)
      else Goto(s, p, InOp(s.nextId, {}, false)).(outstanding := s.outstanding + 1, nextId := s.nextId + 1)
    case Guard =>
      if |s.lh| >= LOGSIZE || |s.lh| >= size - 1 then s.(panic := TooBig)
      else if s.outstanding < 1 then s.(panic := OutsideTrans)
      else Goto(s, p, s.procs[p].(guarded := true))
    case Write(b) =>
      Goto(s, p, InOp(s.procs[p].id, s.procs[p].logged + {b}, false))
      .(lh := Absorb(s.lh, b), since := s.since + [Entry(s.procs[p].id, b)])
    case End =>
      if s.committing then s.(outstanding := s.outstanding - 1, panic := LogCommitting)
      else if s.outstanding == 1 then Goto(s, p, Committing).(outstanding := 0, committing := true)
      else s.(procs := Wakeup(s.procs[p := Idle]), outstanding := s.outstanding - 1)
    case Commit => Goto(s, p, Committed).(lh := [], since := [], commits := s.commits + [s.since])
    case CommitDone => s.(procs := Wakeup(s.procs[p := Idle]), committing := false)
    case Kill => Goto(s, p, Trying)
  }

  // ---------------------------------------------------------------- counting processes

  function InOpCount(pc: Pc): int { if pc.InOp? then 1 else 0 }
  function CommitCount(pc: Pc): int { if pc.Committing? || pc.Committed? then 1 else 0 }
  /** What is left of an operation's reservation. */
  function Room(pc: Pc): int { if pc.InOp? then MAXOPBLOCKS - |pc.logged| else 0 }

  function Sum(f: Pc -> int, procs: seq<Pc>): int {
    if procs == [] then 0 else f(procs[0]) + Sum(f, procs[1..])
  }

  lemma {:induction false} SumUpdate(f: Pc -> int, procs: seq<Pc>, p: nat, pc: Pc)
    requires p < |procs|
    ensures Sum(f, procs[p := pc]) == Sum(f, procs) - f(procs[p]) + f(pc)
  {
    if p == 0 {
      assert procs[p := pc][1..] == procs[1..];
    } else {
      SumUpdate(f, procs[1..], p - 1, pc);
      assert procs[p := pc][1..] == procs[1..][p - 1 := pc];
    }
  }

  lemma {:induction false} SumSame(f: Pc -> int, a: seq<Pc>, b: seq<Pc>)
    requires |a| == |b| && forall p :: 0 <= p < |a| ==> f(a[p]) == f(b[p])
    ensures Sum(f, a) == Sum(f, b)
  {
    if a != [] {
      SumSame(f, a[1..], b[1..]);
    }
  }

  lemma {:induction false} SumAtLeast(f: Pc -> int, procs: seq<Pc>, p: nat)
    requires p < |procs| && forall q :: 0 <= q < |procs| ==> f(procs[q]) >= 0
    ensures Sum(f, procs) >= f(procs[p]) && Sum(f, procs) >= 0
  {
    SumNonNegative(f, procs[1..]);
    if p > 0 {
      SumAtLeast(f, procs[1..], p - 1);
    }
  }

  lemma {:induction false} SumNonNegative(f: Pc -> int, procs: seq<Pc>)
    requires forall q :: 0 <= q < |procs| ==> f(procs[q]) >= 0
    ensures Sum(f, procs) >= 0
  {
    if procs != [] {
      SumNonNegative(f, procs[1..]);
    }
  }

  lemma {:induction false} SumPositive(f: Pc -> int, procs: seq<Pc>) returns (p: nat)
    requires Sum(f, procs) > 0
    ensures p < |procs| && f(procs[p]) > 0
  {
    if f(procs[0]) > 0 {
      p := 0;
    } else {
      p := SumPositive(f, procs[1..]);
      p := p + 1;
    }
  }

  // ---------------------------------------------------------------- what every step keeps

  ghost predicate Counts(s: State) {
    && s.outstanding == Sum(InOpCount, s.procs)
    && (if s.committing then 1 else 0) == Sum(CommitCount, s.procs)
    && (s.committing ==> s.outstanding == 0)
    && (s.panic == NoPanic || s.panic == TooBig)
  }

  /** Sleepers have reason to sleep; between transactions, and once a commit has erased it, the log is empty. */
  ghost predicate Quiet(s: State) {
    && (forall p :: 0 <= p < |s.procs| && s.procs[p].Asleep? ==> MustWait(s))
    && (forall p :: 0 <= p < |s.procs| && s.procs[p].Committed? ==> s.lh == [] && s.since == [])
    && (!s.committing && s.outstanding == 0 ==> s.lh == [] && s.since == [])
  }

  /** A step moves p, and others only from sleep to another test. */
  ghost predicate Moves(s: State, s': State, p: nat) {
    && p < |s.procs| == |s'.procs|
    && forall q :: 0 <= q < |s.procs| && q != p ==>
         s'.procs[q] == s.procs[q] || (s.procs[q].Asleep? && s'.procs[q].Trying?)
  }

  lemma DoMoves(s: State, size: int, p: nat, a: Action)
    requires Enabled(s, p, a)
    ensures Moves(s, Do(s, size, p, a), p)
  {
  }

  lemma SumMoves(f: Pc -> int, s: State, s': State, p: nat)
    requires Moves(s, s', p) && f(Asleep) == f(Trying)
    ensures Sum(f, s'.procs) == Sum(f, s.procs) - f(s.procs[p]) + f(s'.procs[p])
  {
    SumUpdate(f, s.procs, p, s'.procs[p]);
    SumSame(f, s.procs[p := s'.procs[p]], s'.procs);
  }

  lemma CountStep(s: State, size: int, p: nat, a: Action)
    requires Counts(s) && Enabled(s, p, a)
    ensures Counts(Do(s, size, p, a))
    ensures s.procs[p].InOp? ==> s.outstanding >= 1 && !s.committing
    ensures s.procs[p].Committing? || s.procs[p].Committed? ==> s.committing
  {
    var s' := Do(s, size, p, a);
    SumAtLeast(InOpCount, s.procs, p);
    SumAtLeast(CommitCount, s.procs, p);
    DoMoves(s, size, p, a);
    SumMoves(InOpCount, s, s', p);
    SumMoves(CommitCount, s, s', p);
  }

  lemma QuietStep(s: State, size: int, p: nat, a: Action)
    requires Counts(s) && Quiet(s) && Enabled(s, p, a)
    ensures Quiet(Do(s, size, p, a))
  {
    CountStep(s, size, p, a);
    Roles(s);
    var s' := Do(s, size, p, a);
    if a == Commit {
      OneCommitter(s, p);
    }
  }

  /** Who runs an operation or a commit shows in the counters. */
  lemma Roles(s: State)
    requires Counts(s)
    ensures s.outstanding >= 0
    ensures forall q :: 0 <= q < |s.procs| ==>
      (s.procs[q].InOp? ==> s.outstanding >= 1) && (CommitCount(s.procs[q]) == 1 ==> s.committing)
  {
    SumNonNegative(InOpCount, s.procs);
    forall q | 0 <= q < |s.procs|
      ensures (s.procs[q].InOp? ==> s.outstanding >= 1) && (CommitCount(s.procs[q]) == 1 ==> s.committing)
    {
      SumAtLeast(InOpCount, s.procs, q);
      SumAtLeast(CommitCount, s.procs, q);
    }
  }

  /** While a commit runs, its process is the only one committing. */
  lemma OneCommitter(s: State, p: nat)
    requires Counts(s) && p < |s.procs| && CommitCount(s.procs[p]) == 1
    ensures s.committing && forall q :: 0 <= q < |s.procs| && q != p ==> CommitCount(s.procs[q]) == 0
  {
    SumAtLeast(CommitCount, s.procs, p);
    SumUpdate(CommitCount, s.procs, p, Idle);
    forall q | 0 <= q < |s.procs| && q != p
      ensures CommitCount(s.procs[q]) == 0
    {
      SumAtLeast(CommitCount, s.procs[p := Idle], q);
    }
  }

  // ---------------------------------------------------------------- whole operations

  ghost predicate Running(s: State, id: nat) {
    exists p :: 0 <= p < |s.procs| && s.procs[p].InOp? && s.procs[p].id == id
  }

  predicate Names(entries: seq<Entry>, id: nat) {
    exists i :: 0 <= i < |entries| && entries[i].id == id
  }

  /** The header lists, once each, the blocks logged since the last commit; an operation knows its own. */
  ghost predicate Header(s: State) {
    && (forall i, j :: 0 <= i < j < |s.lh| ==> s.lh[i] != s.lh[j])
    && (forall e :: e in s.since ==> e.block in s.lh)
    && (forall b :: b in s.lh ==> exists id :: Entry(id, b) in s.since)
    && (forall p, b :: 0 <= p < |s.procs| && s.procs[p].InOp? ==>
          (b in s.procs[p].logged <==> Entry(s.procs[p].id, b) in s.since))
  }

  /** The operation has ended and has nothing left to commit. */
  ghost predicate Closed(s: State, id: nat) { id < s.nextId && !Running(s, id) && !Names(s.since, id) }

  /** Every operation's calls lie in one transaction: an open one, or a commit made after the operation ended. */
  ghost predicate Whole(s: State) {
    && (forall p :: 0 <= p < |s.procs| && s.procs[p].InOp? ==> s.procs[p].id < s.nextId)
    && (forall p, q :: 0 <= p < q < |s.procs| && s.procs[p].InOp? && s.procs[q].InOp? ==>
          s.procs[p].id != s.procs[q].id)
    && (forall id: nat :: Names(s.since, id) ==> id < s.nextId)
    && (forall c, id: nat :: 0 <= c < |s.commits| && Names(s.commits[c], id) ==> Closed(s, id))
    && (forall c, d, id: nat :: 0 <= c < d < |s.commits| && Names(s.commits[c], id) ==> !Names(s.commits[d], id))
  }

  lemma EntryNamed(entries: seq<Entry>, e: Entry)
    requires e in entries
    ensures Names(entries, e.id)
  {
    var i :| 0 <= i < |entries| && entries[i] == e;
    assert entries[i].id == e.id;
  }

  lemma HeaderStep(s: State, size: int, p: nat, a: Action)
    requires Counts(s) && Header(s) && Whole(s) && Enabled(s, p, a)
    ensures Header(Do(s, size, p, a))
  {
    var s' := Do(s, size, p, a);
    Roles(s);
    if a.Write? {
      HeaderWrite(s, size, p, a.block);
    } else if a == Try {
      forall b | Entry(s.nextId, b) in s.since
        ensures false
      {
        EntryNamed(s.since, Entry(s.nextId, b));
      }
    }
  }

  lemma HeaderWrite(s: State, size: int, p: nat, b: nat)
    requires Header(s) && Whole(s) && Enabled(s, p, Write(b))
    ensures Header(Do(s, size, p, Write(b)))
  {
    var s' := Do(s, size, p, Write(b));
    var e := Entry(s.procs[p].id, b);
    assert forall x :: x in s'.since <==> x in s.since || x == e;
    assert forall x :: x in s'.lh <==> x in s.lh || x == b;
    forall x | x in s'.lh
      ensures exists id :: Entry(id, x) in s'.since
    {
      if x == b {
        assert e in s'.since;
      } else {
        var id :| Entry(id, x) in s.since;
        assert Entry(id, x) in s'.since;
      }
    }
  }

  lemma WholeStep(s: State, size: int, p: nat, a: Action)
    requires Counts(s) && Whole(s) && Enabled(s, p, a)
    ensures Whole(Do(s, size, p, a))
  {
    hide Counts, Whole;
    var s' := Do(s, size, p, a);
    if a.Write? {
      WholeWrite(s, size, p, a.block);
    } else if a == Commit {
      WholeCommit(s, size, p);
    } else {
      DoMoves(s, size, p, a);
      WholeElse(s, s', p);
    }
  }

  /** A step that logs and commits nothing, and starts at most one operation. */
  lemma WholeElse(s: State, s': State, p: nat)
    requires Whole(s) && Moves(s, s', p) && s'.since == s.since && s'.commits == s.commits && s'.nextId >= s.nextId
    requires s'.procs[p].InOp? ==>
      (s.procs[p].InOp? && s'.procs[p].id == s.procs[p].id) || s'.procs[p].id == s.nextId < s'.nextId
    ensures Whole(s')
  {
    hide Names;
    forall c, id: nat | 0 <= c < |s.commits| && Names(s.commits[c], id)
      ensures Closed(s', id)
    {
      assert Closed(s, id);
      assert Running(s', id) ==> Running(s, id) || id == s.nextId;
    }
  }

  lemma WholeWrite(s: State, size: int, p: nat, b: nat)
    requires Whole(s) && Enabled(s, p, Write(b))
    ensures Whole(Do(s, size, p, Write(b)))
  {
    var s', e := Do(s, size, p, Write(b)), Entry(s.procs[p].id, b);
    assert Running(s, e.id);
    forall id: nat | Names(s'.since, id)
      ensures Names(s.since, id) || id == e.id
    {
      var i :| 0 <= i < |s'.since| && s'.since[i].id == id;
      assert i < |s.since| ==> s.since[i].id == id;
    }
    forall c, id: nat | 0 <= c < |s.commits| && Names(s.commits[c], id)
      ensures Closed(s', id)
    {
      assert Closed(s, id);
      assert Running(s', id) ==> Running(s, id);
    }
  }

  lemma WholeCommit(s: State, size: int, p: nat)
    requires Counts(s) && Whole(s) && Enabled(s, p, Commit)
    ensures Whole(Do(s, size, p, Commit))
  {
    var s' := Do(s, size, p, Commit);
    Roles(s);
    forall c, id: nat | 0 <= c < |s'.commits| && Names(s'.commits[c], id)
      ensures Closed(s', id)
    {
      if c < |s.commits| { assert Names(s.commits[c], id) && Closed(s, id); } else { assert Names(s.since, id); }
    }
    forall c, d, id: nat | 0 <= c < d < |s'.commits| && Names(s'.commits[c], id)
      ensures !Names(s'.commits[d], id)
    {
      assert Names(s.commits[c], id);
      if d == |s.commits| { assert Closed(s, id); }
    }
  }

  // ---------------------------------------------------------------- the reservation

  /** Each running operation has logged at most MAXOPBLOCKS distinct blocks. */
  ghost predicate Bounded(s: State) {
    forall p :: 0 <= p < |s.procs| && s.procs[p].InOp? ==> |s.procs[p].logged| <= MAXOPBLOCKS
  }

  ghost predicate Reserved(s: State) { |s.lh| + Sum(Room, s.procs) <= LOGSIZE }

  lemma {:induction false} RoomBound(procs: seq<Pc>)
    requires forall p :: 0 <= p < |procs| && procs[p].InOp? ==> |procs[p].logged| <= MAXOPBLOCKS
    ensures 0 <= Sum(Room, procs) <= Sum(InOpCount, procs) * MAXOPBLOCKS
  {
    if procs != [] {
      RoomBound(procs[1..]);
    }
  }

  lemma ReservedStep(s: State, size: int, p: nat, a: Action)
    requires Counts(s) && Header(s) && Reserved(s) && Bounded(s) && Enabled(s, p, a) && Bounded(Do(s, size, p, a))
    ensures Reserved(Do(s, size, p, a))
  {
    hide Header;
    var s' := Do(s, size, p, a);
    RoomBound(s.procs);
    CountStep(s, size, p, a);
    DoMoves(s, size, p, a);
    SumMoves(Room, s, s', p);
    if a.Write? {
      if a.block in s.procs[p].logged { LoggedTwice(s, p, a.block); }
    }
  }

  /** A block the operation has logged is in the header already, and takes no more room. */
  lemma LoggedTwice(s: State, p: nat, b: nat)
    requires Header(s) && p < |s.procs| && s.procs[p].InOp? && b in s.procs[p].logged
    ensures b in s.lh && s.procs[p].logged + {b} == s.procs[p].logged
  {
    assert Entry(s.procs[p].id, b) in s.since;
    assert Entry(s.procs[p].id, b).block in s.lh;
  }

  // ---------------------------------------------------------------- every run

  datatype Step = Step(p: nat, a: Action)

  ghost predicate CanRun(n: nat, size: int, steps: seq<Step>)
    decreases |steps|, 0
  {
    steps == [] ||
    var k := |steps| - 1;
    CanRun(n, size, steps[..k]) && Enabled(Run(n, size, steps[..k]), steps[k].p, steps[k].a)
  }

  ghost function Run(n: nat, size: int, steps: seq<Step>): State
    requires CanRun(n, size, steps)
    decreases |steps|, 1
  {
    if steps == [] then Init(n)
    else
      var k := |steps| - 1;
      Do(Run(n, size, steps[..k]), size, steps[k].p, steps[k].a)
  }

  /** In no state of the run has an operation logged more than it reserved. */
  ghost predicate BoundedRun(n: nat, size: int, steps: seq<Step>)
    requires CanRun(n, size, steps)
    decreases |steps|
  {
    Bounded(Run(n, size, steps)) && (steps == [] || BoundedRun(n, size, steps[..|steps| - 1]))
  }

  ghost predicate Inv(s: State) { Counts(s) && Quiet(s) && Header(s) && Whole(s) }

  lemma {:induction false} InitCounts(n: nat)
    ensures Inv(Init(n)) && Reserved(Init(n))
  {
    SumZero(InOpCount, Init(n).procs);
    SumZero(CommitCount, Init(n).procs);
    SumZero(Room, Init(n).procs);
  }

  lemma {:induction false} SumZero(f: Pc -> int, procs: seq<Pc>)
    requires forall p :: 0 <= p < |procs| ==> f(procs[p]) == 0
    ensures Sum(f, procs) == 0
  {
    if procs != [] {
      SumZero(f, procs[1..]);
    }
  }

  /**
   In every run: a commit runs only with no operation outstanding; neither end_op()'s panic nor the one
   for a write outside a transaction happens; whoever sleeps in begin_op() has reason to; the header lists
   exactly the blocks logged since the last commit; and no commit holds a part of an operation.
   */
  lemma {:induction false} EveryRun(n: nat, size: int, steps: seq<Step>)
    requires CanRun(n, size, steps)
    ensures Inv(Run(n, size, steps))
    decreases |steps|
  {
    if steps == [] {
      InitCounts(n);
    } else {
      var k := |steps| - 1;
      EveryRun(n, size, steps[..k]);
      var s, e := Run(n, size, steps[..k]), steps[k];
      CountStep(s, size, e.p, e.a);
      QuietStep(s, size, e.p, e.a);
      HeaderStep(s, size, e.p, e.a);
      WholeStep(s, size, e.p, e.a);
    }
  }

  /** Not everyone can be stuck in begin_op(): a sleeper waits for a process inside an operation or a commit. */
  lemma SleeperHasWaker(n: nat, size: int, steps: seq<Step>, p: nat) returns (q: nat)
    requires CanRun(n, size, steps) && p < |Run(n, size, steps).procs| && Run(n, size, steps).procs[p].Asleep?
    ensures var s := Run(n, size, steps);
      q < |s.procs| && (s.procs[q].InOp? || s.procs[q].Committing? || s.procs[q].Committed?)
  {
    EveryRun(n, size, steps);
    var s := Run(n, size, steps);
    Roles(s);
    if s.committing {
      q := SumPositive(CommitCount, s.procs);
    } else {
      q := SumPositive(InOpCount, s.procs);
    }
  }

  /** With every operation inside its bound the header never holds more than LOGSIZE blocks. */
  lemma {:induction false} LogNeverOverflows(n: nat, size: int, steps: seq<Step>)
    requires CanRun(n, size, steps) && BoundedRun(n, size, steps)
    ensures Reserved(Run(n, size, steps)) && |Run(n, size, steps).lh| <= LOGSIZE
    decreases |steps|
  {
    if steps == [] {
      InitCounts(n);
    } else {
      var k := |steps| - 1;
      EveryRun(n, size, steps[..k]);
      LogNeverOverflows(n, size, steps[..k]);
      ReservedStep(Run(n, size, steps[..k]), size, steps[k].p, steps[k].a);
    }
    RoomBound(Run(n, size, steps).procs);
  }

  // ---------------------------------------------------------------- a log of `size` blocks

  /** Three operations share the blocks 0, 1, ...: the first logs ten, the second nine, the third the rest. */
  function Owner(b: nat): nat { if b < 10 then 0 else if b < 19 then 1 else 2 }

  function ShareSize(i: nat, k: nat): int {
    if i == 0 then (if k < 10 then k else 10) else if i == 1 then (if k < 10 then 0 else if k < 19 then k - 10 else 9)
    else if k < 19 then 0 else k - 19
  }

  predicate Shares(pc: Pc, i: nat, k: nat) {
    pc.InOp? && !pc.guarded && |pc.logged| == ShareSize(i, k) && forall b :: b in pc.logged ==> b < k
  }

  /** The first k blocks have been logged. */
  ghost predicate Filled(s: State, k: nat) {
    && |s.procs| == 3 && s.outstanding == 3 && s.panic == NoPanic && |s.lh| == k
    && (forall b :: b in s.lh ==> b < k)
    && Shares(s.procs[0], 0, k) && Shares(s.procs[1], 1, k) && Shares(s.procs[2], 2, k)
  }

  ghost predicate Reaches(n: nat, size: int, steps: seq<Step>, s: State) {
    CanRun(n, size, steps) && BoundedRun(n, size, steps) && Run(n, size, steps) == s
  }

  lemma Extend(n: nat, size: int, steps: seq<Step>, s: State, p: nat, a: Action)
    requires Reaches(n, size, steps, s) && Enabled(s, p, a) && Bounded(Do(s, size, p, a))
    ensures Reaches(n, size, steps + [Step(p, a)], Do(s, size, p, a))
  {
    assert (steps + [Step(p, a)])[..|steps|] == steps;
  }

  lemma Start(size: int) returns (steps: seq<Step>, s: State)
    ensures Reaches(3, size, steps, s) && Filled(s, 0)
  {
    steps := [];
    s := Init(3);
    for i := 0 to 3
      invariant
        && Reaches(3, size, steps, s) && |s.procs| == 3 && s.lh == [] && s.outstanding == i && !s.committing
        && s.panic == NoPanic
      invariant forall j :: 0 <= j < 3 ==> if j < i then Shares(s.procs[j], j, 0) else s.procs[j] == Idle
    {
      Extend(3, size, steps, s, i, Call);
      steps, s := steps + [Step(i, Call)], Do(s, size, i, Call);
      Extend(3, size, steps, s, i, Try);
      steps, s := steps + [Step(i, Try)], Do(s, size, i, Try);
    }
  }

  lemma FillGuard(size: int, s: State, k: nat, p: nat)
    requires Filled(s, k) && k + 1 < size && k <= 28 && p < 3
    ensures
      && Enabled(s, p, Guard) && Bounded(Do(s, size, p, Guard))
      && Do(s, size, p, Guard) == Goto(s, p, s.procs[p].(guarded := true))
  {
  }

  lemma FillWrite(size: int, s: State, k: nat)
    requires Filled(s, k) && k + 1 < size && k <= 28
    ensures var s1 := Goto(s, Owner(k), s.procs[Owner(k)].(guarded := true));
      && Enabled(s1, Owner(k), Write(k)) && Bounded(Do(s1, size, Owner(k), Write(k)))
      && Filled(Do(s1, size, Owner(k), Write(k)), k + 1)
  {
  }

  lemma Fill(size: int, k: nat) returns (steps: seq<Step>, s: State)
    requires k <= 29 && (k == 0 || k < size)
    ensures Reaches(3, size, steps, s) && Filled(s, k)
  {
    hide Reaches, Filled, Bounded, Enabled, Do;
    steps, s := Start(size);
    for i := 0 to k
      invariant Reaches(3, size, steps, s) && Filled(s, i)
    {
      var p := Owner(i);
      FillGuard(size, s, i, p);
      FillWrite(size, s, i);
      Extend(3, size, steps, s, p, Guard);
      steps, s := steps + [Step(p, Guard)], Do(s, size, p, Guard);
      Extend(3, size, steps, s, p, Write(i));
      steps, s := steps + [Step(p, Write(i))], Do(s, size, p, Write(i));
    }
  }

  /** Two operations pass the guard with one block left, then both add one. */
  lemma RaceSteps(size: int, s: State, k: nat)
    requires Filled(s, k) && k == size - 2 <= 28
    ensures Enabled(s, 1, Guard) && var s1 := Do(s, size, 1, Guard);
      && Bounded(s1) && Enabled(s1, 2, Guard) && var s2 := Do(s1, size, 2, Guard);
      && Bounded(s2) && Enabled(s2, 1, Write(k)) && var s3 := Do(s2, size, 1, Write(k));
      && Bounded(s3) && Enabled(s3, 2, Write(k + 1)) && var s4 := Do(s3, size, 2, Write(k + 1));
      && Bounded(s4) && |s4.lh| == size
  {
  }

  ghost predicate AlwaysFits(size: int) {
    forall n: nat, steps :: CanRun(n, size, steps) && BoundedRun(n, size, steps) ==>
      |Run(n, size, steps).lh| <= size - 1
  }

  lemma Overflow(size: int)
    requires 2 <= size <= LOGSIZE
    ensures !AlwaysFits(size)
  {
    hide Filled, Enabled, Bounded, Do;
    var k := size - 2;
    var steps, s := Fill(size, k);
    RaceSteps(size, s, k);
    Extend(3, size, steps, s, 1, Guard);
    var s1, t1 := Do(s, size, 1, Guard), steps + [Step(1, Guard)];
    Extend(3, size, t1, s1, 2, Guard);
    var s2, t2 := Do(s1, size, 2, Guard), t1 + [Step(2, Guard)];
    Extend(3, size, t2, s2, 1, Write(k));
    var s3, t3 := Do(s2, size, 1, Write(k)), t2 + [Step(1, Write(k))];
    Extend(3, size, t3, s3, 2, Write(k + 1));
    var t4 := t3 + [Step(2, Write(k + 1))];
    assert |Run(3, size, t4).lh| == size;
  }

  /** On a log of one block nothing passes the guard. */
  lemma {:induction false} NothingLogged(n: nat, steps: seq<Step>)
    requires CanRun(n, 1, steps)
    ensures var s := Run(n, 1, steps);
      s.lh == [] && forall p :: 0 <= p < |s.procs| && s.procs[p].InOp? ==> !s.procs[p].guarded
    decreases |steps|
  {
    if steps != [] {
      NothingLogged(n, steps[..|steps| - 1]);
    }
  }

  /**
   What log_write() records fits behind the header of a log of `size` blocks, in every run with bounded
   operations, if and only if the log has room for LOGSIZE blocks or for none; mkfs makes room for one less.
   */
  lemma FitsExactly(size: int)
    ensures AlwaysFits(size) <==> size - 1 >= LOGSIZE || size == 1
  {
    if size - 1 >= LOGSIZE || size == 1 {
      forall n: nat, steps | CanRun(n, size, steps) && BoundedRun(n, size, steps)
        ensures |Run(n, size, steps).lh| <= size - 1
      {
        if size == 1 { NothingLogged(n, steps); } else { LogNeverOverflows(n, size, steps); }
      }
    } else if size >= 2 {
      Overflow(size);
    } else {
      assert Reaches(0, size, [], Init(0));
      assert |Run(0, size, []).lh| == 0;
    }
  }

  // ---------------------------------------------------------------- "too big a transaction"

  /** Every running operation has logged all it reserved. */
  ghost predicate AllUsedUp(s: State) {
    forall q :: 0 <= q < |s.procs| && s.procs[q].InOp? ==> |s.procs[q].logged| == MAXOPBLOCKS
  }

  /** In runs with bounded operations log_write() panics only when no running operation has a block left to log. */
  ghost predicate PanicsOnlyWhenUsedUp(size: int) {
    forall n: nat, steps ::
      CanRun(n, size, steps) && BoundedRun(n, size, steps) && Run(n, size, steps).panic == TooBig ==>
      AllUsedUp(Run(n, size, steps))
  }

  /** On a log with room for LOGSIZE blocks the guard fails only with LOGSIZE blocks recorded. */
  lemma PanicMeansFull(n: nat, size: int, steps: seq<Step>)
    requires
      CanRun(n, size, steps) && BoundedRun(n, size, steps) && size - 1 >= LOGSIZE && Run(n, size, steps).panic == TooBig
    ensures AllUsedUp(Run(n, size, steps))
  {
    var s, k := Run(n, size, steps), |steps| - 1;
    LogNeverOverflows(n, size, steps);
    assert steps[k].a == Guard && |s.lh| >= LOGSIZE;
    forall q | 0 <= q < |s.procs| && s.procs[q].InOp?
      ensures |s.procs[q].logged| == MAXOPBLOCKS
    {
      SumAtLeast(Room, s.procs, q);
    }
  }

  /** On any smaller log three bounded operations run into the panic while the second still has a block left. */
  lemma EarlyPanic(size: int) returns (steps: seq<Step>)
    requires size - 1 < LOGSIZE
    ensures CanRun(3, size, steps) && BoundedRun(3, size, steps)
    ensures var s := Run(3, size, steps);
      s.panic == TooBig && |s.procs| == 3 && s.procs[1].InOp? && |s.procs[1].logged| < MAXOPBLOCKS
  {
    var k := if size >= 1 then size - 1 else 0;
    var s;
    steps, s := Fill(size, k);
    assert Enabled(s, 1, Guard) && Do(s, size, 1, Guard) == s.(panic := TooBig);
    Extend(3, size, steps, s, 1, Guard);
    steps := steps + [Step(1, Guard)];
  }

  /**
   So the panic means what it says if and only if the log has room for LOGSIZE blocks; mkfs makes room for one
   less.
   */
  lemma PanicExactly(size: int)
    ensures PanicsOnlyWhenUsedUp(size) <==> size - 1 >= LOGSIZE
  {
    if size - 1 >= LOGSIZE {
      forall n: nat, steps | CanRun(n, size, steps) && BoundedRun(n, size, steps) && Run(n, size, steps).panic == TooBig
        ensures AllUsedUp(Run(n, size, steps))
      {
        PanicMeansFull(n, size, steps);
      }
    } else {
      var steps := EarlyPanic(size);
      assert !AllUsedUp(Run(3, size, steps));
    }
  }
}
