/**
 The pipe of pipe.c: a ring buffer with 32-bit counters that may wrap, and the protocol of readers and
 writers that sleep on it.  PutBytes and GetBytes are the two copying loops; the protocol's steps are the
 stretches of code under the pipe's lock, from acquire() or waking up to release() or sleep().
 */
module Pipe {

  import opened Params

  const PIPESIZE: nat := 512

  type Byte = bv8

  // ---------------------------------------------------------------- the ring buffer

  /** The pipe's tests and indices on wrapped counters are those on the true totals. */
  lemma Wrapped(read: nat, written: nat)
    requires read <= written <= read + PIPESIZE
    ensures written % UINT == (read % UINT + PIPESIZE) % UINT <==> written == read + PIPESIZE
    ensures written % UINT == read % UINT <==> written == read
    ensures (written % UINT + 1) % UINT == (written + 1) % UINT
    ensures written % UINT % PIPESIZE == written % PIPESIZE
  {
    var d := written - read;
    ModPlus(read, d);
    ModPlus(written, 1);
    ModMod(written);
    Apart(read % UINT, d, PIPESIZE);
    Apart(read % UINT, 0, d);
  }

  /** Sums that differ by less than the modulus stay apart. */
  lemma Apart(r: nat, d: nat, e: nat)
    requires r < UINT && d <= e <= PIPESIZE
    ensures r % UINT == r && ((r + d) % UINT == (r + e) % UINT <==> d == e)
  {
    Reduce(r + d);
    Reduce(r + e);
  }

  lemma Reduce(x: nat)
    requires x < 2 * UINT
    ensures x % UINT == if x < UINT then x else x - UINT
  {
  }

  lemma ModPlus(a: nat, d: nat)
    requires d <= PIPESIZE
    ensures (a + d) % UINT == (a % UINT + d) % UINT
  {
    var q, r := a / UINT, a % UINT;
    assert a + d == q * UINT + (r + d);
    if r + d < UINT {
      assert (a + d) / UINT == q;
    } else {
      assert a + d == (q + 1) * UINT + (r + d - UINT);
      assert (a + d) / UINT == q + 1;
    }
  }

  lemma ModMod(a: nat)
    ensures a % UINT % PIPESIZE == a % PIPESIZE
  {
    var q, r := a / UINT, a % UINT;
    assert a == (q * (UINT / PIPESIZE)) * PIPESIZE + r;
    ModTimes(q * (UINT / PIPESIZE), r);
  }

  lemma ModTimes(k: nat, r: nat)
    ensures (k * PIPESIZE + r) % PIPESIZE == r % PIPESIZE
  {
    var m := k * PIPESIZE + r;
    assert m == (k + r / PIPESIZE) * PIPESIZE + r % PIPESIZE;
    assert m / PIPESIZE == k + r / PIPESIZE;
  }

  /** Positions less than a buffer apart use different cells. */
  lemma CellsApart(a: nat, b: nat)
    requires a < b < a + PIPESIZE
    ensures a % PIPESIZE != b % PIPESIZE
  {
  }

  lemma CellFree(read: nat, written: nat)
    requires read <= written < read + PIPESIZE
    ensures forall k :: read <= k < written ==> k % PIPESIZE != written % PIPESIZE
  {
    forall k | read <= k < written
      ensures k % PIPESIZE != written % PIPESIZE
    {
      CellsApart(k, written);
    }
  }

  /** sent: every byte ever put in; recv: every byte ever taken out. */
  class Ring {
    const data: array<Byte>
    var nread: nat
    var nwrite: nat
    ghost var sent: seq<Byte>
    ghost var recv: seq<Byte>

    /** The buffer holds the bytes sent and not yet received, whatever the counters have wrapped to. */
    ghost predicate Valid()
      reads this, data
    {
      && data.Length == PIPESIZE
      && recv <= sent && |sent| - |recv| <= PIPESIZE
      && nread == |recv| % UINT && nwrite == |sent| % UINT
      && forall k :: |recv| <= k < |sent| ==> data[k % PIPESIZE] == sent[k]
    }

    constructor ()
      ensures Valid() && sent == [] && recv == []
    {
      data := new Byte[PIPESIZE](_ => 0);
      nread, nwrite, sent, recv := 0, 0, [], [];
    }

    /** One byte goes into a pipe that is not full. */
    method PutByte(c: Byte)
      requires Valid() && |sent| - |recv| < PIPESIZE
      modifies this`nwrite, this`sent, data
      ensures Valid() && sent == old(sent) + [c]
    {
      Wrapped(|recv|, |sent|);
      CellFree(|recv|, |sent|);
      data[nwrite % PIPESIZE] := c;
      nwrite := (nwrite + 1) % UINT;
      sent := sent + [c];
    }

    /** pipewrite()'s copying loop: bytes of buf from i on go in until it is used up or the pipe is full. */
    method PutBytes(buf: seq<Byte>, i: nat) returns (j: nat)
      requires Valid() && i <= |buf|
      modifies this`nwrite, this`sent, data
      ensures Valid() && i <= j <= |buf|
      ensures j - i == Min(|buf| - i, PIPESIZE - (old(|sent|) - |recv|))
      ensures sent == old(sent) + buf[i..j]
    {
      j := i;
      while j < |buf|
        invariant Valid() && i <= j <= |buf|
        invariant sent == old(sent) + buf[i..j]
      {
        Wrapped(|recv|, |sent|);
        if nwrite == (nread + PIPESIZE) % UINT {
          break;
        }
        PutByte(buf[j]);
        assert buf[i..j + 1] == buf[i..j] + [buf[j]];
        j := j + 1;
      }
    }

    /** piperead()'s copying loop: the n oldest bytes come out, or as many as there are. */
    method GetBytes(n: nat) returns (out: seq<Byte>)
      requires Valid()
      modifies this`nread, this`recv
      ensures Valid() && |out| == Min(n, |sent| - old(|recv|))
      ensures recv == old(recv) + out
    {
      out := [];
      while |out| < n
        invariant Valid() && |out| <= n
        invariant recv == old(recv) + out
      {
        Wrapped(|recv|, |sent|);
        if nread == nwrite {
          break;
        }
        ModPlus(|recv|, 1);
        ModMod(|recv|);
        out := out + [data[nread % PIPESIZE]];
        nread := (nread + 1) % UINT;
        recv := recv + [sent[|recv|]];
      }
    }
  }

  // ---------------------------------------------------------------- readers and writers

  /** Inside pipewrite() with i bytes of buf gone, or inside piperead() asking for n, awake or asleep. */
  datatype Pc =
    | Out | Writing(buf: seq<Byte>, i: nat) | WriteSleep(buf: seq<Byte>, i: nat) | Reading(n: nat) | ReadSleep(n: nat)

  datatype Proc = Proc(pc: Pc, killed: bool)

  datatype State = State(procs: seq<Proc>, sent: seq<Byte>, recv: seq<Byte>, readopen: bool, writeopen: bool)

  datatype Action = StartWrite(buf: seq<Byte>) | StartRead(n: nat) | Go | CloseRead | CloseWrite | Kill

  predicate Init(s: State) {
    && s.sent == [] && s.recv == [] && s.readopen && s.writeopen
    && forall p :: 0 <= p < |s.procs| ==> s.procs[p].pc.Out?
  }

  predicate IsReader(pc: Pc) { pc.Reading? || pc.ReadSleep? }
  predicate IsWriter(pc: Pc) { pc.Writing? || pc.WriteSleep? }

  function Held(s: State): int { |s.sent| - |s.recv| }

  /** An end is closed when its last file reference goes, so by nobody inside a call on it. */
  predicate Enabled(s: State, p: nat, a: Action) {
    && p < |s.procs|
    && match a
       case StartWrite(_) => s.procs[p].pc.Out? && s.writeopen
       case StartRead(_) => s.procs[p].pc.Out? && s.readopen
       case Go => (s.procs[p].pc.Writing? && s.procs[p].pc.i <= |s.procs[p].pc.buf|) || s.procs[p].pc.Reading?
       case CloseRead => s.readopen && forall q :: 0 <= q < |s.procs| ==> !IsReader(s.procs[q].pc)
       case CloseWrite => s.writeopen && forall q :: 0 <= q < |s.procs| ==> !IsWriter(s.procs[q].pc)
       case Kill => true
  }

  function Awake(pc: Pc): Pc {
    match pc
    case WriteSleep(buf, i) => Writing(buf, i)
    case ReadSleep(n) => Reading(n)
    case _ => pc
  }

  /** wakeup(&p->nread) and wakeup(&p->nwrite). */
  function WakeReaders(procs: seq<Proc>): (r: seq<Proc>)
    ensures
      && |r| == |procs|
      && forall p :: 0 <= p < |r| ==>
           r[p] == if IsReader(procs[p].pc) then Proc(Awake(procs[p].pc), procs[p].killed) else procs[p]
  {
    seq(|procs|, p requires 0 <= p < |procs| =>
      if IsReader(procs[p].pc) then Proc(Awake(procs[p].pc), procs[p].killed) else procs[p])
  }

  function WakeWriters(procs: seq<Proc>): (r: seq<Proc>)
    ensures
      && |r| == |procs|
      && forall p :: 0 <= p < |r| ==>
           r[p] == if IsWriter(procs[p].pc) then Proc(Awake(procs[p].pc), procs[p].killed) else procs[p]
  {
    seq(|procs|, p requires 0 <= p < |procs| =>
      if IsWriter(procs[p].pc) then Proc(Awake(procs[p].pc), procs[p].killed) else procs[p])
  }

  function Goto(procs: seq<Proc>, p: nat, pc: Pc): seq<Proc>
    requires p < |procs|
  {
    procs[p := Proc(pc, procs[p].killed)]
  }

  /** What PutBytes does, then either the final wakeup, or the full-pipe branch: give up without a wakeup, or sleep. */
  function GoWrite(s: State, p: nat): State
    requires p < |s.procs| && s.procs[p].pc.Writing? && s.procs[p].pc.i <= |s.procs[p].pc.buf| && Held(s) <= PIPESIZE
  {
    var buf, i := s.procs[p].pc.buf, s.procs[p].pc.i;
    var j := i + Min(|buf| - i, PIPESIZE - Held(s));
    var t := s.(sent := s.sent + buf[i..j]);
    if j == |buf| then t.(procs := WakeReaders(Goto(s.procs, p, Out)))
    else if !s.readopen || s.procs[p].killed then t.(procs := Goto(s.procs, p, Out))
    else t.(procs := WakeReaders(Goto(s.procs, p, WriteSleep(buf, j))))
  }

  function GoRead(s: State, p: nat): State
    requires p < |s.procs| && s.procs[p].pc.Reading? && s.recv <= s.sent
  {
    var n := s.procs[p].pc.n;
    if Held(s) == 0 && s.writeopen then
      s.(procs := Goto(s.procs, p, if s.procs[p].killed then Out else ReadSleep(n)))
    else
      s.(recv := s.sent[..|s.recv| + Min(n, Held(s))], procs := WakeWriters(Goto(s.procs, p, Out)))
  }

  /** Received bytes are the first of the sent ones, and what lies between fits the buffer. */
  predicate Flow(s: State) { s.recv <= s.sent && Held(s) <= PIPESIZE }

  function Do(s: State, p: nat, a: Action): (s': State)
    requires Enabled(s, p, a) && Flow(s)
    ensures Flow(s') && s.sent <= s'.sent && s.recv <= s'.recv
  {
    match a
    case StartWrite(buf) => s.(procs := Goto(s.procs, p, Writing(buf, 0)))
    case StartRead(n) => s.(procs := Goto(s.procs, p, Reading(n)))
    case Go => if s.procs[p].pc.Writing? then GoWrite(s, p) else GoRead(s, p)
    case CloseRead => s.(readopen := false, procs := WakeWriters(s.procs))
    case CloseWrite => s.(writeopen := false, procs := WakeReaders(s.procs))
    case Kill => s.(procs := s.procs[p := Proc(Awake(s.procs[p].pc), true)])
  }

  /** A sleeping writer means a full pipe with the read end open; closed ends have nobody inside a call on them. */
  predicate WritersOk(s: State) {
    && (forall p :: 0 <= p < |s.procs| && s.procs[p].pc.WriteSleep? ==> Held(s) == PIPESIZE && s.readopen)
    && (forall p :: 0 <= p < |s.procs| && IsWriter(s.procs[p].pc) ==>
          s.writeopen && s.procs[p].pc.i <= |s.procs[p].pc.buf|)
    && (forall p :: 0 <= p < |s.procs| && IsReader(s.procs[p].pc) ==> s.readopen)
  }

  /** A sleeping reader means an empty pipe with the write end open. */
  predicate ReadersOk(s: State) {
    forall p :: 0 <= p < |s.procs| && s.procs[p].pc.ReadSleep? ==> Held(s) == 0 && s.writeopen
  }

  predicate SleepingReader(s: State) {
    exists p :: 0 <= p < |s.procs| && s.procs[p].pc.ReadSleep?
  }

  lemma WritersWrite(s: State, p: nat)
    requires Flow(s) && WritersOk(s) && p < |s.procs| && s.procs[p].pc.Writing?
    ensures WritersOk(GoWrite(s, p))
  {
  }

  lemma WritersRead(s: State, p: nat)
    requires Flow(s) && WritersOk(s) && p < |s.procs| && s.procs[p].pc.Reading?
    ensures WritersOk(GoRead(s, p))
  {
  }

  lemma WritersStep(s: State, p: nat, a: Action)
    requires Flow(s) && WritersOk(s) && Enabled(s, p, a)
    ensures WritersOk(Do(s, p, a))
  {
    hide GoWrite, GoRead;
    if a == Go {
      if s.procs[p].pc.Writing? { WritersWrite(s, p); } else { WritersRead(s, p); }
    }
  }

  /** The one step that leaves a reader asleep on a pipe with bytes in it: pipewrite() giving up after filling it. */
  predicate SkipsWakeup(s: State, p: nat, a: Action) {
    && p < |s.procs| && a == Go && s.procs[p].pc.Writing? && s.procs[p].killed && SleepingReader(s)
    && |s.procs[p].pc.buf| - s.procs[p].pc.i > PIPESIZE
  }

  lemma ReadersStep(s: State, p: nat, a: Action)
    requires Flow(s) && WritersOk(s) && ReadersOk(s) && Enabled(s, p, a)
    ensures ReadersOk(Do(s, p, a)) <==> !SkipsWakeup(s, p, a)
  {
    var s' := Do(s, p, a);
    if SkipsWakeup(s, p, a) {
      var q :| 0 <= q < |s.procs| && s.procs[q].pc.ReadSleep?;
      assert s'.procs[q].pc.ReadSleep? && Held(s') == PIPESIZE;
    }
  }

  // ---------------------------------------------------------------- every run

  datatype Step = Step(p: nat, a: Action)

  ghost predicate CanRun(s: State, steps: seq<Step>)
    requires Flow(s)
    decreases |steps|
  {
    steps == [] || (Enabled(s, steps[0].p, steps[0].a) && CanRun(Do(s, steps[0].p, steps[0].a), steps[1..]))
  }

  ghost function Run(s: State, steps: seq<Step>): State
    requires Flow(s) && CanRun(s, steps)
    decreases |steps|
  {
    if steps == [] then s else Run(Do(s, steps[0].p, steps[0].a), steps[1..])
  }

  predicate NoKill(s: State, steps: seq<Step>) {
    && (forall p :: 0 <= p < |s.procs| ==> !s.procs[p].killed)
    && (forall k :: 0 <= k < |steps| ==> steps[k].a != Kill)
  }

  lemma NoKillStep(s: State, steps: seq<Step>)
    requires Flow(s) && steps != [] && Enabled(s, steps[0].p, steps[0].a) && NoKill(s, steps)
    ensures NoKill(Do(s, steps[0].p, steps[0].a), steps[1..])
  {
    assert steps[0].a != Kill;
  }

  lemma {:induction false} RunKeeps(s: State, steps: seq<Step>)
    requires Flow(s) && WritersOk(s) && CanRun(s, steps)
    ensures Flow(Run(s, steps)) && WritersOk(Run(s, steps))
    ensures ReadersOk(s) && NoKill(s, steps) ==> ReadersOk(Run(s, steps))
    decreases |steps|
  {
    if steps != [] {
      var e := steps[0];
      WritersStep(s, e.p, e.a);
      if ReadersOk(s) && NoKill(s, steps) {
        ReadersStep(s, e.p, e.a);
        NoKillStep(s, steps);
      }
      RunKeeps(Do(s, e.p, e.a), steps[1..]);
    }
  }

  /**
   In every run the bytes received are a prefix of the bytes sent, short of them by at most the buffer,
   and a sleeping writer faces a full pipe; with nobody killed a sleeping reader faces an empty one.
   */
  lemma EveryRun(s: State, steps: seq<Step>)
    requires Init(s) && CanRun(s, steps)
    ensures var t := Run(s, steps); t.recv <= t.sent && |t.sent| - |t.recv| <= PIPESIZE && WritersOk(t)
    ensures NoKill(s, steps) ==> ReadersOk(Run(s, steps))
  {
    RunKeeps(s, steps);
  }

  /** The state of a run after its first k steps. */
  ghost function StateAt(s: State, steps: seq<Step>, k: nat): (t: State)
    requires Flow(s) && CanRun(s, steps) && k <= |steps|
    ensures k == |steps| ==> t == Run(s, steps)
    decreases k
  {
    if k == 0 then s else StateAt(Do(s, steps[0].p, steps[0].a), steps[1..], k - 1)
  }

  ghost predicate ReadersAlwaysOk(s: State, steps: seq<Step>)
    requires Flow(s) && CanRun(s, steps)
  {
    forall k :: 0 <= k <= |steps| ==> ReadersOk(StateAt(s, steps, k))
  }

  ghost predicate NeverSkips(s: State, steps: seq<Step>)
    requires Flow(s) && CanRun(s, steps)
  {
    forall k :: 0 <= k < |steps| ==> !SkipsWakeup(StateAt(s, steps, k), steps[k].p, steps[k].a)
  }

  /** In all of a run a sleeping reader faces an empty pipe, if and only if no step of it is a skipped wakeup. */
  lemma ReadersExactly(s: State, steps: seq<Step>)
    requires Init(s) && CanRun(s, steps)
    ensures ReadersAlwaysOk(s, steps) <==> NeverSkips(s, steps)
  {
    ReadersRun(s, steps);
  }

  lemma {:induction false} ReadersRun(s: State, steps: seq<Step>)
    requires Flow(s) && WritersOk(s) && ReadersOk(s) && CanRun(s, steps)
    ensures ReadersAlwaysOk(s, steps) <==> NeverSkips(s, steps)
    decreases |steps|
  {
    if steps != [] {
      var e := steps[0];
      var s1, rest := Do(s, e.p, e.a), steps[1..];
      ReadersStep(s, e.p, e.a);
      WritersStep(s, e.p, e.a);
      assert StateAt(s, steps, 0) == s && StateAt(s, steps, 1) == StateAt(s1, rest, 0) == s1;
      if !SkipsWakeup(s, e.p, e.a) {
        ReadersRun(s1, rest);
        RunTail(s, steps);
      }
    }
  }

  /** A run is its first state and the run from its second. */
  lemma RunTail(s: State, steps: seq<Step>)
    requires Flow(s) && steps != [] && CanRun(s, steps)
    ensures var e, s1, rest := steps[0], Do(s, steps[0].p, steps[0].a), steps[1..];
      && (ReadersAlwaysOk(s, steps) <==> ReadersOk(s) && ReadersAlwaysOk(s1, rest))
      && (NeverSkips(s, steps) <==> !SkipsWakeup(s, e.p, e.a) && NeverSkips(s1, rest))
  {
    hide Do, ReadersOk, SkipsWakeup, Flow;
    var s1, rest := Do(s, steps[0].p, steps[0].a), steps[1..];
    assert StateAt(s, steps, 0) == s;
    assert forall k :: 0 <= k <= |rest| ==> StateAt(s1, rest, k) == StateAt(s, steps, k + 1);
    assert forall k :: 0 < k <= |steps| ==> StateAt(s, steps, k) == StateAt(s1, rest, k - 1);
    assert forall k :: 0 <= k < |rest| ==> rest[k] == steps[k + 1];
  }

  lemma ConsStep(s: State, p: nat, a: Action, steps: seq<Step>)
    requires Flow(s) && Enabled(s, p, a) && CanRun(Do(s, p, a), steps)
    ensures CanRun(s, [Step(p, a)] + steps) && Run(s, [Step(p, a)] + steps) == Run(Do(s, p, a), steps)
  {
    assert ([Step(p, a)] + steps)[1..] == steps;
  }

  /** An open, empty pipe with a reader in slot 0 and a writer in slot 1. */
  function Scene(reader: Pc, writer: Pc, killed: bool): State {
    State([Proc(reader, false), Proc(writer, killed)], [], [], true, true)
  }

  lemma SceneSteps(big: seq<Byte>)
    requires |big| == PIPESIZE + 1
    ensures Flow(Scene(Out, Out, false)) && Enabled(Scene(Out, Out, false), 0, StartRead(1))
    ensures Do(Scene(Out, Out, false), 0, StartRead(1)) == Scene(Reading(1), Out, false)
    ensures Enabled(Scene(Reading(1), Out, false), 0, Go)
    ensures Do(Scene(Reading(1), Out, false), 0, Go) == Scene(ReadSleep(1), Out, false)
    ensures Enabled(Scene(ReadSleep(1), Out, false), 1, StartWrite(big))
    ensures Do(Scene(ReadSleep(1), Out, false), 1, StartWrite(big)) == Scene(ReadSleep(1), Writing(big, 0), false)
    ensures Enabled(Scene(ReadSleep(1), Writing(big, 0), false), 1, Kill)
    ensures Do(Scene(ReadSleep(1), Writing(big, 0), false), 1, Kill) == Scene(ReadSleep(1), Writing(big, 0), true)
    ensures Enabled(Scene(ReadSleep(1), Writing(big, 0), true), 1, Go)
  {
  }

  lemma SceneSkips(big: seq<Byte>)
    requires |big| == PIPESIZE + 1
    ensures var s := Scene(ReadSleep(1), Writing(big, 0), true);
      Flow(s) && WritersOk(s) && ReadersOk(s) && SkipsWakeup(s, 1, Go)
  {
    assert Scene(ReadSleep(1), Writing(big, 0), true).procs[0].pc.ReadSleep?;
  }

  /** With a killed writer the reader's half fails: the pipe is full and its reader asleep. */
  lemma KilledWriter() returns (s: State, steps: seq<Step>)
    ensures Init(s) && CanRun(s, steps) && WritersOk(Run(s, steps)) && !ReadersOk(Run(s, steps))
  {
    hide Do, Enabled, Flow, WritersOk, ReadersOk, SkipsWakeup;
    var big: seq<Byte> := seq(PIPESIZE + 1, i => 0);
    s := Scene(Out, Out, false);
    var s1, s2 := Scene(Reading(1), Out, false), Scene(ReadSleep(1), Out, false);
    var s3, s4 := Scene(ReadSleep(1), Writing(big, 0), false), Scene(ReadSleep(1), Writing(big, 0), true);
    SceneSteps(big);
    SceneSkips(big);
    ReadersStep(s4, 1, Go);
    WritersStep(s4, 1, Go);
    var t1 := [Step(1, Go)] + [];
    ConsStep(s4, 1, Go, []);
    var t2 := [Step(1, Kill)] + t1;
    ConsStep(s3, 1, Kill, t1);
    var t3 := [Step(1, StartWrite(big))] + t2;
    ConsStep(s2, 1, StartWrite(big), t2);
    var t4 := [Step(0, Go)] + t3;
    ConsStep(s1, 0, Go, t3);
    ConsStep(s, 0, StartRead(1), t4);
    steps := [Step(0, StartRead(1))] + t4;
  }
}
