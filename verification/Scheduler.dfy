/**
 The three-level scheduler of proc.c on one CPU.  What a process does while it runs is arbitrary: when it
 comes back the table is any table, except that a pid stays in its slot.  Every dispatch is recorded with
 the table it was chosen from.
 */
module Scheduler {

  import opened Params

  /** cycleNum is a double in the source, never rounded here. */
  datatype Proc = Proc(pid: nat, runnable: bool, level: int, ticket: int, arrTime: nat, cycleNum: real, priority: int)

  /** A dispatch: the slot, the table it was chosen from, the clock, and the table as the process got it. */
  datatype Event = Event(slot: nat, table: seq<Proc>, now: nat, given: seq<Proc>)

  const NO_PRIORITY: int := 1_000_000_000

  predicate Ready(p: Proc, level: int) { p.runnable && p.level == level }

  predicate AnyReady(procs: seq<Proc>, level: int) {
    exists i :: 0 <= i < |procs| && Ready(procs[i], level)
  }

  /** A level-2 process the third scheduler can choose: its priority value is below the starting minimum. */
  predicate Urgent(p: Proc) { Ready(p, 2) && p.priority < NO_PRIORITY }

  predicate AnyUrgent(procs: seq<Proc>) {
    exists i :: 0 <= i < |procs| && Urgent(procs[i])
  }

  /** (now - arrTime) / cycleNum, the difference taken in uint arithmetic. */
  function Ratio(p: Proc, now: nat): real
    requires p.cycleNum > 0.0
  {
    ((now - p.arrTime) % UINT) as real / p.cycleNum
  }

  /** Runnable processes have pids of their own, and have been counted at least once. */
  ghost predicate TableOk(procs: seq<Proc>) {
    && (forall i :: 0 <= i < |procs| ==> procs[i].runnable ==> procs[i].cycleNum > 0.0 && procs[i].pid > 0)
    && (forall i, j :: 0 <= i < j < |procs| && procs[i].pid > 0 ==> procs[i].pid != procs[j].pid)
  }

  /** A pid never turns up in another slot. */
  ghost predicate PidsStay(a: seq<Proc>, b: seq<Proc>) {
    |a| == |b| && forall i, j :: 0 <= i < |a| && 0 <= j < |b| && a[i].pid > 0 && a[i].pid == b[j].pid ==> i == j
  }

  /** One more cycle, and at level 2 one less of the remaining priority unless it is used up. */
  function Charged(p: Proc, level: int): Proc {
    p.(cycleNum := p.cycleNum + 1.0, priority := if level == 2 && p.priority >= 1 then p.priority - 1 else p.priority)
  }

  /**
   The dispatched process was runnable at its level, with the best ratio or the least priority value there,
   and was charged for it, alone.
   */
  ghost predicate Justified(e: Event, level: int) {
    && TableOk(e.table) && e.slot < |e.table| && Ready(e.table[e.slot], level)
    && e.given == e.table[e.slot := Charged(e.table[e.slot], level)]
    && (level == 1 ==>
          forall i :: 0 <= i < |e.table| && Ready(e.table[i], 1) ==>
            Ratio(e.table[i], e.now) <= Ratio(e.table[e.slot], e.now))
    && (level == 2 ==>
          forall i :: 0 <= i < |e.table| && Ready(e.table[i], 2) ==> e.table[e.slot].priority <= e.table[i].priority)
  }

  ghost predicate AllJustified(trace: seq<Event>, from: nat, level: int) {
    from <= |trace| && forall k :: from <= k < |trace| ==> Justified(trace[k], level)
  }

  /** The level-0 tickets in the first n slots. */
  function Tickets(procs: seq<Proc>, n: nat): int
    requires n <= |procs|
  {
    if n == 0 then 0 else Tickets(procs, n - 1) + if procs[n - 1].level == 0 then procs[n - 1].ticket else 0
  }

  /** The level-0 tickets add up to 0 as a uint: the modulus of the draw divides by zero. */
  predicate NoTickets(procs: seq<Proc>) { Tickets(procs, |procs|) % UINT == 0 }

  /** The drawn ticket: uint arithmetic stored in an int. */
  function Draw(rand: nat, total: int): int
    requires total % UINT != 0
  {
    var r := ((rand * 11 + 13) % UINT % (total % UINT) + 1) % UINT;
    if r < UINT / 2 then r else r - UINT
  }

  /** The running sum of tickets has reached the drawn one at slot j, and the process there can run. */
  predicate Eligible(procs: seq<Proc>, draw: int, j: nat) {
    j < |procs| && Ready(procs[j], 0) && draw <= Tickets(procs, j + 1)
  }

  predicate FirstEligible(procs: seq<Proc>, draw: int, i: nat) {
    Eligible(procs, draw, i) && forall j :: 0 <= j < i ==> !Eligible(procs, draw, j)
  }

  /** The table of the first pass: init alone, as allocproc() and userinit() leave it, among zeroed slots. */
  function BootTable(n: nat, init: nat, now: nat): seq<Proc> {
    seq(n, i => if i == init then Proc(1, true, 0, 10, now, 1.0, 10) else Proc(0, false, 0, 0, 0, 0.0, 0))
  }

  lemma {:induction false} BootTickets(n: nat, init: nat, now: nat, k: nat)
    requires k <= n
    ensures Tickets(BootTable(n, init, now), k) == if init < k then 10 else 0
  {
    if k > 0 { BootTickets(n, init, now, k - 1); }
  }

  /** It is in order, its tickets can be drawn from, and whatever is drawn the first to run is init. */
  lemma BootRuns(n: nat, init: nat, now: nat, rand: nat)
    requires init < n
    ensures var t := BootTable(n, init, now);
      TableOk(t) && !NoTickets(t) && FirstEligible(t, Draw(rand, Tickets(t, n)), init)
  {
    var t := BootTable(n, init, now);
    BootTickets(n, init, now, n);
    BootTickets(n, init, now, init + 1);
    assert Ready(t[init], 0);
  }

  predicate SameButCount(a: Proc, b: Proc) { b == a.(cycleNum := b.cycleNum) }

  lemma RatioPositive(p: Proc, now: nat)
    requires p.cycleNum > 0.0
    ensures Ratio(p, now) >= 0.0
  {
  }

  /** What running processes leave behind, dispatch by dispatch: any table in order, pids in their slots. */
  ghost predicate RunsOk(runs: (nat, seq<Proc>) -> seq<Proc>) {
    forall k: nat, procs: seq<Proc> :: TableOk(procs) ==> TableOk(runs(k, procs)) && PidsStay(procs, runs(k, procs))
  }

  lemma SamePids(a: seq<Proc>, b: seq<Proc>)
    requires TableOk(a) && |a| == |b| && forall i :: 0 <= i < |a| ==> a[i].pid == b[i].pid
    ensures PidsStay(a, b)
  {
    forall i, j | 0 <= i < |a| && 0 <= j < |b| && a[i].pid > 0 && a[i].pid == b[j].pid
      ensures i == j
    {
      assert a[j].pid == b[j].pid;
    }
  }

  function Counted(procs: seq<Proc>, i: nat): seq<Proc>
    requires i < |procs|
  {
    procs[i := procs[i].(cycleNum := procs[i].cycleNum + 1.0)]
  }

  /** The dispatch of slot i of a table by one of the lower two levels. */
  ghost function Dispatch(table: seq<Proc>, i: nat, now: nat, level: int): Event
    requires i < |table|
  {
    Event(i, table, now, table[i := Charged(table[i], level)])
  }

  class Cpu {
    const runs: (nat, seq<Proc>) -> seq<Proc>
    var procs: seq<Proc>
    var dispatches: nat
    ghost var trace: seq<Event>

    ghost predicate Valid()
      reads this
    {
      TableOk(procs) && RunsOk(runs)
    }

    constructor (procs: seq<Proc>, runs: (nat, seq<Proc>) -> seq<Proc>)
      requires TableOk(procs) && RunsOk(runs)
      ensures Valid() && this.procs == procs && this.runs == runs && trace == []
    {
      this.procs, this.runs, dispatches, trace := procs, runs, 0, [];
    }

    /** swtch(): the process runs and comes back. */
    method Swtch()
      requires Valid()
      modifies this`procs, this`dispatches
      ensures Valid() && PidsStay(old(procs), procs)
    {
      procs, dispatches := runs(dispatches, procs), dispatches + 1;
    }

    /** run_p(): counts the process, and dispatches it if it is runnable. */
    method RunP(i: nat, ghost chosenFrom: seq<Proc>, ghost now: nat)
      requires Valid() && i < |procs|
      modifies this
      ensures Valid() && PidsStay(old(procs), procs)
      ensures trace == old(trace)
        + if old(procs)[i].runnable then [Event(i, chosenFrom, now, Counted(old(procs), i))] else []
      ensures !old(procs)[i].runnable ==> procs == Counted(old(procs), i)
    {
      ghost var table := procs;
      procs := procs[i := procs[i].(cycleNum := procs[i].cycleNum + 1.0)];
      SamePids(table, procs);
      if !procs[i].runnable {
        return;
      }
      trace := trace + [Event(i, chosenFrom, now, procs)];
      Swtch();
    }

    /** The second scan of the lower two levels: the process with the pid, if any, runs. */
    method RunPid(pid: int, lower: bool, ghost chosen: nat, ghost now: nat, ghost level: int)
      requires
        && Valid()
        && (pid > 0 ==>
              chosen < |procs| && procs[chosen].pid == pid && Justified(Dispatch(procs, chosen, now, level), level))
      requires (pid > 0 || pid == -1) && (lower <==> level == 2)
      modifies this
      ensures Valid() && |procs| == old(|procs|)
      ensures trace == if pid > 0 then old(trace) + [Dispatch(old(procs), chosen, now, level)] else old(trace)
      ensures pid == -1 ==> procs == old(procs)
    {
      ghost var table := procs;
      var n := |procs|;
      for i := 0 to n
        invariant Valid() && |procs| == n
        invariant pid == -1 || i <= chosen ==> procs == table && trace == old(trace)
        invariant pid > 0 && chosen < i ==>
          && trace == old(trace) + [Dispatch(table, chosen, now, level)]
          && forall j :: 0 <= j < n && procs[j].pid == pid ==> j == chosen
      {
        if procs[i].pid == pid {
          if lower && procs[i].priority - 1 >= 0 {
            procs := procs[i := procs[i].(priority := procs[i].priority - 1)];
          }
          assert Counted(procs, i) == table[i := Charged(table[i], level)];
          RunP(i, table, now);
        }
      }
    }

    /** run_third_level_processes() */
    method RunThirdLevel(ghost now: nat)
      requires Valid()
      modifies this
      ensures Valid() && |procs| == old(|procs|)
      ensures AllJustified(trace, old(|trace|), 2) && old(trace) <= trace && |trace| <= old(|trace|) + 1
      ensures |trace| == old(|trace|) + 1 <==> AnyUrgent(old(procs))
      ensures trace == old(trace) ==> procs == old(procs)
    {
      var min, pid: int := NO_PRIORITY, -1;
      ghost var chosen: nat := 0;
      for i := 0 to |procs|
        invariant procs == old(procs) && trace == old(trace)
        invariant pid == -1 ==> min == NO_PRIORITY
        invariant pid != -1 ==>
          && chosen < i && Ready(procs[chosen], 2) && procs[chosen].pid == pid
          && procs[chosen].priority == min < NO_PRIORITY
        invariant forall j :: 0 <= j < i && Ready(procs[j], 2) ==> min <= procs[j].priority
      {
        if procs[i].level == 2 && procs[i].runnable {
          if procs[i].priority < min {
            min, pid, chosen := procs[i].priority, procs[i].pid, i;
          }
        }
      }
      RunPid(pid, true, chosen, now, 2);
    }

    /** run_second_level_processes() */
    method RunSecondLevel(now: nat)
      requires Valid()
      modifies this
      ensures Valid() && |procs| == old(|procs|)
      ensures AllJustified(trace, old(|trace|), 1) && old(trace) <= trace && |trace| <= old(|trace|) + 1
      ensures AnyReady(old(procs), 1) ==> |trace| == old(|trace|) + 1
    {
      var max, pid: int := -1.0, -1;
      ghost var chosen: nat := 0;
      for i := 0 to |procs|
        invariant procs == old(procs) && trace == old(trace)
        invariant pid == -1 ==> max == -1.0 && forall j :: 0 <= j < i ==> !Ready(procs[j], 1)
        invariant pid != -1 ==>
          chosen < i && Ready(procs[chosen], 1) && procs[chosen].pid == pid && Ratio(procs[chosen], now) == max
        invariant forall j :: 0 <= j < i && Ready(procs[j], 1) ==> Ratio(procs[j], now) <= max
      {
        if procs[i].level == 1 && procs[i].runnable {
          RatioPositive(procs[i], now);
          var ratio := Ratio(procs[i], now);
          if ratio > max {
            max, pid, chosen := ratio, procs[i].pid, i;
          }
        }
      }
      RunPid(pid, false, chosen, now, 1);
    }

    /** The first scan of run_first_level_processes(). */
    method TotalTickets() returns (total: int)
      ensures total == Tickets(procs, |procs|)
    {
      total := 0;
      for i := 0 to |procs|
        invariant total == Tickets(procs, i)
      {
        if procs[i].level == 0 {
          total := total + procs[i].ticket;
        }
      }
    }

    /**
     run_first_level_processes(): the first to run is the first runnable level-0 process at or after the
     owner of the drawn ticket; the scan goes on and may run later ones as well.  With no tickets to draw
     from it traps before it runs any.
     */
    method RunFirstLevel(rand: nat) returns (trapped: bool)
      requires Valid()
      modifies this
      ensures Valid() && |procs| == old(|procs|)
      ensures AllJustified(trace, old(|trace|), 0) && old(trace) <= trace
      ensures trapped <==> NoTickets(old(procs))
      ensures trapped ==> procs == old(procs) && trace == old(trace)
      ensures !trapped ==>
        var draw := Draw(rand, Tickets(old(procs), old(|procs|)));
        if |trace| == old(|trace|) then
          forall j :: 0 <= j < old(|procs|) ==> !Eligible(old(procs), draw, j)
        else FirstEligible(old(procs), draw, trace[old(|trace|)].slot)
    {
      hide Draw, TableOk, RunsOk;
      var total := TotalTickets();
      if total % UINT == 0 {
        return true;
      }
      var n := |procs|;
      var draw, counter := Draw(rand, total), 0;
      for i := 0 to n
        invariant Valid() && |procs| == n && AllJustified(trace, old(|trace|), 0) && old(trace) <= trace
        invariant |trace| == old(|trace|) ==>
          && counter == Tickets(old(procs), i) && (forall j :: 0 <= j < n ==> SameButCount(old(procs)[j], procs[j]))
          && (forall j :: 0 <= j < i ==> !Eligible(old(procs), draw, j))
        invariant |trace| > old(|trace|) ==> FirstEligible(old(procs), draw, trace[old(|trace|)].slot)
      {
        if procs[i].level == 0 {
          counter := counter + procs[i].ticket;
          if draw <= counter {
            RunP(i, procs, rand);
          }
        }
      }
      return false;
    }

    /** One round of scheduler()'s endless loop; ticks are read as the round goes along. */
    method Pass(ticks: nat -> nat) returns (trapped: bool)
      requires Valid()
      modifies this
      ensures Valid() && |procs| == old(|procs|) && old(trace) <= trace
      ensures AnyReady(old(procs), 0) ==> AllJustified(trace, old(|trace|), 0)
      ensures !AnyReady(old(procs), 0) && AnyReady(old(procs), 1) ==>
        AllJustified(trace, old(|trace|), 1) && |trace| > old(|trace|)
      ensures !AnyReady(old(procs), 0) && !AnyReady(old(procs), 1) ==>
        AllJustified(trace, old(|trace|), 2) && (|trace| > old(|trace|) <==> AnyUrgent(old(procs)))
      ensures trapped ==> AnyReady(old(procs), 0) && NoTickets(procs)
      ensures AnyReady(old(procs), 0) && NoTickets(old(procs)) ==> trapped && procs == old(procs) && trace == old(trace)
    {
      hide TableOk, RunsOk, Justified, Draw, Eligible, FirstEligible;
      var n, ran := |procs|, false;
      for i := 0 to n
        invariant Valid() && |procs| == n && old(trace) <= trace && AllJustified(trace, old(|trace|), 0)
        invariant !ran ==> procs == old(procs) && trace == old(trace) && forall j :: 0 <= j < i ==> !Ready(procs[j], 0)
        invariant ran ==> AnyReady(old(procs), 0) && !NoTickets(old(procs))
      {
        if procs[i].level == 0 && procs[i].runnable {
          assert !ran ==> Ready(old(procs)[i], 0);
          ran := true;
          trapped := RunFirstLevel(ticks(dispatches));
          if trapped {
            return;
          }
        }
      }
      trapped := false;
      if ran {
        return;
      }
      for i := 0 to n
        invariant Valid() && |procs| == n && old(trace) <= trace && AllJustified(trace, old(|trace|), 1)
        invariant !ran ==> procs == old(procs) && trace == old(trace) && forall j :: 0 <= j < i ==> !Ready(procs[j], 1)
        invariant ran ==> AnyReady(old(procs), 1) && |trace| > old(|trace|)
      {
        if procs[i].level == 1 && procs[i].runnable {
          assert Ready(procs[i], 1);
          ran := true;
          RunSecondLevel(ticks(dispatches));
        }
      }
      if ran {
        return;
      }
      for i := 0 to n
        invariant Valid() && |procs| == n && old(trace) <= trace && AllJustified(trace, old(|trace|), 2)
        invariant |trace| == old(|trace|) ==> procs == old(procs) && forall j :: 0 <= j < i ==> !Urgent(procs[j])
        invariant |trace| > old(|trace|) ==> AnyUrgent(old(procs))
      {
        if procs[i].level == 2 && procs[i].runnable {
          RunThirdLevel(ticks(dispatches));
        }
      }
    }
  }
}
