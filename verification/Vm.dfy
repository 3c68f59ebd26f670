/**
 User address spaces of vm.c over the page pool of kalloc.c: two-level page tables that live in pool frames,
 refining a map from page to frame and flags, with every pool frame accounted for.  Addresses are in pages;
 a virtual page is a directory index and a table index.
 */
module Vm {

  import opened Params

  const NENTRIES: nat := 1024
  /** Directory entries below this one are user space (KERNBASE is page 512 * 1024). */
  const NUSER: nat := 512
  const PTE_P: nat := 1
  const PTE_W: nat := 2
  const PTE_U: nat := 4

  datatype Entry = Absent | Present(frame: nat, flags: nat)

  /** A frame's contents: a page directory or table, or bytes (as one value). */
  datatype Frame = Table(e: seq<Entry>) | Data(bytes: int)

  /**
   What a pool frame is used for: nothing; handed out by kalloc(); the directory of an address space whose
   tables below k have been freed; the table for entry i of a directory; the user page at (i, j).
   */
  datatype Owner = Free | Held | Dir(k: nat) | TableOf(d: nat, i: nat) | PageOf(d: nat, i: nat, j: nat)

  datatype State = State(free: seq<nat>, mem: map<nat, Frame>, own: map<nat, Owner>)

  predicate IsTable(f: Frame) { f.Table? && |f.e| == NENTRIES }

  predicate DirAt(s: State, d: nat) { d in s.own && d in s.mem && s.own[d].Dir? && IsTable(s.mem[d]) }

  predicate TableAt(s: State, d: nat, i: nat, t: nat) {
    t in s.own && t in s.mem && s.own[t] == TableOf(d, i) && IsTable(s.mem[t])
  }

  /** What the hardware finds for page (i, j) of address space d. */
  function Lookup(s: State, d: nat, i: nat, j: nat): Entry {
    if !(d in s.mem && IsTable(s.mem[d]) && i < NENTRIES && j < NENTRIES && s.mem[d].e[i].Present?) then Absent
    else
      var t := s.mem[d].e[i].frame;
      if t in s.mem && IsTable(s.mem[t]) then s.mem[t].e[j] else Absent
  }

  predicate TableFrameOk(s: State, t: nat, d: nat, i: nat)
    requires t in s.mem
  {
    && i < NENTRIES && DirAt(s, d) && s.own[d].k <= i && s.mem[d].e[i].Present? && s.mem[d].e[i].frame == t
    && IsTable(s.mem[t])
    && (i < NUSER ==> forall j :: 0 <= j < NENTRIES && s.mem[t].e[j].Present? ==>
          s.mem[t].e[j].frame in s.own && s.own[s.mem[t].e[j].frame] == PageOf(d, i, j))
  }

  predicate DirFrameOk(s: State, d: nat)
    requires d in s.mem && d in s.own && s.own[d].Dir?
  {
    && IsTable(s.mem[d])
    && forall i :: s.own[d].k <= i < NENTRIES && s.mem[d].e[i].Present? ==> TableAt(s, d, i, s.mem[d].e[i].frame)
  }

  /** Each frame is what its owner says, and its owner points back to it. */
  predicate FrameOk(s: State, f: nat)
    requires f in s.own && f in s.mem
  {
    match s.own[f]
    case Free => true
    case Held => true
    case Dir(_) => DirFrameOk(s, f)
    case TableOf(d, i) => TableFrameOk(s, f, d, i)
    case PageOf(d, i, j) =>
      && s.mem[f].Data? && i < NUSER && j < NENTRIES && DirAt(s, d) && s.own[d].k <= i
      && Lookup(s, d, i, j).Present? && Lookup(s, d, i, j).frame == f
  }

  /** The free list holds exactly the free frames, each once. */
  ghost predicate PoolOk(s: State) {
    Distinct(s.free) && forall f :: f in s.free <==> f in s.own && s.own[f] == Free
  }

  ghost predicate Inv(s: State) {
    && (forall f :: f in s.own <==> f in s.mem)
    && PoolOk(s)
    && (forall f {:trigger FrameOk(s, f)} :: f in s.own ==> FrameOk(s, f))
  }

  // ---------------------------------------------------------------- steps

  function ZeroTable(): (f: Frame)
    ensures IsTable(f) && forall i :: 0 <= i < NENTRIES ==> f.e[i] == Absent
  {
    Table(seq(NENTRIES, i => Absent))
  }

  function SetEntry(f: Frame, i: nat, e: Entry): (r: Frame)
    requires IsTable(f) && i < NENTRIES
    ensures IsTable(r) && r.e == f.e[i := e]
  {
    Table(f.e[i := e])
  }

  predicate InUse(s: State, g: nat) { g in s.own && (s.own[g].Dir? || s.own[g].TableOf? || s.own[g].PageOf?) }

  /** Frames in use stay as they are, contents included, except possibly x. */
  ghost predicate SameBut(s: State, s': State, x: nat) {
    forall g :: InUse(s, g) && g in s.mem && g != x ==>
      g in s'.mem && g in s'.own && s'.mem[g] == s.mem[g] && s'.own[g] == s.own[g]
  }

  lemma Unchanged(s: State, s': State, f: nat, x: nat)
    requires Inv(s) && f in s.own && f != x && !InUse(s, x) && SameBut(s, s', x)
    requires f in s'.own && f in s'.mem && s'.own[f] == s.own[f]
    ensures FrameOk(s', f)
  {
    assert FrameOk(s, f);
    match s.own[f]
    case PageOf(d, i, j) =>
      assert FrameOk(s, d);
      assert InUse(s, d) && InUse(s, s.mem[d].e[i].frame) && InUse(s, f);
    case TableOf(d, i) =>
      assert InUse(s, d) && InUse(s, f);
      forall j | 0 <= j < NENTRIES && s.mem[f].e[j].Present? && i < NUSER
        ensures s.mem[f].e[j].frame in s'.own && s'.own[s.mem[f].e[j].frame] == PageOf(d, i, j)
      {
        assert InUse(s, s.mem[f].e[j].frame);
      }
    case Dir(k) =>
      assert InUse(s, f);
      forall i | k <= i < NENTRIES && s.mem[f].e[i].Present?
        ensures TableAt(s', f, i, s.mem[f].e[i].frame)
      {
        assert InUse(s, s.mem[f].e[i].frame);
      }
    case _ =>
  }

  function KallocStep(s: State): State
    requires s.free != []
  {
    State(s.free[1..], s.mem, s.own[s.free[0] := Held])
  }

  function KfreeStep(s: State, f: nat, junk: int): State {
    State([f] + s.free, s.mem[f := Data(junk)], s.own[f := Free])
  }

  lemma KallocKeeps(s: State)
    requires Inv(s) && s.free != []
    ensures Inv(KallocStep(s)) && s.free[0] in s.own && s.own[s.free[0]] == Free
  {
    var s', f := KallocStep(s), s.free[0];
    assert f in s.free;
    forall g | g in s'.own
      ensures FrameOk(s', g)
    {
      if g != f { Unchanged(s, s', g, f); }
    }
    forall g
      ensures g in s'.free <==> g in s'.own && s'.own[g] == Free
    {
      assert s.free == [f] + s'.free;
      assert g in s'.free ==> g in s.free && g != f;
    }
  }

  lemma KfreeKeeps(s: State, f: nat, junk: int)
    requires Inv(s) && f in s.own && s.own[f] == Held
    ensures Inv(KfreeStep(s, f, junk))
  {
    var s' := KfreeStep(s, f, junk);
    assert f !in s.free;
    forall g | g in s'.own
      ensures FrameOk(s', g)
    {
      if g != f { Unchanged(s, s', g, f); }
    }
  }

  /** Page (i, j) of d is mapped as before and, in user space, to a frame with the same contents. */
  predicate SamePage(s: State, s': State, d: nat, i: nat, j: nat) {
    && Lookup(s', d, i, j) == Lookup(s, d, i, j)
    && (i < NUSER && Lookup(s, d, i, j).Present? ==>
        var f := Lookup(s, d, i, j).frame; f in s.mem && f in s'.mem && s'.mem[f] == s.mem[f])
  }

  /** A live address space stays one, every page as before. */
  ghost predicate SameSpace(s: State, s': State, d: nat) {
    DirAt(s', d) && d in s.own && s'.own[d] == s.own[d] && forall i: nat, j: nat :: SamePage(s, s', d, i, j)
  }

  predicate Live(s: State, d: nat) { d in s.own && s.own[d] == Dir(0) }

  /** The table of a present directory entry, and the frame behind a present user page. */
  lemma TableOfEntry(s: State, d: nat, i: nat)
    requires Inv(s) && d in s.own && s.own[d].Dir? && s.own[d].k <= i < NENTRIES
    ensures
      && DirAt(s, d)
      && (s.mem[d].e[i].Present? ==>
            TableAt(s, d, i, s.mem[d].e[i].frame) && TableFrameOk(s, s.mem[d].e[i].frame, d, i))
  {
    assert FrameOk(s, d);
    if s.mem[d].e[i].Present? {
      assert FrameOk(s, s.mem[d].e[i].frame);
    }
  }

  lemma PageOfEntry(s: State, d: nat, i: nat, j: nat)
    requires
      Inv(s) && d in s.own && s.own[d].Dir? && s.own[d].k <= i < NUSER && j < NENTRIES && Lookup(s, d, i, j).Present?
    ensures var f := Lookup(s, d, i, j).frame; f in s.own && s.own[f] == PageOf(d, i, j) && f in s.mem && s.mem[f].Data?
  {
    TableOfEntry(s, d, i);
    assert FrameOk(s, Lookup(s, d, i, j).frame);
  }

  /** Changing frames not in use changes no address space. */
  lemma SpaceStays(s: State, s': State, d: nat, x: nat)
    requires Inv(s) && Live(s, d) && !InUse(s, x) && SameBut(s, s', x)
    ensures SameSpace(s, s', d)
  {
    assert InUse(s, d) && FrameOk(s, d);
    forall i: nat, j: nat
      ensures SamePage(s, s', d, i, j)
    {
      if i < NENTRIES && j < NENTRIES && s.mem[d].e[i].Present? {
        TableOfEntry(s, d, i);
        assert InUse(s, s.mem[d].e[i].frame);
        if i < NUSER && Lookup(s, d, i, j).Present? {
          PageOfEntry(s, d, i, j);
          assert InUse(s, Lookup(s, d, i, j).frame);
        }
      }
    }
  }

  // ---------------------------------------------------------------- directories and tables

  function NewDir(s: State, f: nat): State { State(s.free, s.mem[f := ZeroTable()], s.own[f := Dir(0)]) }

  lemma NewDirKeeps(s: State, f: nat)
    requires Inv(s) && f in s.own && s.own[f] == Held
    ensures
      Inv(NewDir(s, f)) && Live(NewDir(s, f), f) && forall i: nat, j: nat :: Lookup(NewDir(s, f), f, i, j) == Absent
  {
    var s' := NewDir(s, f);
    forall g | g in s'.own
      ensures FrameOk(s', g)
    {
      if g != f { Unchanged(s, s', g, f); }
    }
  }

  /** walkpgdir()'s new table f for directory entry i. */
  function NewTable(s: State, d: nat, i: nat, f: nat): State
    requires DirAt(s, d) && i < NENTRIES
  {
    State(s.free, s.mem[f := ZeroTable()][d := SetEntry(s.mem[d], i, Present(f, PTE_P + PTE_W + PTE_U))],
          s.own[f := TableOf(d, i)])
  }

  lemma NewTableFrame(s: State, d: nat, i: nat, f: nat, g: nat)
    requires
      && Inv(s) && Live(s, d) && DirAt(s, d) && i < NENTRIES && s.mem[d].e[i] == Absent && f in s.own
      && s.own[f] == Held && g in s.own
    ensures FrameOk(NewTable(s, d, i, f), g)
  {
    var s' := NewTable(s, d, i, f);
    assert FrameOk(s, g) && FrameOk(s, d);
    match s.own[g]
    case PageOf(e, i', j') =>
      TableOfEntry(s, e, i');
    case TableOf(e, i') =>
      forall j | 0 <= j < NENTRIES && s.mem[g].e[j].Present? && i' < NUSER
        ensures s.mem[g].e[j].frame != f
      {
      }
    case Dir(k) =>
      forall i' | k <= i' < NENTRIES && s.mem[g].e[i'].Present?
        ensures TableAt(s', g, i', s.mem[g].e[i'].frame)
      {
        assert TableAt(s, g, i', s.mem[g].e[i'].frame);
      }
    case _ =>
  }

  lemma NewTableKeeps(s: State, d: nat, i: nat, f: nat)
    requires
      Inv(s) && Live(s, d) && DirAt(s, d) && i < NENTRIES && s.mem[d].e[i] == Absent && f in s.own && s.own[f] == Held
    ensures Inv(NewTable(s, d, i, f)) && Live(NewTable(s, d, i, f), d)
    ensures forall e :: Live(s, e) ==> SameSpace(s, NewTable(s, d, i, f), e)
  {
    var s' := NewTable(s, d, i, f);
    forall g | g in s'.own
      ensures FrameOk(s', g)
    {
      NewTableFrame(s, d, i, f, g);
    }
    forall e | Live(s, e)
      ensures SameSpace(s, s', e)
    {
      NewTableSpace(s, d, i, f, e);
    }
  }

  lemma NewTableSpace(s: State, d: nat, i: nat, f: nat, e: nat)
    requires
      && Inv(s) && Live(s, d) && DirAt(s, d) && i < NENTRIES && s.mem[d].e[i] == Absent && f in s.own
      && s.own[f] == Held && Live(s, e)
    ensures SameSpace(s, NewTable(s, d, i, f), e)
  {
    var s' := NewTable(s, d, i, f);
    assert FrameOk(s, e);
    forall i': nat, j: nat
      ensures SamePage(s, s', e, i', j)
    {
      if i' < NENTRIES && j < NENTRIES {
        TableOfEntry(s, e, i');
        if i' < NUSER && Lookup(s, e, i', j).Present? { PageOfEntry(s, e, i', j); }
      }
    }
  }

  // ---------------------------------------------------------------- pages

  /** All live address spaces stay the same except for page (i, j) of d. */
  ghost predicate OnlyPage(s: State, s': State, d: nat, i: nat, j: nat) {
    forall e: nat :: Live(s, e) ==>
      Live(s', e) && DirAt(s', e) && forall a: nat, b: nat :: (e, a, b) != (d, i, j) ==> SamePage(s, s', e, a, b)
  }

  /** The table entry for (i, j) of d. */
  predicate HasTable(s: State, d: nat, i: nat) {
    Live(s, d) && DirAt(s, d) && i < NENTRIES && s.mem[d].e[i].Present? && TableAt(s, d, i, s.mem[d].e[i].frame)
  }

  function SetPte(s: State, d: nat, i: nat, j: nat, e: Entry): map<nat, Frame>
    requires HasTable(s, d, i) && j < NENTRIES
  {
    s.mem[s.mem[d].e[i].frame := SetEntry(s.mem[s.mem[d].e[i].frame], j, e)]
  }

  /** mappages() of a frame just allocated at a user page. */
  function MapUser(s: State, d: nat, i: nat, j: nat, f: nat, flags: nat): State
    requires HasTable(s, d, i) && j < NENTRIES
  {
    State(s.free, SetPte(s, d, i, j, Present(f, flags)), s.own[f := PageOf(d, i, j)])
  }

  /** A frame given back with its table entry cleared. */
  function FreePage(s: State, d: nat, i: nat, j: nat, junk: int): State
    requires HasTable(s, d, i) && j < NENTRIES && Lookup(s, d, i, j).Present?
  {
    var f := Lookup(s, d, i, j).frame;
    State([f] + s.free, SetPte(s, d, i, j, Absent)[f := Data(junk)], s.own[f := Free])
  }

  /** A kernel mapping; the frame behind it belongs to no address space. */
  function MapKernel(s: State, d: nat, i: nat, j: nat, f: nat, flags: nat): State
    requires HasTable(s, d, i) && j < NENTRIES
  {
    State(s.free, SetPte(s, d, i, j, Present(f, flags)), s.own)
  }

  lemma MapUserFrame(s: State, d: nat, i: nat, j: nat, f: nat, flags: nat, g: nat)
    requires Inv(s) && HasTable(s, d, i) && i < NUSER && j < NENTRIES && Lookup(s, d, i, j) == Absent
    requires f in s.own && s.own[f] == Held && s.mem[f].Data? && g in s.own
    ensures FrameOk(MapUser(s, d, i, j, f, flags), g)
  {
    var s', t := MapUser(s, d, i, j, f, flags), s.mem[d].e[i].frame;
    assert FrameOk(s, g) && FrameOk(s, d) && FrameOk(s, t);
    match s.own[g]
    case PageOf(e, i', j') => TableOfEntry(s, e, i');
    case Dir(k) =>
      forall i' | k <= i' < NENTRIES && s.mem[g].e[i'].Present?
        ensures TableAt(s', g, i', s.mem[g].e[i'].frame)
      {
        assert TableAt(s, g, i', s.mem[g].e[i'].frame);
      }
    case _ =>
  }

  lemma MapUserKeeps(s: State, d: nat, i: nat, j: nat, f: nat, flags: nat)
    requires Inv(s) && HasTable(s, d, i) && i < NUSER && j < NENTRIES && Lookup(s, d, i, j) == Absent
    requires f in s.own && s.own[f] == Held && s.mem[f].Data?
    ensures var s' := MapUser(s, d, i, j, f, flags);
      && Inv(s') && OnlyPage(s, s', d, i, j) && Lookup(s', d, i, j) == Present(f, flags) && s'.mem[f] == s.mem[f]
  {
    var s' := MapUser(s, d, i, j, f, flags);
    forall g | g in s'.own
      ensures FrameOk(s', g)
    {
      MapUserFrame(s, d, i, j, f, flags, g);
    }
    forall e: nat | Live(s, e)
      ensures
        Live(s', e) && DirAt(s', e) && forall a: nat, b: nat :: (e, a, b) != (d, i, j) ==> SamePage(s, s', e, a, b)
    {
      SetPteSpace(s, s', d, i, j, Present(f, flags), f, e);
    }
  }

  /** Setting one table entry, with whatever happens to a frame x that no other page uses. */
  lemma SetPteSpace(s: State, s': State, d: nat, i: nat, j: nat, pte: Entry, x: nat, e: nat)
    requires Inv(s) && HasTable(s, d, i) && j < NENTRIES && Live(s, e)
    requires forall g :: InUse(s, g) && g != x ==>
      g in s'.own && s'.own[g] == s.own[g] && g in s'.mem && s'.mem[g] == SetPte(s, d, i, j, pte)[g]
    requires x in s.own && (s.own[x] == Held || (i < NUSER && s.own[x] == PageOf(d, i, j)))
    ensures Live(s', e) && DirAt(s', e) && forall a: nat, b: nat :: (e, a, b) != (d, i, j) ==> SamePage(s, s', e, a, b)
  {
    var t := s.mem[d].e[i].frame;
    assert FrameOk(s, e) && InUse(s, e) && InUse(s, t);
    forall a: nat, b: nat | (e, a, b) != (d, i, j)
      ensures SamePage(s, s', e, a, b)
    {
      if a < NENTRIES && b < NENTRIES && s.mem[e].e[a].Present? {
        TableOfEntry(s, e, a);
        assert InUse(s, s.mem[e].e[a].frame);
        if a < NUSER && Lookup(s, e, a, b).Present? {
          PageOfEntry(s, e, a, b);
          assert InUse(s, Lookup(s, e, a, b).frame);
        }
      }
    }
  }

  lemma FreePageFrame(s: State, d: nat, i: nat, j: nat, junk: int, g: nat)
    requires Inv(s) && HasTable(s, d, i) && i < NUSER && j < NENTRIES && Lookup(s, d, i, j).Present? && g in s.own
    ensures
      && g in FreePage(s, d, i, j, junk).own && g in FreePage(s, d, i, j, junk).mem
      && FrameOk(FreePage(s, d, i, j, junk), g)
  {
    PageOfEntry(s, d, i, j);
    var s', t, f := FreePage(s, d, i, j, junk), s.mem[d].e[i].frame, Lookup(s, d, i, j).frame;
    assert FrameOk(s, g) && FrameOk(s, d) && FrameOk(s, t) && FrameOk(s, f);
    match s.own[g]
    case PageOf(e, i', j') => TableOfEntry(s, e, i');
    case TableOf(e, i') =>
      forall b | 0 <= b < NENTRIES && s'.mem[g].e[b].Present? && i' < NUSER
        ensures s'.mem[g].e[b].frame in s'.own && s'.own[s'.mem[g].e[b].frame] == PageOf(e, i', b)
      {
        assert s'.mem[g].e[b] == s.mem[g].e[b];
      }
    case Dir(k) =>
      forall i' | k <= i' < NENTRIES && s.mem[g].e[i'].Present?
        ensures TableAt(s', g, i', s.mem[g].e[i'].frame)
      {
        assert TableAt(s, g, i', s.mem[g].e[i'].frame);
      }
    case _ =>
  }

  lemma FreePageKeeps(s: State, d: nat, i: nat, j: nat, junk: int)
    requires Inv(s) && HasTable(s, d, i) && i < NUSER && j < NENTRIES && Lookup(s, d, i, j).Present?
    ensures var s', f := FreePage(s, d, i, j, junk), Lookup(s, d, i, j).frame;
      && Inv(s') && OnlyPage(s, s', d, i, j) && Lookup(s', d, i, j) == Absent
      && f in s.own && s.own[f] == PageOf(d, i, j) && s'.own == s.own[f := Free]
  {
    PageOfEntry(s, d, i, j);
    var s', f := FreePage(s, d, i, j, junk), Lookup(s, d, i, j).frame;
    forall g | g in s'.own
      ensures g in s'.mem && FrameOk(s', g)
    {
      FreePageFrame(s, d, i, j, junk, g);
    }
    assert f !in s.free;
    forall e: nat | Live(s, e)
      ensures
        Live(s', e) && DirAt(s', e) && forall a: nat, b: nat :: (e, a, b) != (d, i, j) ==> SamePage(s, s', e, a, b)
    {
      SetPteSpace(s, s', d, i, j, Absent, f, e);
    }
    assert s.own[f] != TableOf(d, i);
  }

  lemma MapKernelFrame(s: State, d: nat, i: nat, j: nat, f: nat, flags: nat, g: nat)
    requires Inv(s) && HasTable(s, d, i) && NUSER <= i && j < NENTRIES && g in s.own
    ensures FrameOk(MapKernel(s, d, i, j, f, flags), g)
  {
    var s', t := MapKernel(s, d, i, j, f, flags), s.mem[d].e[i].frame;
    assert FrameOk(s, g) && FrameOk(s, d) && FrameOk(s, t);
    match s.own[g]
    case PageOf(e, i', j') => TableOfEntry(s, e, i');
    case Dir(k) =>
      forall i' | k <= i' < NENTRIES && s.mem[g].e[i'].Present?
        ensures TableAt(s', g, i', s.mem[g].e[i'].frame)
      {
        assert TableAt(s, g, i', s.mem[g].e[i'].frame);
      }
    case _ =>
  }

  lemma MapKernelKeeps(s: State, d: nat, i: nat, j: nat, f: nat, flags: nat)
    requires Inv(s) && HasTable(s, d, i) && NUSER <= i && j < NENTRIES
    ensures var s' := MapKernel(s, d, i, j, f, flags);
      && Inv(s') && OnlyPage(s, s', d, i, j) && Lookup(s', d, i, j) == Present(f, flags)
  {
    var s' := MapKernel(s, d, i, j, f, flags);
    forall g | g in s'.own
      ensures FrameOk(s', g)
    {
      MapKernelFrame(s, d, i, j, f, flags, g);
    }
    forall e: nat | Live(s, e)
      ensures
        Live(s', e) && DirAt(s', e) && forall a: nat, b: nat :: (e, a, b) != (d, i, j) ==> SamePage(s, s', e, a, b)
    {
      KernelSpace(s, s', d, i, j, Present(f, flags), e);
    }
  }

  lemma KernelSpace(s: State, s': State, d: nat, i: nat, j: nat, pte: Entry, e: nat)
    requires
      Inv(s) && HasTable(s, d, i) && j < NENTRIES && Live(s, e) && s'.own == s.own && s'.mem == SetPte(s, d, i, j, pte)
    ensures Live(s', e) && DirAt(s', e) && forall a: nat, b: nat :: (e, a, b) != (d, i, j) ==> SamePage(s, s', e, a, b)
  {
    assert FrameOk(s, e);
    forall a: nat, b: nat | (e, a, b) != (d, i, j)
      ensures SamePage(s, s', e, a, b)
    {
      if a < NENTRIES && b < NENTRIES && s.mem[e].e[a].Present? {
        TableOfEntry(s, e, a);
        if a < NUSER && Lookup(s, e, a, b).Present? {
          PageOfEntry(s, e, a, b);
        }
      }
    }
  }

  // ---------------------------------------------------------------- freevm()

  /** freevm()'s loop has passed entry k of d. */
  function DropTable(s: State, d: nat, k: nat, junk: int): State
    requires DirAt(s, d) && k < NENTRIES
  {
    if s.mem[d].e[k].Present? then
      var t := s.mem[d].e[k].frame;
      State([t] + s.free, s.mem[t := Data(junk)], s.own[t := Free][d := Dir(k + 1)])
    else State(s.free, s.mem, s.own[d := Dir(k + 1)])
  }

  /** Entry k's table maps no user page. */
  predicate NoPages(s: State, d: nat, k: nat) { forall j: nat :: j < NENTRIES ==> Lookup(s, d, k, j) == Absent }

  lemma DropTableFrame(s: State, d: nat, k: nat, junk: int, g: nat)
    requires
      Inv(s) && DirAt(s, d) && s.own[d] == Dir(k) && k < NENTRIES && (k < NUSER ==> NoPages(s, d, k)) && g in s.own
    ensures var s' := DropTable(s, d, k, junk); g in s'.own && g in s'.mem && FrameOk(s', g)
  {
    hide NoPages;
    var s' := DropTable(s, d, k, junk);
    TableOfEntry(s, d, k);
    assert FrameOk(s, g) && FrameOk(s, d);
    match s.own[g]
    case PageOf(e, i', j') => DropTablePage(s, d, k, junk, g);
    case TableOf(e, i') =>
    case Dir(m) => DropTableDir(s, d, k, junk, g);
    case _ =>
  }

  lemma DropTablePage(s: State, d: nat, k: nat, junk: int, g: nat)
    requires Inv(s) && DirAt(s, d) && s.own[d] == Dir(k) && k < NENTRIES && (k < NUSER ==> NoPages(s, d, k))
    requires g in s.own && s.own[g].PageOf?
    ensures var s' := DropTable(s, d, k, junk); g in s'.own && g in s'.mem && FrameOk(s', g)
  {
    TableOfEntry(s, d, k);
    assert FrameOk(s, g) && FrameOk(s, d);
    TableOfEntry(s, s.own[g].d, s.own[g].i);
    assert (s.own[g].d, s.own[g].i) != (d, k);
  }

  lemma DropTableDir(s: State, d: nat, k: nat, junk: int, g: nat)
    requires Inv(s) && DirAt(s, d) && s.own[d] == Dir(k) && k < NENTRIES && g in s.own && s.own[g].Dir?
    ensures var s' := DropTable(s, d, k, junk); g in s'.own && g in s'.mem && FrameOk(s', g)
  {
    var s' := DropTable(s, d, k, junk);
    TableOfEntry(s, d, k);
    assert FrameOk(s, g) && FrameOk(s, d);
    forall i | s'.own[g].k <= i < NENTRIES && s.mem[g].e[i].Present?
      ensures TableAt(s', g, i, s.mem[g].e[i].frame)
    {
      assert TableAt(s, g, i, s.mem[g].e[i].frame);
    }
  }

  lemma DropTableKeeps(s: State, d: nat, k: nat, junk: int)
    requires Inv(s) && DirAt(s, d) && s.own[d] == Dir(k) && k < NENTRIES && (k < NUSER ==> NoPages(s, d, k))
    ensures var s' := DropTable(s, d, k, junk); Inv(s') && d in s'.own && s'.own[d] == Dir(k + 1)
    ensures var s' := DropTable(s, d, k, junk);
      s'.own == (if s.mem[d].e[k].Present? then s.own[s.mem[d].e[k].frame := Free] else s.own)[d := Dir(k + 1)]
    ensures forall e: nat :: Live(s, e) && e != d ==> SameSpace(s, DropTable(s, d, k, junk), e)
    ensures forall i: nat, j: nat :: k < i ==> Lookup(DropTable(s, d, k, junk), d, i, j) == Lookup(s, d, i, j)
  {
    var s' := DropTable(s, d, k, junk);
    TableOfEntry(s, d, k);
    forall g | g in s'.own
      ensures g in s'.mem && FrameOk(s', g)
    {
      DropTableFrame(s, d, k, junk, g);
    }
    forall e: nat | Live(s, e) && e != d
      ensures SameSpace(s, s', e)
    {
      DropTableSpace(s, d, k, junk, e);
    }
    forall i: nat, j: nat | k < i
      ensures Lookup(s', d, i, j) == Lookup(s, d, i, j)
    {
      if i < NENTRIES { TableOfEntry(s, d, i); }
    }
  }

  lemma DropTableSpace(s: State, d: nat, k: nat, junk: int, e: nat)
    requires Inv(s) && DirAt(s, d) && s.own[d] == Dir(k) && k < NENTRIES && Live(s, e) && e != d
    ensures SameSpace(s, DropTable(s, d, k, junk), e)
  {
    var s' := DropTable(s, d, k, junk);
    TableOfEntry(s, d, k);
    assert FrameOk(s, e);
    forall a: nat, b: nat
      ensures SamePage(s, s', e, a, b)
    {
      if a < NENTRIES && b < NENTRIES && s.mem[e].e[a].Present? {
        TableOfEntry(s, e, a);
        if a < NUSER && Lookup(s, e, a, b).Present? { PageOfEntry(s, e, a, b); }
      }
    }
  }

  /** The directory itself, with all its tables gone, is the last frame to be freed. */
  lemma DropDirKeeps(s: State, d: nat, junk: int)
    requires Inv(s) && d in s.own && s.own[d] == Dir(NENTRIES)
    ensures Inv(KfreeStep(s, d, junk)) && forall e: nat :: Live(s, e) ==> SameSpace(s, KfreeStep(s, d, junk), e)
  {
    var s' := KfreeStep(s, d, junk);
    forall g | g in s'.own
      ensures FrameOk(s', g)
    {
      if g != d { DropDirFrame(s, d, junk, g); }
    }
    assert d !in s.free;
    forall e: nat | Live(s, e)
      ensures SameSpace(s, s', e)
    {
      DropDirSpace(s, d, junk, e);
    }
  }

  lemma DropDirFrame(s: State, d: nat, junk: int, g: nat)
    requires Inv(s) && d in s.own && s.own[d] == Dir(NENTRIES) && g in s.own && g != d
    ensures FrameOk(KfreeStep(s, d, junk), g)
  {
    assert FrameOk(s, g);
    match s.own[g]
    case PageOf(e, i', j') => TableOfEntry(s, e, i');
    case Dir(k) =>
      forall i' | k <= i' < NENTRIES && s.mem[g].e[i'].Present?
        ensures TableAt(KfreeStep(s, d, junk), g, i', s.mem[g].e[i'].frame)
      {
        assert TableAt(s, g, i', s.mem[g].e[i'].frame);
      }
    case _ =>
  }

  lemma DropDirSpace(s: State, d: nat, junk: int, e: nat)
    requires Inv(s) && d in s.own && s.own[d] == Dir(NENTRIES) && Live(s, e)
    ensures SameSpace(s, KfreeStep(s, d, junk), e)
  {
    var s' := KfreeStep(s, d, junk);
    assert FrameOk(s, e);
    forall a: nat, b: nat
      ensures SamePage(s, s', e, a, b)
    {
      if a < NENTRIES && b < NENTRIES && s.mem[e].e[a].Present? {
        TableOfEntry(s, e, a);
        if a < NUSER && Lookup(s, e, a, b).Present? { PageOfEntry(s, e, a, b); }
      }
    }
  }

  // ---------------------------------------------------------------- ranges of pages

  function Vp(i: nat, j: nat): nat { i * NENTRIES + j }
  function Pdx(vp: nat): nat { vp / NENTRIES }
  function Ptx(vp: nat): nat { vp % NENTRIES }

  predicate In(i: nat, j: nat, lo: nat, hi: nat) { i < NENTRIES && j < NENTRIES && lo <= Vp(i, j) < hi }

  lemma VpSplit(vp: nat)
    requires vp < NENTRIES * NENTRIES
    ensures Pdx(vp) < NENTRIES && Ptx(vp) < NENTRIES && Vp(Pdx(vp), Ptx(vp)) == vp
    ensures vp < NUSER * NENTRIES <==> Pdx(vp) < NUSER
  {
  }

  lemma VpOne(i: nat, j: nat, vp: nat)
    requires j < NENTRIES && Vp(i, j) == vp
    ensures i == Pdx(vp) && j == Ptx(vp)
  {
  }

  /** Outside pages lo to hi of d every live address space is as before. */
  ghost predicate OnlyRange(s: State, s': State, d: nat, lo: nat, hi: nat) {
    forall e: nat :: Live(s, e) ==>
      Live(s', e) && DirAt(s', e) && forall a: nat, b: nat :: !(e == d && In(a, b, lo, hi)) ==> SamePage(s, s', e, a, b)
  }

  ghost predicate SameSpaces(s: State, s': State) {
    forall e: nat :: Live(s, e) ==> SameSpace(s, s', e)
  }

  lemma SameTrans(s: State, s1: State, s2: State, d: nat, i: nat, j: nat)
    requires SamePage(s, s1, d, i, j) && SamePage(s1, s2, d, i, j)
    ensures SamePage(s, s2, d, i, j)
  {
  }

  lemma RangeThenSame(s: State, s1: State, s2: State, d: nat, lo: nat, hi: nat)
    requires OnlyRange(s, s1, d, lo, hi) && SameSpaces(s1, s2)
    ensures OnlyRange(s, s2, d, lo, hi)
  {
    hide SamePage, In;
    forall e: nat | Live(s, e)
      ensures
        && Live(s2, e) && DirAt(s2, e)
        && forall a: nat, b: nat :: !(e == d && In(a, b, lo, hi)) ==> SamePage(s, s2, e, a, b)
    {
      assert Live(s1, e) && SameSpace(s1, s2, e);
      forall a: nat, b: nat | !(e == d && In(a, b, lo, hi))
        ensures SamePage(s, s2, e, a, b)
      {
        SameTrans(s, s1, s2, e, a, b);
      }
    }
  }

  lemma RangeThenPage(s: State, s1: State, s2: State, d: nat, lo: nat, m: nat, hi: nat)
    requires
      OnlyRange(s, s1, d, lo, m) && lo <= m < hi && m < NENTRIES * NENTRIES && OnlyPage(s1, s2, d, Pdx(m), Ptx(m))
    ensures OnlyRange(s, s2, d, lo, hi)
  {
    hide SamePage;
    VpSplit(m);
    forall e: nat | Live(s, e)
      ensures
        && Live(s2, e) && DirAt(s2, e)
        && forall a: nat, b: nat :: !(e == d && In(a, b, lo, hi)) ==> SamePage(s, s2, e, a, b)
    {
      assert Live(s1, e);
      forall a: nat, b: nat | !(e == d && In(a, b, lo, hi))
        ensures SamePage(s, s2, e, a, b)
      {
        assert !(e == d && In(a, b, lo, m));
        assert (e, a, b) != (d, Pdx(m), Ptx(m));
        SameTrans(s, s1, s2, e, a, b);
      }
    }
  }

  lemma RangeThenRange(s: State, s1: State, s2: State, d: nat, lo: nat, m: nat, hi: nat)
    requires OnlyRange(s, s1, d, lo, m) && m <= hi && OnlyRange(s1, s2, d, lo, hi)
    ensures OnlyRange(s, s2, d, lo, hi)
  {
    hide SamePage;
    forall e: nat | Live(s, e)
      ensures
        && Live(s2, e) && DirAt(s2, e)
        && forall a: nat, b: nat :: !(e == d && In(a, b, lo, hi)) ==> SamePage(s, s2, e, a, b)
    {
      assert Live(s1, e);
      forall a: nat, b: nat | !(e == d && In(a, b, lo, hi))
        ensures SamePage(s, s2, e, a, b)
      {
        assert !(e == d && In(a, b, lo, m));
        SameTrans(s, s1, s2, e, a, b);
      }
    }
  }

  /** Frames have changed hands only from the pool to d: to tables, and to pages lo to hi. */
  ghost predicate Given(s: State, s': State, d: nat, lo: nat, hi: nat) {
    forall f :: (f in s.own <==> f in s'.own) && (f in s.own ==>
      s'.own[f] == s.own[f] || (s.own[f] == Free && GivenTo(s'.own[f], d, lo, hi)))
  }

  predicate GivenTo(o: Owner, d: nat, lo: nat, hi: nat) {
    match o
    case TableOf(e, _) => e == d
    case PageOf(e, i, j) => e == d && In(i, j, lo, hi)
    case _ => false
  }

  /** Exactly the frames of d's pages lo to hi have gone back to the pool. */
  ghost predicate Returned(s: State, s': State, d: nat, lo: nat, hi: nat) {
    forall f ::
      && (f in s.own <==> f in s'.own)
      && (f in s.own ==> s'.own[f] == if InPages(s.own[f], d, lo, hi) then Free else s.own[f])
  }

  predicate InPages(o: Owner, d: nat, lo: nat, hi: nat) { o.PageOf? && o.d == d && In(o.i, o.j, lo, hi) }

  /** Exactly the frames of d, its own included, have gone back to the pool. */
  ghost predicate ReturnedAll(s: State, s': State, d: nat) {
    forall f ::
      && (f in s.own <==> f in s'.own)
      && (f in s.own ==> s'.own[f] == if BelongsTo(s.own[f], f, d) then Free else s.own[f])
  }

  predicate BelongsTo(o: Owner, f: nat, d: nat) {
    match o
    case Dir(_) => f == d
    case TableOf(e, _) => e == d
    case PageOf(e, _, _) => e == d
    case _ => false
  }

  ghost predicate NoneMapped(s: State, d: nat, lo: nat, hi: nat) {
    forall i: nat, j: nat :: In(i, j, lo, hi) ==> Lookup(s, d, i, j) == Absent
  }

  // ---------------------------------------------------------------- kalloc.c and vm.c

  /** freerange(): one kfree() for each frame. */
  method Freerange(lo: nat, hi: nat) returns (free: seq<nat>, mem: map<nat, Frame>, ghost own: map<nat, Owner>)
    ensures Distinct(free) && (forall f :: f in free <==> lo <= f < hi)
    ensures
      && (forall f :: f in mem <==> lo <= f < hi) && (forall f :: f in own <==> lo <= f < hi)
      && (forall f :: f in own ==> own[f] == Free)
  {
    free, mem, own := [], map[], map[];
    var p := lo;
    while p < hi
      invariant lo <= p && Distinct(free) && (forall f :: f in free <==> lo <= f < p)
      invariant
        && (forall f :: f in mem <==> lo <= f < p) && (forall f :: f in own <==> lo <= f < p)
        && (forall f :: f in own ==> own[f] == Free)
      invariant p <= hi || p == lo
    {
      PushDistinct(free, p);
      free, mem, own := [p] + free, mem[p := Data(1)], own[p := Free];
      p := p + 1;
    }
  }

  lemma PushDistinct(s: seq<nat>, x: nat)
    requires Distinct(s) && x !in s
    ensures Distinct([x] + s)
  {
  }

  // ---------------------------------------------------------------- what an operation takes from the pool

  /** The directory entries of d that have a page table. */
  ghost function Tables(s: State, d: nat): set<nat> {
    if d in s.mem && s.mem[d].Table? then set i | 0 <= i < |s.mem[d].e| && s.mem[d].e[i].Present? else {}
  }

  /** The directory entries that pages lo to hi need. */
  ghost function TablesFor(lo: nat, hi: nat): set<nat> {
    set vp | lo <= vp < hi :: Pdx(vp)
  }

  /** The directory entries that the first q lines of kmap need. */
  ghost function KernelTables(kmap: seq<Kmap>, q: nat): set<nat>
    requires q <= |kmap|
  {
    if q == 0 then {}
    else KernelTables(kmap, q - 1) + TablesFor(kmap[q - 1].vp, kmap[q - 1].vp + kmap[q - 1].n)
  }

  /** The frames it takes to give d the tables ts and n frames besides. */
  ghost function Cost(s: State, d: nat, ts: set<nat>, n: nat): nat {
    n + |ts - Tables(s, d)|
  }

  /** From s to s' directory d got the tables ts, and exactly those it lacked and n more frames left the pool. */
  ghost predicate Took(s: State, s': State, d: nat, ts: set<nat>, n: nat) {
    Tables(s', d) == Tables(s, d) + ts && |s'.free| + Cost(s, d, ts, n) == |s.free|
  }

  lemma TookEnough(s: State, s': State, d: nat, ts: set<nat>, n: nat)
    requires Took(s, s', d, ts, n)
    ensures Cost(s, d, ts, n) <= |s.free|
  {
  }

  lemma TookNothing(s: State, d: nat)
    ensures Took(s, s, d, {}, 0)
  {
  }

  /** Costs add up: a table that the first part got is not paid for again. */
  lemma TookTwice(s: State, s1: State, s2: State, d: nat, a: set<nat>, n: nat, b: set<nat>, m: nat)
    requires Took(s, s1, d, a, n) && Took(s1, s2, d, b, m)
    ensures Took(s, s2, d, a + b, n + m)
  {
    hide Tables;
    CostSplit(s, s1, d, a, n, b, m);
  }

  lemma CostSplit(s: State, s1: State, d: nat, a: set<nat>, n: nat, b: set<nat>, m: nat)
    requires Tables(s1, d) == Tables(s, d) + a
    ensures Cost(s, d, a + b, n + m) == Cost(s, d, a, n) + Cost(s1, d, b, m)
  {
    hide Tables;
    var t := Tables(s, d);
    assert (a + b) - t == (a - t) + (b - (t + a)) && (a - t) !! (b - (t + a));
  }

  /** What was too little for a part is too little for the whole. */
  lemma TooLittle(s: State, s1: State, d: nat, a: set<nat>, n: nat, b: set<nat>, m: nat, c: set<nat>, k: nat)
    requires Took(s, s1, d, a, n) && Cost(s1, d, b, m) > |s1.free| && a + b <= c && n + m <= k
    ensures Cost(s, d, c, k) > |s.free|
  {
    hide Tables;
    CostSplit(s, s1, d, a, n, b, m);
    var t := Tables(s, d);
    assert (a + b) - t <= c - t;
    Fewer((a + b) - t, c - t);
  }

  lemma Fewer(a: set<nat>, b: set<nat>)
    requires a <= b
    ensures |a| <= |b|
  {
    assert b == a + (b - a);
  }

  lemma TablesForNext(lo: nat, a: nat)
    requires lo <= a
    ensures TablesFor(lo, a + 1) == TablesFor(lo, a) + {Pdx(a)} && TablesFor(lo, lo) == {}
  {
  }

  lemma TablesForLess(lo: nat, a: nat, hi: nat)
    requires a <= hi
    ensures TablesFor(lo, a) <= TablesFor(lo, hi)
  {
  }

  lemma {:induction false} KernelTablesLess(kmap: seq<Kmap>, p: nat, q: nat)
    requires p <= q <= |kmap|
    ensures KernelTables(kmap, p) <= KernelTables(kmap, q)
  {
    if p < q { KernelTablesLess(kmap, p, q - 1); }
  }

  /** A frame other than the directory is taken and written: its tables are as they were. */
  lemma TookFrame(s: State, s': State, d: nat, f: nat, x: Frame)
    requires s'.mem == s.mem[f := x] && f != d && |s'.free| + 1 == |s.free|
    ensures Took(s, s', d, {}, 1)
  {
  }

  lemma TookTable(s: State, s': State, d: nat, i: nat, f: nat)
    requires DirAt(s, d) && i < NENTRIES && s.mem[d].e[i] == Absent && f != d && |s'.free| + 1 == |s.free|
    requires s'.mem == s.mem[f := ZeroTable()][d := SetEntry(s.mem[d], i, Present(f, PTE_P + PTE_W + PTE_U))]
    ensures Took(s, s', d, {i}, 0)
  {
    assert {i} - Tables(s, d) == {i};
  }

  lemma AllInMemory(s: State)
    requires Inv(s)
    ensures forall f :: f in s.own ==> f in s.mem
  {
    forall f | f in s.own
      ensures f in s.mem
    {
      assert FrameOk(s, f);
    }
  }

  lemma HadTable(s: State, d: nat, i: nat)
    requires DirAt(s, d) && i < NENTRIES
    ensures i in Tables(s, d) <==> s.mem[d].e[i].Present?
    ensures i in Tables(s, d) ==> Took(s, s, d, {i}, 0)
  {
    if i in Tables(s, d) {
      assert {i} - Tables(s, d) == {};
    }
  }

  /** Writing a table's entry is no change of the directory. */
  lemma TookEntry(s: State, s1: State, s2: State, d: nat, i: nat, j: nat, e: Entry)
    requires HasTable(s1, d, i) && j < NENTRIES && Took(s, s1, d, {i}, 0)
    requires s2.mem == SetPte(s1, d, i, j, e) && s2.free == s1.free
    ensures Took(s, s2, d, {i}, 0)
  {
  }

  /** One more page of a kernel range. */
  lemma TookNextTable(s: State, s1: State, s2: State, d: nat, lo: nat, a: nat)
    requires lo <= a && Took(s, s1, d, TablesFor(lo, a), 0) && Took(s1, s2, d, {Pdx(a)}, 0)
    ensures Took(s, s2, d, TablesFor(lo, a + 1), 0)
  {
    hide *;
    TookTwice(s, s1, s2, d, TablesFor(lo, a), 0, {Pdx(a)}, 0);
    TablesForNext(lo, a);
  }

  /** One more page, with its table if that was missing. */
  lemma TookPage(s: State, s1: State, s3: State, s4: State, d: nat, lo: nat, a: nat)
    requires lo <= a && Took(s, s1, d, TablesFor(lo, a), a - lo)
    requires Took(s1, s3, d, {}, 1) && Took(s3, s4, d, {Pdx(a)}, 0)
    ensures Took(s, s4, d, TablesFor(lo, a + 1), a + 1 - lo)
  {
    hide *;
    TookTwice(s1, s3, s4, d, {}, 1, {Pdx(a)}, 0);
    assert {} + {Pdx(a)} == {Pdx(a)};
    TookTwice(s, s1, s4, d, TablesFor(lo, a), a - lo, {Pdx(a)}, 1);
    TablesForNext(lo, a);
  }

  lemma PageShort(s1: State, s3: State, d: nat, i: nat)
    requires Took(s1, s3, d, {}, 1) && Cost(s3, d, {i}, 0) > |s3.free|
    ensures Cost(s1, d, {i}, 1) > |s1.free|
  {
    TooLittle(s1, s3, d, {}, 1, {i}, 0, {i}, 1);
  }

  lemma GrowShort(s: State, s1: State, d: nat, lo: nat, a: nat, hi: nat, ts: set<nat>, n: nat)
    requires lo <= a < hi && Took(s, s1, d, TablesFor(lo, a), a - lo) && Cost(s1, d, ts, n) > |s1.free|
    requires ts <= {Pdx(a)} && n <= 1
    ensures Cost(s, d, TablesFor(lo, hi), hi - lo) > |s.free|
  {
    TablesForNext(lo, a);
    TablesForLess(lo, a + 1, hi);
    TooLittle(s, s1, d, TablesFor(lo, a), a - lo, ts, n, TablesFor(lo, hi), hi - lo);
  }

  lemma RangeShort(s: State, s1: State, d: nat, lo: nat, a: nat, hi: nat)
    requires lo <= a < hi && Took(s, s1, d, TablesFor(lo, a), 0) && Cost(s1, d, {Pdx(a)}, 0) > |s1.free|
    ensures Cost(s, d, TablesFor(lo, hi), 0) > |s.free|
  {
    TablesForNext(lo, a);
    TablesForLess(lo, a + 1, hi);
    TooLittle(s, s1, d, TablesFor(lo, a), 0, {Pdx(a)}, 0, TablesFor(lo, hi), 0);
  }

  lemma FreshTables(s: State, d: nat, kmap: seq<Kmap>)
    requires d in s.mem && s.mem[d] == ZeroTable()
    ensures Took(s, s, d, KernelTables(kmap, 0), 0) && Tables(s, d) == {}
    ensures forall ts: set<nat>, n: nat :: Cost(s, d, ts, n) == n + |ts|
  {
    assert Tables(s, d) == {};
    forall ts: set<nat>, n: nat
      ensures Cost(s, d, ts, n) == n + |ts|
    {
      assert ts - {} == ts;
    }
  }

  lemma TookFresh(s: State, s': State, d: nat, ts: set<nat>)
    requires Took(s, s', d, ts, 0) && Tables(s, d) == {}
    ensures Tables(s', d) == ts && |s'.free| + |ts| == |s.free|
  {
    assert ts - {} == ts && {} + ts == ts;
  }

  lemma KernelNext(s: State, s3: State, s4: State, d: nat, kmap: seq<Kmap>, q: nat)
    requires q < |kmap| && Took(s, s3, d, KernelTables(kmap, q), 0)
    requires Took(s3, s4, d, TablesFor(kmap[q].vp, kmap[q].vp + kmap[q].n), 0)
    ensures Took(s, s4, d, KernelTables(kmap, q + 1), 0)
  {
    TookTwice(s, s3, s4, d, KernelTables(kmap, q), 0, TablesFor(kmap[q].vp, kmap[q].vp + kmap[q].n), 0);
  }

  lemma KernelShort(s: State, s3: State, d: nat, kmap: seq<Kmap>, q: nat)
    requires q < |kmap| && Took(s, s3, d, KernelTables(kmap, q), 0)
    requires Cost(s3, d, TablesFor(kmap[q].vp, kmap[q].vp + kmap[q].n), 0) > |s3.free|
    ensures Cost(s, d, KernelTables(kmap, |kmap|), 0) > |s.free|
  {
    KernelTablesLess(kmap, q + 1, |kmap|);
    var ts := TablesFor(kmap[q].vp, kmap[q].vp + kmap[q].n);
    TooLittle(s, s3, d, KernelTables(kmap, q), 0, ts, 0, KernelTables(kmap, |kmap|), 0);
  }

  /** In a directory that has exactly the tables kt, the missing ones of ts are what ts adds to kt. */
  lemma CopyCost(s: State, c: nat, kt: set<nat>, ts: set<nat>, n: nat)
    requires Tables(s, c) == kt
    ensures Cost(s, c, ts, n) + |kt| == n + |kt + ts|
  {
    assert kt + ts == kt + (ts - kt) && kt !! (ts - kt);
  }

  lemma NoFrame(s: State, d: nat)
    requires s.free == []
    ensures Cost(s, d, {}, 1) > |s.free|
  {
  }

  lemma OneTable(s: State, d: nat, i: nat)
    requires i !in Tables(s, d)
    ensures Cost(s, d, {i}, 0) == 1
  {
    assert {i} - Tables(s, d) == {i};
  }

  class Memory {
    var free: seq<nat>
    var mem: map<nat, Frame>
    ghost var own: map<nat, Owner>

    ghost function S(): State
      reads this
    {
      State(free, mem, own)
    }

    /** kinit1() and kinit2(): the pool is all frames from lo to hi. */
    constructor (lo: nat, hi: nat)
      ensures Inv(S()) && (forall f :: f in own <==> lo <= f < hi) && (forall f :: f in own ==> own[f] == Free)
    {
      var l, m;
      ghost var o;
      l, m, o := Freerange(lo, hi);
      free, mem, own := l, m, o;
    }

    /** kalloc() */
    method Kalloc() returns (ok: bool, f: nat)
      requires Inv(S())
      modifies this`free, this`own
      ensures Inv(S()) && SameSpaces(old(S()), S())
      ensures ok <==> old(free) != []
      ensures !ok ==> S() == old(S())
      ensures ok ==> f in old(own) && old(own)[f] == Free && own == old(own)[f := Held]
      ensures ok ==> [f] + free == old(free)
    {
      hide Inv, SameSpace;
      ghost var s := S();
      if free == [] {
        SpacesStay(s, s, 0);
        return false, 0;
      }
      KallocKeeps(s);
      f := free[0];
      free, own := free[1..], own[f := Held];
      assert S() == KallocStep(s);
      SpacesStay(s, S(), f);
      return true, f;
    }

    /** kfree() of a frame that kalloc() returned and nobody uses. */
    method Kfree(f: nat)
      requires Inv(S()) && f in own && own[f] == Held
      modifies this
      ensures Inv(S()) && SameSpaces(old(S()), S()) && own == old(own)[f := Free] && free == [f] + old(free)
    {
      hide Inv, SameSpace;
      ghost var s := S();
      var junk := 1;
      KfreeKeeps(s, f, junk);
      mem, free, own := mem[f := Data(junk)], [f] + free, own[f := Free];
      assert S() == KfreeStep(s, f, junk);
      SpacesStay(s, S(), f);
    }

    /** walkpgdir() with alloc set: after it the table for entry i is there, unless the pool is empty. */
    method Walk(d: nat, i: nat) returns (ok: bool)
      requires Inv(S()) && Live(S(), d) && i < NENTRIES
      modifies this
      ensures Inv(S()) && Live(S(), d) && SameSpaces(old(S()), S())
      ensures ok ==> HasTable(S(), d, i)
      ensures ok <==> Cost(old(S()), d, {i}, 0) <= |old(free)|
      ensures ok ==> Took(old(S()), S(), d, {i}, 0)
      ensures !ok ==> S() == old(S()) && free == []
      ensures own == old(own) || exists f :: f in old(own) && old(own)[f] == Free && own == old(own)[f := TableOf(d, i)]
      ensures forall g :: g in old(own) && old(own)[g] == Held ==> g in mem && g in old(mem) && mem[g] == old(mem)[g]
    {
      hide Inv, SameSpace, Tables, Cost, Took;
      AllInMemory(S());
      TableOfEntry(S(), d, i);
      HadTable(S(), d, i);
      if mem[d].e[i].Present? {
        SpacesStay(S(), S(), d);
        return true;
      }
      ghost var s := S();
      OneTable(s, d, i);
      var f;
      ok, f := Kalloc();
      if !ok {
        return;
      }
      ghost var s1 := S();
      assert Live(s1, d) && DirAt(s1, d) by { TableOfEntry(s1, d, i); }
      assert mem[d] == s.mem[d];
      NewTableKeeps(s1, d, i, f);
      mem := mem[f := ZeroTable()];
      mem := mem[d := SetEntry(mem[d], i, Present(f, PTE_P + PTE_W + PTE_U))];
      own := own[f := TableOf(d, i)];
      assert S() == NewTable(s1, d, i, f);
      assert own == old(own)[f := TableOf(d, i)];
      TookTable(s, S(), d, i, f);
      SpacesTrans(s, s1, S());
      TableOfEntry(S(), d, i);
    }

    /** mappages() of one user page; f was just allocated.  A failure leaves everything as it was. */
    method MapPage(d: nat, vp: nat, f: nat, flags: nat) returns (ok: bool)
      requires Inv(S()) && Live(S(), d) && vp < NUSER * NENTRIES && Lookup(S(), d, Pdx(vp), Ptx(vp)) == Absent
      requires f in own && own[f] == Held && f in mem && mem[f].Data?
      modifies this
      ensures Inv(S()) && Live(S(), d)
      ensures ok <==> Cost(old(S()), d, {Pdx(vp)}, 0) <= |old(free)|
      ensures ok ==> Took(old(S()), S(), d, {Pdx(vp)}, 0)
      ensures !ok ==> S() == old(S())
      ensures
        ok ==> OnlyPage(old(S()), S(), d, Pdx(vp), Ptx(vp)) && Lookup(S(), d, Pdx(vp), Ptx(vp)) == Present(f, flags)
      ensures ok ==> f in mem && mem[f] == old(mem)[f] && Mapped(old(S()), S(), d, Pdx(vp), Ptx(vp), f)
    {
      hide Inv, SamePage, Lookup, SameSpaces, OnlyPage, Tables, Cost, Took, Mapped;
      ghost var s := S();
      VpSplit(vp);
      var i, j := Pdx(vp), Ptx(vp);
      ok := Walk(d, i);
      if !ok {
        return;
      }
      ghost var s1 := S();
      TableThenPage(s, s1, d, i, j, f, flags);
      assert Lookup(s1, d, i, j) == Absent by { SameAt(s, s1, d, i, j); }
      MapUserKeeps(s1, d, i, j, f, flags);
      var t := mem[d].e[i].frame;
      mem := mem[t := SetEntry(mem[t], j, Present(f, flags))];
      own := own[f := PageOf(d, i, j)];
      assert S() == MapUser(s1, d, i, j, f, flags);
      TookEntry(s, s1, S(), d, i, j, Present(f, flags));
      SameThenPage(s, s1, S(), d, i, j);
    }

    /** deallocuvm()'s loop: pages lo to hi lose their frames, each once, also where it jumps to the next table. */
    method DropPages(d: nat, lo: nat, hi: nat)
      requires Inv(S()) && Live(S(), d) && hi <= NUSER * NENTRIES
      modifies this
      ensures
        && Inv(S()) && Live(S(), d) && OnlyRange(old(S()), S(), d, lo, hi) && NoneMapped(S(), d, lo, hi)
        && Returned(old(S()), S(), d, lo, hi)
    {
      hide Inv, SamePage, Lookup, In, OnlyRange, NoneMapped, Returned;
      ghost var s := S();
      var a := lo;
      RangeSelf(s, d, lo, hi);
      while a < hi
        invariant Inv(S()) && Live(S(), d) && lo <= a
        invariant OnlyRange(s, S(), d, lo, hi) && NoneMapped(S(), d, lo, a) && Returned(s, S(), d, lo, a)
        decreases hi - a
      {
        VpSplit(a);
        var i, j := Pdx(a), Ptx(a);
        TableOfEntry(S(), d, i);
        ghost var s1 := S();
        if !mem[d].e[i].Present? {
          a := (i + 1) * NENTRIES;
          JumpOver(s, S(), d, lo, Vp(i, j), a);
        } else {
          var t := mem[d].e[i].frame;
          assert Lookup(s1, d, i, j) == mem[t].e[j] by { LookupAt(s1, d, i, j); }
          if mem[t].e[j].Present? {
            var f, junk := mem[t].e[j].frame, 1;
            FreePageKeeps(s1, d, i, j, junk);
            mem := mem[t := SetEntry(mem[t], j, Absent)];
            mem, free := mem[f := Data(junk)], [f] + free;
            own := own[f := Free];
            assert S() == FreePage(s1, d, i, j, junk);
            RangePage(s, s1, S(), d, lo, a, hi);
            FreedOne(s, s1, S(), d, lo, a, f);
          } else {
            SkippedOne(s, s1, d, lo, a);
          }
          a := a + 1;
        }
      }
      ShrinkRange(s, S(), d, lo, a, hi);
    }

    /**
     allocuvm()'s loop: pages lo to hi get frames of zeroes, all from the pool; or, when the pool runs out, every
     mapping is what it was and the pool has lost at most some page tables.
     */
    method GrowPages(d: nat, lo: nat, hi: nat) returns (ok: bool)
      requires Inv(S()) && Live(S(), d) && lo <= hi <= NUSER * NENTRIES && NoneMapped(S(), d, lo, hi)
      modifies this
      ensures Inv(S()) && Live(S(), d)
      ensures ok ==>
        OnlyRange(old(S()), S(), d, lo, hi) && Zeroed(old(S()), S(), d, lo, hi) && Given(old(S()), S(), d, lo, hi)
      ensures !ok ==> SameSpaces(old(S()), S()) && Given(old(S()), S(), d, lo, lo)
      ensures ok <==> Cost(old(S()), d, TablesFor(lo, hi), hi - lo) <= |old(free)|
      ensures ok ==> Took(old(S()), S(), d, TablesFor(lo, hi), hi - lo)
    {
      hide Inv, SamePage, Lookup, In, Zeroed, OnlyRange, NoneMapped, Returned, SameSpaces, SameBut, Mapped;
      hide OnlyPage, Given, Tables, TablesFor, Cost, Took;
      ghost var s := S();
      var a := lo;
      GrowSelf(s, d, lo, hi);
      TookNothing(s, d);
      TablesForNext(lo, lo);
      while a < hi
        invariant Inv(S()) && Live(S(), d) && lo <= a <= hi
        invariant OnlyRange(s, S(), d, lo, a) && Zeroed(s, S(), d, lo, a) && Given(s, S(), d, lo, a)
        invariant Took(s, S(), d, TablesFor(lo, a), a - lo)
        decreases hi - a
      {
        ghost var s1 := S();
        VpSplit(a);
        assert Lookup(s1, d, Pdx(a), Ptx(a)) == Absent by { StillAbsent(s, s1, d, lo, a, hi); }
        var got, f := Kalloc();
        if !got {
          assert S() == s1;
          NoFrame(s1, d);
          GrowShort(s, s1, d, lo, a, hi, {}, 1);
          DropPages(d, lo, hi);
          Rollback(s, s1, S(), d, lo, a, hi);
          return false;
        }
        ghost var s2 := S();
        mem := mem[f := Data(0)];
        ghost var s3 := S();
        HeldData(s2, s3, f, Data(0));
        SpacesStay(s2, s3, f);
        SpacesTrans(s1, s2, s3);
        SameAt(s1, s3, d, Pdx(a), Ptx(a));
        TookFrame(s1, s3, d, f, Data(0));
        got := MapPage(d, a, f, PTE_P + PTE_W + PTE_U);
        if !got {
          PageShort(s1, s3, d, Pdx(a));
          GrowShort(s, s1, d, lo, a, hi, {Pdx(a)}, 1);
          DropPages(d, lo, hi);
          ghost var s4 := S();
          assert f in own && own[f] == Held by { HeldStays(s3, s4, d, lo, hi, f); }
          Kfree(f);
          RollbackHeld(s, s1, s3, s4, S(), d, lo, a, hi, f);
          return false;
        }
        TookPage(s, s1, s3, S(), d, lo, a);
        Grown(s, s1, s3, S(), d, lo, a, f);
        a := a + 1;
      }
      TookEnough(s, S(), d, TablesFor(lo, hi), hi - lo);
      return true;
    }

    /** deallocuvm() */
    method Deallocuvm(d: nat, oldsz: nat, newsz: nat) returns (r: nat)
      requires Inv(S()) && Live(S(), d) && oldsz <= KERNBASE
      modifies this
      ensures newsz >= oldsz ==> r == oldsz && S() == old(S())
      ensures newsz < oldsz ==> r == newsz && Inv(S()) && Live(S(), d)
      ensures newsz < oldsz ==>
        OnlyRange(old(S()), S(), d, Pages(newsz), Pages(oldsz)) && NoneMapped(S(), d, Pages(newsz), Pages(oldsz))
      ensures newsz < oldsz ==> Returned(old(S()), S(), d, Pages(newsz), Pages(oldsz))
    {
      hide *;
      if newsz >= oldsz {
        return oldsz;
      }
      PagesInRange(newsz, oldsz);
      DropPages(d, Pages(newsz), Pages(oldsz));
      return newsz;
    }

    /** allocuvm(): 0 for a size beyond user space and when memory runs out, with every mapping as it was. */
    method Allocuvm(d: nat, oldsz: nat, newsz: nat) returns (r: nat, ghost ok: bool)
      requires
        Inv(S()) && Live(S(), d) && (oldsz <= newsz < KERNBASE ==> NoneMapped(S(), d, Pages(oldsz), Pages(newsz)))
      modifies this
      ensures newsz >= KERNBASE ==> r == 0 && S() == old(S())
      ensures newsz < oldsz && newsz < KERNBASE ==> r == oldsz && S() == old(S())
      ensures oldsz <= newsz < KERNBASE ==> Inv(S()) && Live(S(), d) && r == if ok then newsz else 0
      ensures oldsz <= newsz < KERNBASE && ok ==> OnlyRange(old(S()), S(), d, Pages(oldsz), Pages(newsz))
      ensures oldsz <= newsz < KERNBASE && ok ==>
        Zeroed(old(S()), S(), d, Pages(oldsz), Pages(newsz)) && Given(old(S()), S(), d, Pages(oldsz), Pages(newsz))
      ensures oldsz <= newsz < KERNBASE && !ok ==>
        SameSpaces(old(S()), S()) && Given(old(S()), S(), d, Pages(oldsz), Pages(oldsz))
      ensures oldsz <= newsz < KERNBASE ==>
        (ok <==> Cost(old(S()), d, TablesFor(Pages(oldsz), Pages(newsz)), Pages(newsz) - Pages(oldsz)) <= |old(free)|)
    {
      hide *;
      ok := false;
      if newsz >= KERNBASE {
        return 0, ok;
      }
      if newsz < oldsz {
        return oldsz, ok;
      }
      PagesInRange(oldsz, newsz);
      var done := GrowPages(d, Pages(oldsz), Pages(newsz));
      return if done then newsz else 0, done;
    }

    /** freevm(): every frame of the address space, and no other, goes back to the pool. */
    method Freevm(d: nat)
      requires Inv(S()) && Live(S(), d)
      modifies this
      ensures Inv(S()) && ReturnedAll(old(S()), S(), d) && SameOthers(old(S()), S(), d)
    {
      hide Inv, SamePage, SameSpace, Lookup, In, OnlyRange, NoneMapped, Returned, ReturnedAll, SameOthers;
      hide Dropped, DropTable;
      ghost var s := S();
      DropPages(d, 0, NUSER * NENTRIES);
      ghost var s1 := S();
      DropStart(s, s1, d);
      for k := 0 to NENTRIES
        invariant Inv(S()) && d in own && own[d] == Dir(k) && Dropped(s1, S(), d, k)
      {
        TableOfEntry(S(), d, k);
        ghost var s2 := S();
        EmptyTable(s1, s2, d, k);
        var junk := 1;
        DropTableKeeps(s2, d, k, junk);
        DroppedOne(s1, s2, d, k, junk);
        if mem[d].e[k].Present? {
          var t := mem[d].e[k].frame;
          free, mem := [t] + free, mem[t := Data(junk)];
          own := own[t := Free];
        }
        own := own[d := Dir(k + 1)];
        assert S() == DropTable(s2, d, k, junk) by { DropTableIs(s2, d, k, junk, S()); }
      }
      ghost var s3 := S();
      var junk := 1;
      DropDirKeeps(s3, d, junk);
      mem, free, own := mem[d := Data(junk)], [d] + free, own[d := Free];
      assert S() == KfreeStep(s3, d, junk);
      FreedAll(s, s1, s3, S(), d);
    }

    /** mappages() of one kernel page; the frame belongs to no address space.  A failure changes nothing. */
    method MapKernelPage(d: nat, vp: nat, f: nat, flags: nat) returns (ok: bool)
      requires Inv(S()) && Live(S(), d) && NUSER * NENTRIES <= vp < NENTRIES * NENTRIES
      requires Lookup(S(), d, Pdx(vp), Ptx(vp)) == Absent
      modifies this
      ensures Inv(S()) && Live(S(), d)
      ensures ok <==> Cost(old(S()), d, {Pdx(vp)}, 0) <= |old(free)|
      ensures ok ==> Took(old(S()), S(), d, {Pdx(vp)}, 0)
      ensures !ok ==> S() == old(S())
      ensures ok ==> OnlyPage(old(S()), S(), d, Pdx(vp), Ptx(vp))
      ensures ok ==> Lookup(S(), d, Pdx(vp), Ptx(vp)) == Present(f, flags) && Given(old(S()), S(), d, 0, 0)
    {
      hide Inv, SamePage, Lookup, SameSpaces, OnlyPage, Given, Tables, Cost, Took;
      ghost var s := S();
      VpSplit(vp);
      var i, j := Pdx(vp), Ptx(vp);
      ok := Walk(d, i);
      if !ok {
        return;
      }
      ghost var s1 := S();
      GivenTable(s, s1, d, i);
      MapKernelKeeps(s1, d, i, j, f, flags);
      var t := mem[d].e[i].frame;
      mem := mem[t := SetEntry(mem[t], j, Present(f, flags))];
      assert S() == MapKernel(s1, d, i, j, f, flags);
      TookEntry(s, s1, S(), d, i, j, Present(f, flags));
      SameThenPage(s, s1, S(), d, i, j);
      GivenSame(s, s1, S(), d);
    }

    /** mappages() of a kernel range; on failure part of it is mapped. */
    method MapRange(d: nat, r: Kmap) returns (ok: bool)
      requires Inv(S()) && Live(S(), d) && NoneMapped(S(), d, r.vp, r.vp + r.n)
      requires NUSER * NENTRIES <= r.vp && r.vp + r.n <= NENTRIES * NENTRIES
      modifies this
      ensures Inv(S()) && Live(S(), d) && OnlyRange(old(S()), S(), d, r.vp, r.vp + r.n) && Given(old(S()), S(), d, 0, 0)
      ensures ok ==> KernelRange(S(), d, r, r.n)
      ensures ok <==> Cost(old(S()), d, TablesFor(r.vp, r.vp + r.n), 0) <= |old(free)|
      ensures ok ==> Took(old(S()), S(), d, TablesFor(r.vp, r.vp + r.n), 0)
    {
      hide Inv, Lookup, OnlyRange, NoneMapped, OnlyPage, KernelRange, Given, Tables, TablesFor, Cost, Took;
      ghost var s := S();
      KernelStart(s, d, r);
      TookNothing(s, d);
      TablesForNext(r.vp, r.vp);
      for k := 0 to r.n
        invariant Inv(S()) && Live(S(), d) && OnlyRange(s, S(), d, r.vp, r.vp + k) && Given(s, S(), d, 0, 0)
        invariant KernelRange(S(), d, r, k) && Took(s, S(), d, TablesFor(r.vp, r.vp + k), 0)
      {
        ghost var s1 := S();
        StillAbsent(s, s1, d, r.vp, r.vp + k, r.vp + r.n);
        ok := MapKernelPage(d, r.vp + k, r.frame + k, r.flags + PTE_P);
        if !ok {
          WidenRange(s, s1, d, r.vp, r.vp + k, r.vp + r.n);
          RangeShort(s, s1, d, r.vp, r.vp + k, r.vp + r.n);
          return;
        }
        TookNextTable(s, s1, S(), d, r.vp, r.vp + k);
        RangeThenPage(s, s1, S(), d, r.vp, r.vp + k, r.vp + k + 1);
        KernelStep(s1, S(), d, r, k);
        GivenTrans(s, s1, S(), d);
      }
      TookEnough(s, S(), d, TablesFor(r.vp, r.vp + r.n), 0);
      return true;
    }

    /** setupkvm(): an address space with the kernel's mappings and nothing else; or none, and the pool as it was. */
    method Setupkvm(kmap: seq<Kmap>) returns (ok: bool, d: nat)
      requires Inv(S()) && KmapOk(kmap)
      modifies this
      ensures Inv(S()) && SameSpaces(old(S()), S())
      ensures ok ==> NewSpace(old(S()), S(), d) && NoneMapped(S(), d, 0, NUSER * NENTRIES)
      ensures ok ==> forall q :: 0 <= q < |kmap| ==> KernelRange(S(), d, kmap[q], kmap[q].n)
      ensures ok ==> Unmapped(S(), d, kmap, |kmap|)
      ensures !ok ==> own == old(own)
      ensures ok <==> 1 + |KernelTables(kmap, |kmap|)| <= |old(free)|
      ensures ok ==> Tables(S(), d) == KernelTables(kmap, |kmap|)
      ensures ok ==> |free| + 1 + |KernelTables(kmap, |kmap|)| == |old(free)|
    {
      hide Inv, SamePage, SameSpace, Lookup, In, OnlyRange, NoneMapped, SameSpaces, KernelRange, Given;
      hide ReturnedAll, SameOthers, Inv, NewSpace, Unmapped;
      hide Tables, TablesFor, KernelTables, Cost, Took;
      ghost var s := S();
      ok, d := Kalloc();
      if !ok {
        return;
      }
      ghost var s1 := S();
      NewDirKeeps(s1, d);
      mem := mem[d := ZeroTable()];
      own := own[d := Dir(0)];
      ghost var s2 := S();
      assert s2 == NewDir(s1, d);
      FreshSpace(s, s1, s2, d, kmap);
      FreshTables(s2, d, kmap);
      for q := 0 to |kmap|
        invariant Inv(S()) && NewSpace(s, S(), d) && SameSpaces(s, S()) && Unmapped(S(), d, kmap, q)
        invariant forall p :: 0 <= p < q ==> KernelRange(S(), d, kmap[p], kmap[p].n)
        invariant Took(s2, S(), d, KernelTables(kmap, q), 0)
      {
        ghost var s3 := S();
        NewIsLive(s, s3, d);
        RangeFree(s3, d, kmap, q);
        ok := MapRange(d, kmap[q]);
        NextRange(s, s3, S(), d, kmap, q);
        if !ok {
          ghost var s4 := S();
          KernelShort(s2, s3, d, kmap, q);
          NewIsLive(s, s4, d);
          Freevm(d);
          PoolRestored(s, s4, S(), d);
          return;
        }
        KernelNext(s2, s3, S(), d, kmap, q);
        forall p | 0 <= p < q
          ensures KernelRange(S(), d, kmap[p], kmap[p].n)
        {
          RangeKept(s3, S(), d, kmap, p, q);
        }
      }
      UserFree(S(), d, kmap);
      TookFresh(s2, S(), d, KernelTables(kmap, |kmap|));
      return true, d;
    }

    /** One iteration of copyuvm(): page a of d appears in c; s is the state before the call, s0 after setupkvm(). */
    method CopyPage(d: nat, c: nat, a: nat, ghost n: nat, ghost s: State, ghost s0: State) returns (ok: bool)
      requires Inv(s) && Live(s, d) && a < n <= NUSER * NENTRIES && AllMapped(s, d, n)
      requires Inv(S()) && NewSpace(s, S(), c) && SameSpaces(s, S()) && Copied(s, S(), d, c, a)
      requires NoneMapped(S(), c, a, NUSER * NENTRIES) && Took(s0, S(), c, TablesFor(0, a), a)
      modifies this
      ensures Inv(S()) && NewSpace(s, S(), c) && SameSpaces(s, S())
      ensures ok ==> Copied(s, S(), d, c, a + 1) && NoneMapped(S(), c, a + 1, NUSER * NENTRIES)
      ensures ok ==> Took(s0, S(), c, TablesFor(0, a + 1), a + 1)
      ensures !ok ==> Cost(s0, c, TablesFor(0, n), n) > |s0.free|
    {
      hide Inv, SamePage, SameSpace, Lookup, In, NoneMapped, SameSpaces, Inv, NewSpace, AllMapped, Copied;
      hide SameBut, Mapped, OnlyPage, Tables, TablesFor, Cost, Took;
      ghost var s1 := S();
      VpSplit(a);
      NewIsLive(s, s1, c);
      ParentPage(s, s1, d, a, n);
      CopyRoom(s1, c, a);
      var i, j := Pdx(a), Ptx(a);
      var pte := mem[mem[d].e[i].frame].e[j];
      var f;
      ok, f := Kalloc();
      if !ok {
        NoFrame(s1, c);
        GrowShort(s0, s1, c, 0, a, n, {}, 1);
        return;
      }
      ghost var s2 := S();
      mem := mem[f := mem[pte.frame]];
      ghost var s3 := S();
      HeldCopy(s2, s3, f, pte.frame);
      SpacesTrans(s1, s2, s3);
      CopyHeld(s, s1, s2, s3, d, c, a, f);
      TookFrame(s1, s3, c, f, mem[f]);
      ok := MapPage(c, a, f, pte.flags);
      if !ok {
        PageShort(s1, s3, c, Pdx(a));
        GrowShort(s0, s1, c, 0, a, n, {Pdx(a)}, 1);
        Kfree(f);
        BackAgain(s, s1, s3, S(), c, f);
        return;
      }
      TookPage(s0, s1, s3, S(), c, 0, a);
      CopyStep(s, s1, s3, S(), d, c, a, f);
    }

    /**
     copyuvm(): the first n pages of d appear in a new address space with the same flags and contents, in
     frames that were free; or, when memory runs out, there is no new space and the pool is as it was.
     */
    method Copyuvm(d: nat, n: nat, kmap: seq<Kmap>) returns (ok: bool, c: nat)
      requires Inv(S()) && Live(S(), d) && KmapOk(kmap) && n <= NUSER * NENTRIES && AllMapped(S(), d, n)
      modifies this
      ensures Inv(S()) && SameSpaces(old(S()), S())
      ensures
        ok ==> NewSpace(old(S()), S(), c) && Copied(old(S()), S(), d, c, n) && NoneMapped(S(), c, n, NUSER * NENTRIES)
      ensures !ok ==> own == old(own)
      ensures ok <==> 1 + n + |KernelTables(kmap, |kmap|) + TablesFor(0, n)| <= |old(free)|
    {
      hide Inv, SamePage, SameSpace, Lookup, In, OnlyRange, NoneMapped, SameSpaces, ReturnedAll, SameOthers;
      hide Inv, NewSpace, AllMapped, Copied, SameBut, Mapped, OnlyPage, Tables, TablesFor, KernelTables, Cost, Took;
      ghost var s := S();
      ghost var kt := KernelTables(kmap, |kmap|);
      Fewer(kt, kt + TablesFor(0, n));
      ok, c := Setupkvm(kmap);
      if !ok {
        return;
      }
      ghost var s0 := S();
      CopyCost(s0, c, kt, TablesFor(0, n), n);
      TookNothing(s0, c);
      TablesForNext(0, 0);
      CopyStart(s, S(), d, c);
      for a := 0 to n
        invariant Inv(S()) && NewSpace(s, S(), c) && SameSpaces(s, S()) && Copied(s, S(), d, c, a)
        invariant NoneMapped(S(), c, a, NUSER * NENTRIES) && Took(s0, S(), c, TablesFor(0, a), a)
      {
        ok := CopyPage(d, c, a, n, s, s0);
        if !ok {
          ghost var s1 := S();
          NewIsLive(s, s1, c);
          Freevm(c);
          PoolRestored(s, s1, S(), c);
          return false, 0;
        }
      }
      TookEnough(s0, S(), c, TablesFor(0, n), n);
      return true, c;
    }
  }

  ghost predicate AllMapped(s: State, d: nat, n: nat) {
    forall i: nat, j: nat :: In(i, j, 0, n) ==> Lookup(s, d, i, j).Present?
  }

  /** (i, j) of c shows what (i, j) of d showed, in another frame that was free. */
  predicate CopyOf(s: State, s': State, d: nat, c: nat, i: nat, j: nat) {
    var p, q := Lookup(s, d, i, j), Lookup(s', c, i, j);
    && p.Present? && q.Present? && q.flags == p.flags && q.frame != p.frame && q.frame in s.own
    && s.own[q.frame] == Free
    && p.frame in s.mem && q.frame in s'.mem && s'.mem[q.frame] == s.mem[p.frame]
  }

  ghost predicate Copied(s: State, s': State, d: nat, c: nat, n: nat) {
    forall i: nat, j: nat :: In(i, j, 0, n) ==> CopyOf(s, s', d, c, i, j)
  }

  lemma CopyStart(s: State, s1: State, d: nat, c: nat)
    ensures Copied(s, s1, d, c, 0)
  {
  }

  /** The parent's page a is still what it was. */
  lemma ParentPage(s: State, s1: State, d: nat, a: nat, n: nat)
    requires Inv(s) && Inv(s1) && Live(s, d) && SameSpaces(s, s1) && AllMapped(s, d, n) && a < n <= NUSER * NENTRIES
    ensures Live(s1, d) && DirAt(s1, d) && Pdx(a) < NENTRIES && Ptx(a) < NENTRIES && s1.mem[d].e[Pdx(a)].Present?
    ensures TableAt(s1, d, Pdx(a), s1.mem[d].e[Pdx(a)].frame)
    ensures var e := s1.mem[s1.mem[d].e[Pdx(a)].frame].e[Ptx(a)];
      && e == Lookup(s1, d, Pdx(a), Ptx(a)) == Lookup(s, d, Pdx(a), Ptx(a)) && e.Present?
      && e.frame in s1.mem && e.frame in s.mem && s1.mem[e.frame] == s.mem[e.frame] && s1.mem[e.frame].Data?
      && e.frame in s1.own && s1.own[e.frame].PageOf?
      && e.frame in s.own && s.own[e.frame].PageOf?
  {
    VpSplit(a);
    var i, j := Pdx(a), Ptx(a);
    assert In(i, j, 0, n);
    assert SameSpace(s, s1, d) && SamePage(s, s1, d, i, j);
    TableOfEntry(s1, d, i);
    PageOfEntry(s1, d, i, j);
    PageOfEntry(s, d, i, j);
  }

  lemma CopyRoom(s1: State, c: nat, a: nat)
    requires a < NUSER * NENTRIES && NoneMapped(s1, c, a, NUSER * NENTRIES)
    ensures Lookup(s1, c, Pdx(a), Ptx(a)) == Absent
  {
    VpSplit(a);
    assert In(Pdx(a), Ptx(a), a, NUSER * NENTRIES);
  }

  lemma HeldCopy(s2: State, s3: State, f: nat, p: nat)
    requires
      && Inv(s2) && f in s2.own && s2.own[f] == Held && p in s2.mem && s2.mem[p].Data?
      && s3 == State(s2.free, s2.mem[f := s2.mem[p]], s2.own)
    ensures Inv(s3) && SameSpaces(s2, s3)
  {
    hide Inv, SameSpaces, SameBut, InUse;
    HeldData(s2, s3, f, s2.mem[p]);
    SpacesStay(s2, s3, f);
  }

  /** The new space waits, page a still unmapped, while f is filled. */
  lemma CopyHeld(s: State, s1: State, s2: State, s3: State, d: nat, c: nat, a: nat, f: nat)
    requires
      && NewSpace(s, s1, c) && SameSpaces(s1, s3) && Lookup(s1, c, Pdx(a), Ptx(a)) == Absent && f in s1.own
      && s1.own[f] == Free && s3.own == s1.own[f := Held]
    ensures Live(s3, c) && Lookup(s3, c, Pdx(a), Ptx(a)) == Absent
  {
    SameAt(s1, s3, c, Pdx(a), Ptx(a));
  }

  lemma BackAgain(s: State, s1: State, s3: State, s5: State, c: nat, f: nat)
    requires NewSpace(s, s1, c) && SameSpaces(s, s1) && SameSpaces(s1, s3) && SameSpaces(s3, s5)
    requires f in s1.own && s1.own[f] == Free && s3.own == s1.own[f := Held] && s5.own == s3.own[f := Free]
    ensures NewSpace(s, s5, c) && SameSpaces(s, s5)
  {
    SpacesTrans(s, s1, s3);
    SpacesTrans(s, s3, s5);
    assert s5.own == s1.own;
  }

  lemma CopyStep(s: State, s1: State, s3: State, s4: State, d: nat, c: nat, a: nat, f: nat)
    requires
      && Inv(s1) && Live(s, d) && NewSpace(s, s1, c) && SameSpaces(s, s1) && Copied(s, s1, d, c, a)
      && NoneMapped(s1, c, a, NUSER * NENTRIES)
    requires
      a < NUSER * NENTRIES && f in s1.own && s1.own[f] == Free && s3.own == s1.own[f := Held] && SameSpaces(s1, s3)
    requires OnlyPage(s3, s4, c, Pdx(a), Ptx(a)) && Mapped(s3, s4, c, Pdx(a), Ptx(a), f) && Live(s4, c)
    requires var p := Lookup(s, d, Pdx(a), Ptx(a));
      && p.Present? && p.frame in s.mem && p.frame in s.own && s.own[p.frame].PageOf?
      && Lookup(s4, c, Pdx(a), Ptx(a)) == Present(f, p.flags) && f in s4.mem && s4.mem[f] == s.mem[p.frame]
    ensures
      && NewSpace(s, s4, c) && SameSpaces(s, s4) && Copied(s, s4, d, c, a + 1)
      && NoneMapped(s4, c, a + 1, NUSER * NENTRIES)
  {
    hide Lookup, SamePage, In, CopyOf;
    SameThenPage(s1, s3, s4, c, Pdx(a), Ptx(a));
    CopyOwners(s, s1, s3, s4, c, a, f);
    PageRange(s1, s4, c, a);
    OthersKept(s, s1, s4, c, a, a + 1);
    CopyPages(s, s1, s4, d, c, a, f);
    RestAbsent(s1, s4, c, a);
  }

  lemma PageRange(s1: State, s4: State, c: nat, a: nat)
    requires OnlyPage(s1, s4, c, Pdx(a), Ptx(a)) && a < NUSER * NENTRIES
    ensures OnlyRange(s1, s4, c, a, a + 1)
  {
    hide SamePage;
    VpSplit(a);
    assert In(Pdx(a), Ptx(a), a, a + 1);
  }

  lemma CopyOwners(s: State, s1: State, s3: State, s4: State, c: nat, a: nat, f: nat)
    requires
      && NewSpace(s, s1, c) && f in s1.own && s1.own[f] == Free && s3.own == s1.own[f := Held]
      && Mapped(s3, s4, c, Pdx(a), Ptx(a), f) && Live(s4, c)
    ensures NewSpace(s, s4, c) && f in s.own && s.own[f] == Free
  {
  }

  lemma CopyPages(s: State, s1: State, s4: State, d: nat, c: nat, a: nat, f: nat)
    requires
      && Inv(s1) && Live(s1, c) && Copied(s, s1, d, c, a) && a < NUSER * NENTRIES && OnlyPage(s1, s4, c, Pdx(a), Ptx(a))
      && f in s.own && s.own[f] == Free
    requires var p := Lookup(s, d, Pdx(a), Ptx(a));
      && p.Present? && p.frame in s.mem && p.frame in s.own && s.own[p.frame].PageOf?
      && Lookup(s4, c, Pdx(a), Ptx(a)) == Present(f, p.flags) && f in s4.mem && s4.mem[f] == s.mem[p.frame]
    ensures Copied(s, s4, d, c, a + 1)
  {
    hide Lookup;
    forall i: nat, j: nat | In(i, j, 0, a + 1)
      ensures CopyOf(s, s4, d, c, i, j)
    {
      VpSplit(a);
      if In(i, j, 0, a) {
        assert CopyOf(s, s1, d, c, i, j) && i < NUSER && (c, i, j) != (c, Pdx(a), Ptx(a));
        assert SamePage(s1, s4, c, i, j);
      } else {
        VpOne(i, j, a);
      }
    }
  }

  lemma RestAbsent(s1: State, s4: State, c: nat, a: nat)
    requires
      && Live(s1, c) && NoneMapped(s1, c, a, NUSER * NENTRIES) && a < NUSER * NENTRIES
      && OnlyPage(s1, s4, c, Pdx(a), Ptx(a))
    ensures NoneMapped(s4, c, a + 1, NUSER * NENTRIES)
  {
    hide Lookup;
    VpSplit(a);
    forall i: nat, j: nat | In(i, j, a + 1, NUSER * NENTRIES)
      ensures Lookup(s4, c, i, j) == Absent
    {
      assert In(i, j, a, NUSER * NENTRIES) && (c, i, j) != (c, Pdx(a), Ptx(a));
      assert SamePage(s1, s4, c, i, j);
    }
  }

  /** A line of the kernel's map: n pages from vp on at consecutive frames. */
  datatype Kmap = Kmap(vp: nat, n: nat, frame: nat, flags: nat)

  /** The lines lie in kernel space and do not overlap. */
  predicate KmapOk(kmap: seq<Kmap>) {
    && (forall q :: 0 <= q < |kmap| ==> NUSER * NENTRIES <= kmap[q].vp && kmap[q].vp + kmap[q].n <= NENTRIES * NENTRIES)
    && (forall p, q :: 0 <= p < |kmap| && 0 <= q < |kmap| && p != q ==>
          kmap[p].vp + kmap[p].n <= kmap[q].vp || kmap[q].vp + kmap[q].n <= kmap[p].vp)
  }

  /** The first k pages of the line are mapped. */
  ghost predicate KernelRange(s: State, d: nat, r: Kmap, k: nat) {
    forall m: nat :: m < k ==> KernelPage(s, d, r, m)
  }

  predicate KernelPage(s: State, d: nat, r: Kmap, m: nat) {
    Lookup(s, d, Pdx(r.vp + m), Ptx(r.vp + m)) == Present(r.frame + m, r.flags + PTE_P)
  }

  lemma KernelStart(s: State, d: nat, r: Kmap)
    requires Inv(s)
    ensures OnlyRange(s, s, d, r.vp, r.vp) && Given(s, s, d, 0, 0) && KernelRange(s, d, r, 0)
  {
    RangeSelf(s, d, r.vp, r.vp);
  }

  lemma GivenTable(s: State, s1: State, d: nat, i: nat)
    requires s1.own == s.own || exists f :: f in s.own && s.own[f] == Free && s1.own == s.own[f := TableOf(d, i)]
    ensures Given(s, s1, d, 0, 0)
  {
  }

  lemma GivenTrans(s: State, s1: State, s2: State, d: nat)
    requires Given(s, s1, d, 0, 0) && Given(s1, s2, d, 0, 0)
    ensures Given(s, s2, d, 0, 0)
  {
  }

  lemma GivenSame(s: State, s1: State, s2: State, d: nat)
    requires Given(s, s1, d, 0, 0) && s2.own == s1.own
    ensures Given(s, s2, d, 0, 0)
  {
  }

  lemma WidenRange(s: State, s1: State, d: nat, lo: nat, m: nat, hi: nat)
    requires OnlyRange(s, s1, d, lo, m) && m <= hi
    ensures OnlyRange(s, s1, d, lo, hi)
  {
    hide SamePage;
    assert forall a: nat, b: nat :: In(a, b, lo, m) ==> In(a, b, lo, hi);
  }

  lemma KernelStep(s1: State, s2: State, d: nat, r: Kmap, k: nat)
    requires KernelRange(s1, d, r, k) && Live(s1, d) && k < r.n && r.vp + r.n <= NENTRIES * NENTRIES
    requires OnlyPage(s1, s2, d, Pdx(r.vp + k), Ptx(r.vp + k))
    requires Lookup(s2, d, Pdx(r.vp + k), Ptx(r.vp + k)) == Present(r.frame + k, r.flags + PTE_P)
    ensures KernelRange(s2, d, r, k + 1)
  {
    hide Lookup;
    forall m: nat | m < k + 1
      ensures KernelPage(s2, d, r, m)
    {
      if m < k {
        assert KernelPage(s1, d, r, m);
        VpSplit(r.vp + m);
        VpSplit(r.vp + k);
        assert SamePage(s1, s2, d, Pdx(r.vp + m), Ptx(r.vp + m));
      }
    }
  }

  /** d is an address space made of frames that were free. */
  ghost predicate NewSpace(s: State, s': State, d: nat) {
    && d in s.own && s.own[d] == Free && Live(s', d)
    && forall f ::
         && (f in s.own <==> f in s'.own)
         && (f in s.own && f != d ==> s'.own[f] == s.own[f] || (s.own[f] == Free && BelongsTo(s'.own[f], f, d)))
  }

  /** Nothing is mapped outside the lines below q. */
  ghost predicate Unmapped(s: State, d: nat, kmap: seq<Kmap>, q: nat)
    requires q <= |kmap|
  {
    forall i: nat, j: nat :: Lookup(s, d, i, j).Present? ==>
      exists p :: 0 <= p < q && In(i, j, kmap[p].vp, kmap[p].vp + kmap[p].n)
  }

  lemma FreshSpace(s: State, s1: State, s2: State, d: nat, kmap: seq<Kmap>)
    requires
      && Inv(s) && Inv(s1) && d in s.own && s.own[d] == Free && s1.own == s.own[d := Held] && SameSpaces(s, s1)
      && s2 == NewDir(s1, d)
    requires Inv(s2) && Live(s2, d) && forall i: nat, j: nat :: Lookup(s2, d, i, j) == Absent
    ensures NewSpace(s, s2, d) && SameSpaces(s, s2) && Unmapped(s2, d, kmap, 0)
  {
    SpacesStay(s1, s2, d);
    SpacesTrans(s, s1, s2);
  }

  lemma NewIsLive(s: State, s': State, d: nat)
    requires NewSpace(s, s', d)
    ensures Live(s', d)
  {
  }

  lemma RangeFree(s: State, d: nat, kmap: seq<Kmap>, q: nat)
    requires KmapOk(kmap) && q < |kmap| && Unmapped(s, d, kmap, q)
    ensures NoneMapped(s, d, kmap[q].vp, kmap[q].vp + kmap[q].n)
  {
    hide Lookup;
  }

  lemma NextRange(s: State, s3: State, s4: State, d: nat, kmap: seq<Kmap>, q: nat)
    requires
      NewSpace(s, s3, d) && SameSpaces(s, s3) && KmapOk(kmap) && q < |kmap| && Unmapped(s3, d, kmap, q) && Live(s4, d)
    requires OnlyRange(s3, s4, d, kmap[q].vp, kmap[q].vp + kmap[q].n) && Given(s3, s4, d, 0, 0)
    ensures NewSpace(s, s4, d) && SameSpaces(s, s4) && Unmapped(s4, d, kmap, q + 1)
  {
    hide Lookup;
    forall i: nat, j: nat | Lookup(s4, d, i, j).Present?
      ensures exists p :: 0 <= p < q + 1 && In(i, j, kmap[p].vp, kmap[p].vp + kmap[p].n)
    {
      if !In(i, j, kmap[q].vp, kmap[q].vp + kmap[q].n) { assert SamePage(s3, s4, d, i, j); }
    }
    OthersKept(s, s3, s4, d, kmap[q].vp, kmap[q].vp + kmap[q].n);
  }

  /** What happens inside a new address space does not show in the old ones. */
  lemma OthersKept(s: State, s3: State, s4: State, d: nat, lo: nat, hi: nat)
    requires NewSpace(s, s3, d) && SameSpaces(s, s3) && OnlyRange(s3, s4, d, lo, hi)
    ensures SameSpaces(s, s4)
  {
    hide SamePage, In;
    forall e: nat | Live(s, e)
      ensures SameSpace(s, s4, e)
    {
      assert SameSpace(s, s3, e) && Live(s3, e) && e != d;
      forall i: nat, j: nat
        ensures SamePage(s, s4, e, i, j)
      {
        SameTrans(s, s3, s4, e, i, j);
      }
    }
  }

  lemma RangeKept(s3: State, s4: State, d: nat, kmap: seq<Kmap>, p: nat, q: nat)
    requires KmapOk(kmap) && p < q < |kmap| && Live(s3, d) && KernelRange(s3, d, kmap[p], kmap[p].n)
    requires OnlyRange(s3, s4, d, kmap[q].vp, kmap[q].vp + kmap[q].n)
    ensures KernelRange(s4, d, kmap[p], kmap[p].n)
  {
    hide Lookup;
    forall m: nat | m < kmap[p].n
      ensures KernelPage(s4, d, kmap[p], m)
    {
      assert KernelPage(s3, d, kmap[p], m);
      VpSplit(kmap[p].vp + m);
      assert SamePage(s3, s4, d, Pdx(kmap[p].vp + m), Ptx(kmap[p].vp + m));
    }
  }

  lemma UserFree(s: State, d: nat, kmap: seq<Kmap>)
    requires KmapOk(kmap) && Unmapped(s, d, kmap, |kmap|)
    ensures NoneMapped(s, d, 0, NUSER * NENTRIES)
  {
    hide Lookup;
  }

  /** Freeing a new address space gives the pool back exactly what was taken. */
  lemma PoolRestored(s: State, s4: State, s5: State, d: nat)
    requires Inv(s) && NewSpace(s, s4, d) && SameSpaces(s, s4) && ReturnedAll(s4, s5, d) && SameOthers(s4, s5, d)
    ensures s5.own == s.own && SameSpaces(s, s5)
  {
    hide SamePage, Lookup;
    forall f | f in s.own
      ensures s5.own[f] == s.own[f]
    {
      assert FrameOk(s, f);
    }
    forall e: nat | Live(s, e)
      ensures SameSpace(s, s5, e)
    {
      assert SameSpace(s, s4, e) && Live(s4, e) && e != d && SameSpace(s4, s5, e);
      forall i: nat, j: nat
        ensures SamePage(s, s5, e, i, j)
      {
        SameTrans(s, s4, s5, e, i, j);
      }
    }
  }

  /** Address spaces other than d are as before. */
  ghost predicate SameOthers(s: State, s': State, d: nat) {
    forall e: nat :: Live(s, e) && e != d ==> SameSpace(s, s', e)
  }

  /** freevm()'s loop has freed the tables below k; the rest of the directory is still to be read. */
  ghost predicate Dropped(s: State, s': State, d: nat, k: nat) {
    && NoneMapped(s, d, 0, NUSER * NENTRIES) && Inv(s) && d in s.own && s.own[d] == Dir(0)
    && (forall f :: f in s.own <==> f in s'.own)
    && (forall f :: f in s.own && f != d ==>
          s'.own[f] == if s.own[f].TableOf? && s.own[f].d == d && s.own[f].i < k then Free else s.own[f])
    && (forall i: nat, j: nat :: k <= i ==> Lookup(s', d, i, j) == Lookup(s, d, i, j))
    && SameOthers(s, s', d)
  }

  lemma DropStart(s: State, s1: State, d: nat)
    requires Inv(s1) && Live(s, d) && Live(s1, d) && NoneMapped(s1, d, 0, NUSER * NENTRIES)
    ensures Dropped(s1, s1, d, 0)
  {
    forall e: nat | Live(s1, e)
      ensures SameSpace(s1, s1, e)
    {
      SameSelf(s1, e);
    }
  }

  lemma EmptyTable(s1: State, s2: State, d: nat, k: nat)
    requires Dropped(s1, s2, d, k) && k < NENTRIES
    ensures k < NUSER ==> NoPages(s2, d, k)
  {
    if k < NUSER {
      forall j: nat | j < NENTRIES
        ensures Lookup(s2, d, k, j) == Absent
      {
        assert In(k, j, 0, NUSER * NENTRIES) by { assert Vp(k, j) < NUSER * NENTRIES; }
        assert Lookup(s1, d, k, j) == Absent;
      }
    }
  }

  lemma DropTableIs(s: State, d: nat, k: nat, junk: int, s': State)
    requires DirAt(s, d) && k < NENTRIES
    requires if s.mem[d].e[k].Present? then
        var t := s.mem[d].e[k].frame;
        s' == State([t] + s.free, s.mem[t := Data(junk)], s.own[t := Free][d := Dir(k + 1)])
      else s' == State(s.free, s.mem, s.own[d := Dir(k + 1)])
    ensures s' == DropTable(s, d, k, junk)
  {
  }

  lemma DroppedOne(s1: State, s2: State, d: nat, k: nat, junk: int)
    requires
      && Inv(s2) && DirAt(s2, d) && s2.own[d] == Dir(k) && k < NENTRIES && Dropped(s1, s2, d, k)
      && (k < NUSER ==> NoPages(s2, d, k))
    ensures Dropped(s1, DropTable(s2, d, k, junk), d, k + 1)
  {
    hide DropTable, Lookup, SameOthers, SameSpace, NoneMapped, Inv;
    var s3 := DropTable(s2, d, k, junk);
    TableOfEntry(s2, d, k);
    DropTableKeeps(s2, d, k, junk);
    forall f | f in s1.own && f != d
      ensures s3.own[f] == if s1.own[f].TableOf? && s1.own[f].d == d && s1.own[f].i < k + 1 then Free else s1.own[f]
    {
      if s2.own[f] == TableOf(d, k) { TableIs(s2, d, k, f); }
    }
    OthersTrans(s1, s2, s3, d);
  }

  lemma OthersTrans(s1: State, s2: State, s3: State, d: nat)
    requires SameOthers(s1, s2, d) && forall e: nat :: Live(s2, e) && e != d ==> SameSpace(s2, s3, e)
    ensures SameOthers(s1, s3, d)
  {
    hide SamePage;
    forall e: nat | Live(s1, e) && e != d
      ensures SameSpace(s1, s3, e)
    {
      assert SameSpace(s1, s2, e) && Live(s2, e) && SameSpace(s2, s3, e);
      forall i: nat, j: nat
        ensures SamePage(s1, s3, e, i, j)
      {
        SameTrans(s1, s2, s3, e, i, j);
      }
    }
  }

  lemma TableIs(s: State, d: nat, k: nat, f: nat)
    requires Inv(s) && f in s.own && s.own[f] == TableOf(d, k)
    ensures DirAt(s, d) && k < NENTRIES && s.mem[d].e[k].Present? && s.mem[d].e[k].frame == f
  {
    assert FrameOk(s, f);
  }

  lemma FreedAll(s: State, s1: State, s3: State, s4: State, d: nat)
    requires Inv(s) && Live(s, d) && OnlyRange(s, s1, d, 0, NUSER * NENTRIES) && Returned(s, s1, d, 0, NUSER * NENTRIES)
    requires
      && Dropped(s1, s3, d, NENTRIES) && s4.own == s3.own[d := Free] && d in s3.own && SameSpaces(s3, s4)
      && s3.own[d] == Dir(NENTRIES)
    ensures ReturnedAll(s, s4, d) && SameOthers(s, s4, d)
  {
    hide SamePage, Lookup;
    forall f | f in s.own
      ensures s4.own[f] == if BelongsTo(s.own[f], f, d) then Free else s.own[f]
    {
      OwnedInRange(s, d, f);
    }
    forall e: nat | Live(s, e) && e != d
      ensures SameSpace(s, s4, e)
    {
      assert Live(s1, e) && SameSpace(s1, s3, e) && Live(s3, e) && SameSpace(s3, s4, e);
      forall i: nat, j: nat
        ensures SamePage(s, s4, e, i, j)
      {
        SameTrans(s, s1, s3, e, i, j);
        SameTrans(s, s3, s4, e, i, j);
      }
    }
  }

  lemma OwnedInRange(s: State, d: nat, f: nat)
    requires Inv(s) && f in s.own
    ensures s.own[f].PageOf? ==> In(s.own[f].i, s.own[f].j, 0, NUSER * NENTRIES)
    ensures s.own[f].TableOf? ==> s.own[f].i < NENTRIES
  {
    assert FrameOk(s, f);
  }

  const PGSIZE: nat := 4096
  const KERNBASE: nat := 0x8000_0000

  /** PGROUNDUP, in pages. */
  function Pages(sz: nat): nat { (sz + PGSIZE - 1) / PGSIZE }

  lemma PagesInRange(a: nat, b: nat)
    requires a <= b <= KERNBASE
    ensures Pages(a) <= Pages(b) <= NUSER * NENTRIES
  {
  }

  /** The page at (i, j) shows a frame of zeroes that was free before. */
  predicate ZeroPage(s: State, s': State, d: nat, i: nat, j: nat) {
    var e := Lookup(s', d, i, j);
    && e.Present? && e.flags == PTE_P + PTE_W + PTE_U && e.frame in s.own && s.own[e.frame] == Free && e.frame in s'.mem
    && s'.mem[e.frame] == Data(0)
  }

  ghost predicate Zeroed(s: State, s': State, d: nat, lo: nat, hi: nat) {
    forall i: nat, j: nat :: In(i, j, lo, hi) ==> ZeroPage(s, s', d, i, j)
  }

  lemma GrowSelf(s: State, d: nat, lo: nat, hi: nat)
    requires Inv(s)
    ensures OnlyRange(s, s, d, lo, lo) && Zeroed(s, s, d, lo, lo) && Given(s, s, d, lo, lo)
  {
    RangeSelf(s, d, lo, lo);
  }

  lemma StillAbsent(s: State, s1: State, d: nat, lo: nat, a: nat, hi: nat)
    requires Live(s, d) && OnlyRange(s, s1, d, lo, a) && NoneMapped(s, d, lo, hi) && lo <= a < hi <= NENTRIES * NENTRIES
    ensures Lookup(s1, d, Pdx(a), Ptx(a)) == Absent
  {
    VpSplit(a);
    assert !In(Pdx(a), Ptx(a), lo, a) && In(Pdx(a), Ptx(a), lo, hi);
    assert SamePage(s, s1, d, Pdx(a), Ptx(a));
  }

  lemma HeldData(s: State, s': State, f: nat, x: Frame)
    requires Inv(s) && f in s.own && s.own[f] == Held && x.Data? && s' == State(s.free, s.mem[f := x], s.own)
    ensures Inv(s') && SameBut(s, s', f) && !InUse(s, f)
  {
    forall g | g in s'.own
      ensures FrameOk(s', g)
    {
      if g != f { Unchanged(s, s', g, f); }
    }
  }

  lemma HeldStays(s: State, s': State, d: nat, lo: nat, hi: nat, f: nat)
    requires Returned(s, s', d, lo, hi) && f in s.own && s.own[f] == Held
    ensures f in s'.own && s'.own[f] == Held
  {
  }

  /** After one more page is mapped the loop's description holds one page further. */
  lemma Grown(s: State, s1: State, s3: State, s4: State, d: nat, lo: nat, a: nat, f: nat)
    requires Inv(s1) && Live(s, d) && Live(s1, d) && lo <= a < NUSER * NENTRIES
    requires OnlyRange(s, s1, d, lo, a) && Zeroed(s, s1, d, lo, a) && Given(s, s1, d, lo, a)
    requires f in s1.own && s1.own[f] == Free && s3.own == s1.own[f := Held] && SameSpaces(s1, s3)
    requires
      && OnlyPage(s3, s4, d, Pdx(a), Ptx(a)) && Lookup(s4, d, Pdx(a), Ptx(a)) == Present(f, PTE_P + PTE_W + PTE_U)
      && f in s4.mem && s4.mem[f] == Data(0)
    requires Mapped(s3, s4, d, Pdx(a), Ptx(a), f)
    ensures OnlyRange(s, s4, d, lo, a + 1) && Zeroed(s, s4, d, lo, a + 1) && Given(s, s4, d, lo, a + 1)
  {
    SameThenPage(s1, s3, s4, d, Pdx(a), Ptx(a));
    RangeThenPage(s, s1, s4, d, lo, a, a + 1);
    GrownZeroed(s, s1, s4, d, lo, a, f);
    GrownGiven(s, s1, s3, s4, d, lo, a, f);
  }

  lemma GrownZeroed(s: State, s1: State, s4: State, d: nat, lo: nat, a: nat, f: nat)
    requires
      && Inv(s1) && Live(s1, d) && lo <= a < NUSER * NENTRIES && Zeroed(s, s1, d, lo, a)
      && OnlyPage(s1, s4, d, Pdx(a), Ptx(a))
    requires
      && Lookup(s4, d, Pdx(a), Ptx(a)) == Present(f, PTE_P + PTE_W + PTE_U) && f in s4.mem && s4.mem[f] == Data(0)
      && f in s.own && s.own[f] == Free
    ensures Zeroed(s, s4, d, lo, a + 1)
  {
    hide Lookup;
    forall i: nat, j: nat | In(i, j, lo, a + 1)
      ensures ZeroPage(s, s4, d, i, j)
    {
      if In(i, j, lo, a) {
        VpSplit(a);
        assert ZeroPage(s, s1, d, i, j);
        assert (d, i, j) != (d, Pdx(a), Ptx(a)) && i < NUSER;
        assert SamePage(s1, s4, d, i, j);
      } else {
        VpOne(i, j, a);
      }
    }
  }

  lemma GrownGiven(s: State, s1: State, s3: State, s4: State, d: nat, lo: nat, a: nat, f: nat)
    requires
      && lo <= a < NUSER * NENTRIES && Given(s, s1, d, lo, a) && f in s1.own && s1.own[f] == Free
      && s3.own == s1.own[f := Held]
    requires Mapped(s3, s4, d, Pdx(a), Ptx(a), f)
    ensures Given(s, s4, d, lo, a + 1) && f in s.own && s.own[f] == Free
  {
    VpSplit(a);
    assert In(Pdx(a), Ptx(a), lo, a + 1);
    assert forall i: nat, j: nat :: In(i, j, lo, a) ==> In(i, j, lo, a + 1);
  }

  /** Freeing lo to hi after a failure undoes the pages, and leaves the tables. */
  lemma Rollback(s: State, s1: State, s2: State, d: nat, lo: nat, a: nat, hi: nat)
    requires Inv(s) && Live(s, d) && NoneMapped(s, d, lo, hi) && lo <= a <= hi
    requires OnlyRange(s, s1, d, lo, a) && Given(s, s1, d, lo, a)
    requires OnlyRange(s1, s2, d, lo, hi) && NoneMapped(s2, d, lo, hi) && Returned(s1, s2, d, lo, hi)
    ensures SameSpaces(s, s2) && Given(s, s2, d, lo, lo)
  {
    RangeThenRange(s, s1, s2, d, lo, a, hi);
    RestoredSpaces(s, s2, d, lo, hi);
    RestoredOwners(s, s1, s2, d, lo, a, hi);
  }

  lemma RestoredSpaces(s: State, s2: State, d: nat, lo: nat, hi: nat)
    requires
      Inv(s) && Live(s, d) && NoneMapped(s, d, lo, hi) && OnlyRange(s, s2, d, lo, hi) && NoneMapped(s2, d, lo, hi)
    ensures SameSpaces(s, s2)
  {
    hide Lookup;
    forall e: nat | Live(s, e)
      ensures SameSpace(s, s2, e)
    {
      forall i: nat, j: nat
        ensures SamePage(s, s2, e, i, j)
      {
        if e == d && In(i, j, lo, hi) { assert Lookup(s, d, i, j) == Lookup(s2, d, i, j) == Absent; }
      }
    }
  }

  lemma RestoredOwners(s: State, s1: State, s2: State, d: nat, lo: nat, a: nat, hi: nat)
    requires Inv(s) && NoneMapped(s, d, lo, hi) && a <= hi && Given(s, s1, d, lo, a) && Returned(s1, s2, d, lo, hi)
    ensures Given(s, s2, d, lo, lo)
  {
    forall f | f in s.own
      ensures s2.own[f] == s.own[f] || (s.own[f] == Free && GivenTo(s2.own[f], d, lo, lo))
    {
      assert FrameOk(s, f);
      if s.own[f].PageOf? { assert !InPages(s.own[f], d, lo, hi); }
    }
  }

  lemma RollbackHeld(s: State, s1: State, s3: State, s4: State, s5: State, d: nat, lo: nat, a: nat, hi: nat, f: nat)
    requires Inv(s) && Live(s, d) && NoneMapped(s, d, lo, hi) && lo <= a <= hi
    requires OnlyRange(s, s1, d, lo, a) && Given(s, s1, d, lo, a)
    requires f in s1.own && s1.own[f] == Free && s3.own == s1.own[f := Held] && SameSpaces(s1, s3)
    requires OnlyRange(s3, s4, d, lo, hi) && NoneMapped(s4, d, lo, hi) && Returned(s3, s4, d, lo, hi)
    requires f in s4.own && s5.own == s4.own[f := Free] && SameSpaces(s4, s5)
    ensures SameSpaces(s, s5) && Given(s, s5, d, lo, lo)
  {
    RangeThenSame(s, s1, s3, d, lo, a);
    RangeThenRange(s, s3, s4, d, lo, a, hi);
    RestoredSpaces(s, s4, d, lo, hi);
    SpacesTrans(s, s4, s5);
    var back := State(s5.free, s5.mem, s5.own);
    assert Returned(s1, back, d, lo, hi) by { HeldReturned(s1, s3, s4, s5, d, lo, hi, f); }
    RestoredOwners(s, s1, back, d, lo, a, hi);
  }

  lemma HeldReturned(s1: State, s3: State, s4: State, s5: State, d: nat, lo: nat, hi: nat, f: nat)
    requires
      && f in s1.own && s1.own[f] == Free && s3.own == s1.own[f := Held] && Returned(s3, s4, d, lo, hi) && f in s4.own
      && s5.own == s4.own[f := Free]
    ensures Returned(s1, s5, d, lo, hi)
  {
  }

  lemma TableThenPage(s: State, s1: State, d: nat, i: nat, j: nat, f: nat, flags: nat)
    requires f in s.own && s.own[f] == Held && HasTable(s1, d, i) && j < NENTRIES
    requires s1.own == s.own || exists g :: g in s.own && s.own[g] == Free && s1.own == s.own[g := TableOf(d, i)]
    ensures f in s1.own && s1.own[f] == Held && Mapped(s, MapUser(s1, d, i, j, f, flags), d, i, j, f)
  {
  }

  /** One page has been mapped: f to it, possibly a pool frame to its table. */
  ghost predicate Mapped(s: State, s': State, d: nat, i: nat, j: nat, f: nat) {
    && (forall g :: g in s.own <==> g in s'.own)
    && f in s'.own && s'.own[f] == PageOf(d, i, j)
    && (forall g :: g in s.own && g != f ==> s'.own[g] == s.own[g] || (s.own[g] == Free && s'.own[g] == TableOf(d, i)))
  }

  lemma LookupAt(s: State, d: nat, i: nat, j: nat)
    requires
      DirAt(s, d) && i < NENTRIES && j < NENTRIES && s.mem[d].e[i].Present? && TableAt(s, d, i, s.mem[d].e[i].frame)
    ensures Lookup(s, d, i, j) == s.mem[s.mem[d].e[i].frame].e[j]
  {
  }

  lemma SameAt(s: State, s': State, d: nat, i: nat, j: nat)
    requires SameSpaces(s, s') && Live(s, d)
    ensures Lookup(s', d, i, j) == Lookup(s, d, i, j)
  {
    assert SameSpace(s, s', d) && SamePage(s, s', d, i, j);
  }

  lemma SameThenPage(s: State, s1: State, s2: State, d: nat, i: nat, j: nat)
    requires SameSpaces(s, s1) && OnlyPage(s1, s2, d, i, j)
    ensures OnlyPage(s, s2, d, i, j)
  {
    hide SamePage;
    forall e: nat | Live(s, e)
      ensures
        Live(s2, e) && DirAt(s2, e) && forall a: nat, b: nat :: (e, a, b) != (d, i, j) ==> SamePage(s, s2, e, a, b)
    {
      assert SameSpace(s, s1, e) && Live(s1, e);
      forall a: nat, b: nat | (e, a, b) != (d, i, j)
        ensures SamePage(s, s2, e, a, b)
      {
        SameTrans(s, s1, s2, e, a, b);
      }
    }
  }

  lemma RangeSelf(s: State, d: nat, lo: nat, hi: nat)
    requires Inv(s)
    ensures OnlyRange(s, s, d, lo, hi) && NoneMapped(s, d, lo, lo) && Returned(s, s, d, lo, lo)
  {
    forall e: nat | Live(s, e)
      ensures SameSpace(s, s, e)
    {
      SameSelf(s, e);
    }
  }

  lemma RangePage(s: State, s1: State, s2: State, d: nat, lo: nat, m: nat, hi: nat)
    requires
      OnlyRange(s, s1, d, lo, hi) && lo <= m < hi && m < NENTRIES * NENTRIES && OnlyPage(s1, s2, d, Pdx(m), Ptx(m))
    ensures OnlyRange(s, s2, d, lo, hi)
  {
    hide SamePage;
    VpSplit(m);
    forall e: nat | Live(s, e)
      ensures
        && Live(s2, e) && DirAt(s2, e)
        && forall a: nat, b: nat :: !(e == d && In(a, b, lo, hi)) ==> SamePage(s, s2, e, a, b)
    {
      assert Live(s1, e);
      forall a: nat, b: nat | !(e == d && In(a, b, lo, hi))
        ensures SamePage(s, s2, e, a, b)
      {
        assert (e, a, b) != (d, Pdx(m), Ptx(m));
        SameTrans(s, s1, s2, e, a, b);
      }
    }
  }

  /** The page at vp is gone, and with it one more frame is returned. */
  lemma FreedOne(s: State, s1: State, s2: State, d: nat, lo: nat, vp: nat, f: nat)
    requires
      vp < NENTRIES * NENTRIES && lo <= vp && Returned(s, s1, d, lo, vp) && NoneMapped(s1, d, lo, vp) && Live(s1, d)
    requires f in s1.own && s1.own[f] == PageOf(d, Pdx(vp), Ptx(vp)) && s2.own == s1.own[f := Free]
    requires Lookup(s2, d, Pdx(vp), Ptx(vp)) == Absent && OnlyPage(s1, s2, d, Pdx(vp), Ptx(vp)) && Inv(s1) && Inv(s2)
    ensures Returned(s, s2, d, lo, vp + 1) && NoneMapped(s2, d, lo, vp + 1)
  {
    VpSplit(vp);
    forall i: nat, j: nat | In(i, j, lo, vp + 1)
      ensures Lookup(s2, d, i, j) == Absent
    {
      if In(i, j, lo, vp) { assert SamePage(s1, s2, d, i, j); } else { VpOne(i, j, vp); }
    }
    OnePage(s1, d, vp, f);
    forall g | g in s.own
      ensures s2.own[g] == if InPages(s.own[g], d, lo, vp + 1) then Free else s.own[g]
    {
      if InPages(s.own[g], d, lo, vp + 1) && !InPages(s.own[g], d, lo, vp) {
        VpOne(s.own[g].i, s.own[g].j, vp);
        assert s1.own[g] == PageOf(d, Pdx(vp), Ptx(vp));
      }
    }
  }

  /** A page has one frame. */
  lemma OnePage(s: State, d: nat, vp: nat, f: nat)
    requires Inv(s) && f in s.own && s.own[f] == PageOf(d, Pdx(vp), Ptx(vp))
    ensures forall g :: g in s.own && s.own[g] == s.own[f] ==> g == f
  {
    assert FrameOk(s, f);
    forall g | g in s.own && s.own[g] == s.own[f]
      ensures g == f
    {
      assert FrameOk(s, g);
    }
  }

  lemma SkippedOne(s: State, s1: State, d: nat, lo: nat, vp: nat)
    requires
      Inv(s1) && Live(s1, d) && vp < NENTRIES * NENTRIES && Returned(s, s1, d, lo, vp) && NoneMapped(s1, d, lo, vp)
    requires Lookup(s1, d, Pdx(vp), Ptx(vp)) == Absent && lo <= vp
    ensures Returned(s, s1, d, lo, vp + 1) && NoneMapped(s1, d, lo, vp + 1)
  {
    NextAbsent(s1, d, lo, vp);
    AbsentReturned(s, s1, d, lo, vp, vp + 1);
  }

  lemma NextAbsent(s: State, d: nat, lo: nat, vp: nat)
    requires vp < NENTRIES * NENTRIES && NoneMapped(s, d, lo, vp) && Lookup(s, d, Pdx(vp), Ptx(vp)) == Absent
    ensures NoneMapped(s, d, lo, vp + 1)
  {
    forall i: nat, j: nat | In(i, j, lo, vp + 1)
      ensures Lookup(s, d, i, j) == Absent
    {
      if !In(i, j, lo, vp) { VpOne(i, j, vp); }
    }
  }

  /** Where nothing is mapped there is nothing more to return. */
  lemma AbsentReturned(s: State, s1: State, d: nat, lo: nat, m: nat, hi: nat)
    requires Inv(s1) && Returned(s, s1, d, lo, m) && NoneMapped(s1, d, lo, hi) && m <= hi
    ensures Returned(s, s1, d, lo, hi)
  {
    forall g | g in s.own
      ensures s1.own[g] == if InPages(s.own[g], d, lo, hi) then Free else s.own[g]
    {
      assert FrameOk(s1, g);
    }
  }

  lemma JumpOver(s: State, s1: State, d: nat, lo: nat, m: nat, next: nat)
    requires
      && Inv(s1) && Live(s1, d) && DirAt(s1, d) && m < NENTRIES * NENTRIES && s1.mem[d].e[Pdx(m)] == Absent
      && next == (Pdx(m) + 1) * NENTRIES
    requires Pdx(m) < NENTRIES && Returned(s, s1, d, lo, m) && NoneMapped(s1, d, lo, m)
    ensures m < next && Returned(s, s1, d, lo, next) && NoneMapped(s1, d, lo, next)
  {
    assert m < next;
    forall i: nat, j: nat | In(i, j, lo, next)
      ensures Lookup(s1, d, i, j) == Absent
    {
      if !In(i, j, lo, m) { assert i == Pdx(m) by { SameTable(i, j, m, next); } }
    }
    AbsentReturned(s, s1, d, lo, m, next);
  }

  lemma SameTable(i: nat, j: nat, m: nat, next: nat)
    requires j < NENTRIES && m <= Vp(i, j) < next == (Pdx(m) + 1) * NENTRIES
    ensures i == Pdx(m)
  {
  }

  /** A jump may have passed hi, but no page beyond it was touched. */
  lemma ShrinkRange(s: State, s1: State, d: nat, lo: nat, a: nat, hi: nat)
    requires
      && Inv(s) && Live(s, d) && hi <= a && OnlyRange(s, s1, d, lo, hi) && NoneMapped(s1, d, lo, a)
      && Returned(s, s1, d, lo, a)
    ensures NoneMapped(s1, d, lo, hi) && Returned(s, s1, d, lo, hi)
  {
    assert forall i: nat, j: nat :: In(i, j, lo, hi) ==> In(i, j, lo, a);
    forall g | g in s.own && InPages(s.own[g], d, lo, a)
      ensures InPages(s.own[g], d, lo, hi)
    {
      assert FrameOk(s, g);
      var i, j := s.own[g].i, s.own[g].j;
      assert In(i, j, lo, a);
      assert !In(i, j, lo, hi) ==> SamePage(s, s1, d, i, j);
    }
  }

  lemma SpacesStay(s: State, s': State, x: nat)
    requires Inv(s) && (s == s' || (!InUse(s, x) && SameBut(s, s', x)))
    ensures SameSpaces(s, s')
  {
    forall e: nat | Live(s, e)
      ensures SameSpace(s, s', e)
    {
      if s == s' { SameSelf(s, e); } else { SpaceStays(s, s', e, x); }
    }
  }

  lemma SameSelf(s: State, e: nat)
    requires Inv(s) && Live(s, e)
    ensures SameSpace(s, s, e)
  {
    assert FrameOk(s, e);
    forall i: nat, j: nat
      ensures SamePage(s, s, e, i, j)
    {
      if i < NUSER && Lookup(s, e, i, j).Present? { PageOfEntry(s, e, i, j); }
    }
  }

  lemma SpacesTrans(s: State, s1: State, s2: State)
    requires SameSpaces(s, s1) && SameSpaces(s1, s2)
    ensures SameSpaces(s, s2)
  {
    hide SamePage;
    forall e: nat | Live(s, e)
      ensures SameSpace(s, s2, e)
    {
      assert SameSpace(s, s1, e) && Live(s1, e) && SameSpace(s1, s2, e);
      forall i: nat, j: nat
        ensures SamePage(s, s2, e, i, j)
      {
        SameTrans(s, s1, s2, e, i, j);
      }
    }
  }
}
