/**
 bmap(), readi(), writei() and itrunc() of fs.c over a free map, and filewrite() of file.c.
 readi() and writei() refine reads and writes of a byte sequence; truncation frees exactly the
 inode's blocks; the blocks one filewrite() operation logs fit its reservation.
 */
module InodeLayer {

  import opened Params
  import opened Blocks
  import FreeMap

  const T_DEV := 3
  const IPB: nat := 8

  // ---------------------------------------------------------------- growth of a file

  /**
   From m to m', blocks [lo, hi) of inode i were given addresses where they had none (the indirect
   block too if one was needed); every address there was is kept, and nothing else moved.
   */
  ghost predicate Grown(m: Image, m': Image, i: nat, lo: nat, hi: nat) {
    && i < |m.inodes| == |m'.inodes| && |m'.data| == |m.data|
    && (forall j :: 0 <= j < |m.inodes| && j != i ==> m'.inodes[j] == m.inodes[j])
    && |m'.inodes[i].addrs| == |m.inodes[i].addrs|
    && m'.inodes[i] == m.inodes[i].(addrs := m'.inodes[i].addrs)
    && (forall j, s :: 0 <= j < |m.inodes| && 0 <= s <= MAXFILE && (j != i || Slot(m, j, s) != 0) ==>
          Slot(m', j, s) == Slot(m, j, s))
    && (forall k :: 0 <= k < MAXFILE ==> (Slot(m', i, k) != 0 <==> Slot(m, i, k) != 0 || lo <= k < hi))
    && (Slot(m', i, MAXFILE) != 0 <==> Slot(m, i, MAXFILE) != 0 || (lo < hi && NDIRECT < hi))
  }

  lemma GrownTrans(m: Image, m1: Image, m2: Image, i: nat, lo: nat, mid: nat, hi: nat)
    requires Grown(m, m1, i, lo, mid) && Grown(m1, m2, i, mid, hi) && lo <= mid <= hi
    ensures Grown(m, m2, i, lo, hi)
  {
    forall j, s | 0 <= j < |m.inodes| && 0 <= s <= MAXFILE && (j != i || Slot(m, j, s) != 0)
      ensures Slot(m2, j, s) == Slot(m, j, s)
    {
      assert Slot(m1, j, s) == Slot(m, j, s);
    }
  }

  /** From m to m', inode i was given an indirect block and nothing else moved. */
  ghost predicate GotIndirect(m: Image, m': Image, i: nat) {
    && i < |m.inodes| == |m'.inodes| && |m'.data| == |m.data| && |m.inodes[i].addrs| == NDIRECT + 1
    && m'.inodes == m.inodes[i := WithAddr(m.inodes[i], NDIRECT, Slot(m', i, MAXFILE))]
    && Slot(m, i, MAXFILE) == 0 && Slot(m', i, MAXFILE) != 0
    && (forall j, s :: 0 <= j < |m.inodes| && 0 <= s <= MAXFILE && !(j == i && s == MAXFILE) ==>
          Slot(m', j, s) == Slot(m, j, s))
  }

  /** What bmap(i, bn) promises: block bn has address addr, and exactly BmapLog was logged for it. */
  ghost predicate Mapped(m: Image, m': Image, i: nat, bn: nat, addr: nat, bmapstart: nat, before: set<nat>,
                         logged: set<nat>) {
    && bn < MAXFILE && Grown(m, m', i, bn, bn + 1) && addr == Slot(m', i, bn) != 0 && addr < |m'.data|
    && logged == before + BmapLog(m, m', i, bn, bmapstart)
  }

  lemma BmapStep(m: Image, used: seq<bool>, owner: Owners, nmeta: nat, i: nat, bn: nat, b: nat, bmapstart: nat,
                 before: set<nat>)
    requires Inv(m, used, owner, nmeta) && i < |m.inodes| && bn < MAXFILE
    requires Slot(m, i, bn) == 0 && b < |used| && !used[b]
    requires NDIRECT <= bn ==> Slot(m, i, MAXFILE) != 0
    ensures Inv(Allocated(m, i, bn, b), used[b := true], owner[b := (i, bn)], nmeta)
    ensures SameFiles(m, Allocated(m, i, bn, b))
    ensures Mapped(m, Allocated(m, i, bn, b), i, bn, b, bmapstart, before,
      before + (if bn < NDIRECT then {} else {Slot(m, i, MAXFILE)}) + BallocLog(b, bmapstart))
  {
    AllocKeeps(m, used, owner, nmeta, i, bn, b);
    AllocHidden(m, used, owner, nmeta, i, bn, b);
    AllocatedSlots(m, used, owner, nmeta, i, bn, b);
    assert Grown(m, Allocated(m, i, bn, b), i, bn, bn + 1);
  }

  lemma SlotsInRange(m: Image, used: seq<bool>, owner: Owners, nmeta: nat, i: nat)
    requires Inv(m, used, owner, nmeta) && i < |m.inodes|
    ensures forall s :: 0 <= s <= MAXFILE ==> Slot(m, i, s) < |m.data|
  {
  }

  lemma AlreadyMapped(m: Image, used: seq<bool>, owner: Owners, nmeta: nat, i: nat, bn: nat, bmapstart: nat,
                      logged: set<nat>)
    requires Inv(m, used, owner, nmeta) && i < |m.inodes| && bn < MAXFILE && Slot(m, i, bn) != 0
    ensures Mapped(m, m, i, bn, Slot(m, i, bn), bmapstart, logged, logged)
  {
    SlotsInRange(m, used, owner, nmeta, i);
    assert NDIRECT <= bn ==> Slot(m, i, MAXFILE) != 0;
  }

  lemma IndirectStep(m: Image, used: seq<bool>, owner: Owners, nmeta: nat, i: nat, b: nat)
    requires Inv(m, used, owner, nmeta) && i < |m.inodes|
    requires Slot(m, i, MAXFILE) == 0 && b < |used| && !used[b]
    ensures Inv(Allocated(m, i, MAXFILE, b), used[b := true], owner[b := (i, MAXFILE)], nmeta)
    ensures SameFiles(m, Allocated(m, i, MAXFILE, b)) && GotIndirect(m, Allocated(m, i, MAXFILE, b), i)
    ensures Slot(Allocated(m, i, MAXFILE, b), i, MAXFILE) == b
  {
    AllocKeeps(m, used, owner, nmeta, i, MAXFILE, b);
    AllocHidden(m, used, owner, nmeta, i, MAXFILE, b);
    AllocatedSlots(m, used, owner, nmeta, i, MAXFILE, b);
  }

  lemma IndirectMapped(m: Image, m1: Image, m2: Image, i: nat, bn: nat, addr: nat, bmapstart: nat,
                       before: set<nat>, mid: set<nat>, logged: set<nat>)
    requires GotIndirect(m, m1, i) && mid == before + BallocLog(Slot(m1, i, MAXFILE), bmapstart)
    requires NDIRECT <= bn && Mapped(m1, m2, i, bn, addr, bmapstart, mid, logged) && Slot(m1, i, bn) == 0
    ensures Mapped(m, m2, i, bn, addr, bmapstart, before, logged)
  {
    assert Grown(m, m2, i, bn, bn + 1);
    assert Slot(m2, i, MAXFILE) == Slot(m1, i, MAXFILE);
  }

  /** The blocks bmap() logs: a bitmap block per allocation, what it zeroed, a changed indirect block. */
  ghost function BmapLog(m: Image, m': Image, i: nat, bn: nat, bmapstart: nat): set<nat>
    requires i < |m.inodes| == |m'.inodes| && bn < MAXFILE
  {
    if Slot(m, i, bn) != 0 then {}
    else if bn < NDIRECT then BallocLog(Slot(m', i, bn), bmapstart)
    else IndirectLog(Slot(m, i, MAXFILE) == 0, Slot(m', i, MAXFILE), bmapstart) + BallocLog(Slot(m', i, bn), bmapstart)
  }

  ghost function BallocLog(b: nat, bmapstart: nat): set<nat> {
    {BitmapBlock(b, bmapstart), b}
  }

  ghost function IndirectLog(isNew: bool, ind: nat, bmapstart: nat): set<nat> {
    if isNew then BallocLog(ind, bmapstart) else {ind}
  }

  /** BBLOCK(b, sb) */
  function BitmapBlock(b: nat, bmapstart: nat): nat {
    b / FreeMap.BPB + bmapstart
  }

  // ---------------------------------------------------------------- bytes

  datatype Outcome<T> = Failed | ToDevice | OutOfBlocks | Done(value: T)

  /** uint addition */
  function AddU(a: nat, b: nat): nat { (a + b) % UINT }

  /** The number of blocks a file of the given size spans. */
  function BlocksFor(size: nat): nat { (size + BSIZE - 1) / BSIZE }

  function Patch(b: Block, o: nat, src: seq<Byte>): Block
    requires o + |src| <= BSIZE
  {
    b[..o] + src + b[o + |src|..]
  }

  /** The sequence c with src written over it at off, growing it if needed. */
  function Splice(c: seq<Byte>, off: nat, src: seq<Byte>): seq<Byte>
    requires off <= |c|
  {
    c[..off] + src + (if off + |src| < |c| then c[off + |src|..] else [])
  }

  /** From m0 to m exactly bytes [off, off + |src|) of inode i's file changed, to src. */
  ghost predicate Overwritten(m0: Image, m: Image, i: nat, off: nat, src: seq<Byte>) {
    && i < |m0.inodes| == |m.inodes| && off + |src| <= MAXFILE * BSIZE
    && (forall p :: 0 <= p < MAXFILE * BSIZE ==>
          ByteAt(m, i, p) == if off <= p < off + |src| then src[p - off] else ByteAt(m0, i, p))
    && (forall j, k :: 0 <= j < |m.inodes| && j != i && 0 <= k < MAXFILE ==> FileBlock(m, j, k) == FileBlock(m0, j, k))
  }

  /** Where, in block k, a write at off begins. */
  function StartIn(k: nat, off: nat): nat
    requires off < (k + 1) * BSIZE
  {
    if off <= k * BSIZE then 0 else off - k * BSIZE
  }

  /** The part of src, written at off, that falls into block k. */
  function PartIn(k: nat, off: nat, src: seq<Byte>): seq<Byte>
    requires off < (k + 1) * BSIZE && k * BSIZE < off + |src|
  {
    src[k * BSIZE + StartIn(k, off) - off..Min(|src|, (k + 1) * BSIZE - off)]
  }

  function BlockAfter(b: Block, k: nat, off: nat, src: seq<Byte>): Block
    requires off < (k + 1) * BSIZE && k * BSIZE < off + |src|
  {
    Patch(b, StartIn(k, off), PartIn(k, off, src))
  }

  ghost predicate PartWritten(m0: Image, m: Image, i: nat, k: nat, off: nat, src: seq<Byte>)
    requires i < |m0.inodes| == |m.inodes| && k < MAXFILE
  {
    && off < (k + 1) * BSIZE && k * BSIZE < off + |src|
    && FileBlock(m, i, k) == BlockAfter(FileBlock(m0, i, k), k, off, src)
  }

  /** From m0 to m, each block of [off / BSIZE, hi) of inode i got its part of src and no other block changed. */
  ghost predicate BlocksWritten(m0: Image, m: Image, i: nat, off: nat, src: seq<Byte>, hi: nat) {
    && i < |m0.inodes| == |m.inodes| && hi <= MAXFILE
    && (forall k :: off / BSIZE <= k < hi ==> PartWritten(m0, m, i, k, off, src))
    && (forall j, k :: 0 <= j < |m.inodes| && 0 <= k < MAXFILE && !(j == i && off / BSIZE <= k < hi) ==>
          FileBlock(m, j, k) == FileBlock(m0, j, k))
  }

  /** Once the last block is reached, the bytes of [off, off + |src|) are src and no other byte changed. */
  lemma BlocksWrittenBytes(m0: Image, m: Image, i: nat, off: nat, src: seq<Byte>)
    requires 0 < |src| && off + |src| <= MAXFILE * BSIZE
    requires BlocksWritten(m0, m, i, off, src, (off + |src| - 1) / BSIZE + 1)
    ensures Overwritten(m0, m, i, off, src)
  {
    hide Slot, FileBlock, BlockAfter;
    forall p | 0 <= p < MAXFILE * BSIZE
      ensures ByteAt(m, i, p) == if off <= p < off + |src| then src[p - off] else ByteAt(m0, i, p)
    {
      var k := p / BSIZE;
      BlockRange(off, |src|, p);
      if off / BSIZE <= k < (off + |src| - 1) / BSIZE + 1 {
        assert PartWritten(m0, m, i, k, off, src);
        PatchedByte(FileBlock(m0, i, k), k, off, src, p % BSIZE);
      }
    }
  }

  lemma BlockRange(off: nat, n: nat, p: nat)
    requires 0 < n
    ensures p == p / BSIZE * BSIZE + p % BSIZE
    ensures off <= p < off + n ==> off / BSIZE <= p / BSIZE < (off + n - 1) / BSIZE + 1
  {
  }

  lemma PatchedByte(b: Block, k: nat, off: nat, src: seq<Byte>, q: nat)
    requires off < (k + 1) * BSIZE && k * BSIZE < off + |src| && q < BSIZE
    ensures BlockAfter(b, k, off, src)[q] ==
      if off <= k * BSIZE + q < off + |src| then src[k * BSIZE + q - off] else b[q]
  {
    hide Patch, PartIn;
    var s := StartIn(k, off);
    PartAt(k, off, src);
    PatchAt(b, s, PartIn(k, off, src), q);
  }

  lemma PatchAt(b: Block, o: nat, src: seq<Byte>, q: nat)
    requires o + |src| <= BSIZE && q < BSIZE
    ensures Patch(b, o, src)[q] == if o <= q < o + |src| then src[q - o] else b[q]
  {
  }

  lemma PartAt(k: nat, off: nat, src: seq<Byte>)
    requires off < (k + 1) * BSIZE && k * BSIZE < off + |src|
    ensures var s, part := StartIn(k, off), PartIn(k, off, src);
      && s + |part| == Min(BSIZE, off + |src| - k * BSIZE)
      && forall r :: 0 <= r < |part| ==> part[r] == src[k * BSIZE + s + r - off]
  {
  }

  /** writei()'s chunk, cut at off, patches the block as the part of src that belongs in it. */
  lemma ChunkIsPart(b: Block, off0: nat, src: seq<Byte>, tot: nat, off: nat, len: nat)
    requires
      tot < |src| && off == off0 + tot && (0 < tot ==> off % BSIZE == 0) && len == Min(|src| - tot, BSIZE - off % BSIZE)
    ensures off0 < (off / BSIZE + 1) * BSIZE && off / BSIZE * BSIZE < off0 + |src|
    ensures Patch(b, off % BSIZE, src[tot..tot + len]) == BlockAfter(b, off / BSIZE, off0, src)
  {
    var k := off / BSIZE;
    assert off == k * BSIZE + off % BSIZE;
    assert StartIn(k, off0) == off % BSIZE;
    assert PartIn(k, off0, src) == src[tot..tot + len];
  }

  /** A write that starts inside the file and then sets the size is a splice of its contents. */
  lemma OverwrittenIsSplice(m0: Image, m: Image, i: nat, off: nat, src: seq<Byte>)
    requires Overwritten(m0, m, i, off, src) && off <= m0.inodes[i].size <= MAXFILE * BSIZE
    requires m.inodes[i].size == if m0.inodes[i].size < off + |src| then off + |src| else m0.inodes[i].size
    ensures Content(m, i) == Splice(Content(m0, i), off, src)
  {
    hide Splice, FileBlock;
    var c0 := Content(m0, i);
    forall p | 0 <= p < m.inodes[i].size
      ensures Content(m, i)[p] == if off <= p < off + |src| then src[p - off] else c0[p]
    {
      assert Content(m, i)[p] == ByteAt(m, i, p);
      assert p < |c0| ==> c0[p] == ByteAt(m0, i, p);
    }
    SpliceIs(Content(m, i), c0, off, src);
  }

  lemma SpliceIs(c: seq<Byte>, c0: seq<Byte>, off: nat, src: seq<Byte>)
    requires off <= |c0| && |c| == if |c0| < off + |src| then off + |src| else |c0|
    requires forall p :: 0 <= p < |c| ==> c[p] == if off <= p < off + |src| then src[p - off] else c0[p]
    ensures c == Splice(c0, off, src)
  {
  }

  // ---------------------------------------------------------------- what a write logs

  /** The number of blocks of [lo, hi) that have no address. */
  ghost function Unmapped(m: Image, i: nat, lo: nat, hi: nat): (n: nat)
    requires i < |m.inodes| && hi <= MAXFILE
    ensures n <= if lo <= hi then hi - lo else 0
  {
    if hi <= lo then 0 else Unmapped(m, i, lo, hi - 1) + if Slot(m, i, hi - 1) == 0 then 1 else 0
  }

  ghost predicate TouchesIndirect(m: Image, i: nat, lo: nat, hi: nat)
    requires i < |m.inodes| && hi <= MAXFILE
  {
    exists k :: lo <= k < hi && NDIRECT <= k && Slot(m, i, k) == 0
  }

  /** A bound on the blocks logged for writing blocks [lo, hi), the inode's own block aside. */
  ghost function LogCost(m: Image, i: nat, lo: nat, hi: nat): nat
    requires i < |m.inodes| && lo <= hi <= MAXFILE
  {
    hi - lo + Unmapped(m, i, lo, hi)
    + if TouchesIndirect(m, i, lo, hi) then (if Slot(m, i, MAXFILE) == 0 then 2 else 1) else 0
  }

  /** What bmap() and the write after it log: the block, its bitmap block, and what the indirect block takes. */
  lemma LogAdds(m: Image, m1: Image, i: nat, bn: nat, addr: nat, bmapstart: nat, before: set<nat>, mid: set<nat>)
    requires Mapped(m, m1, i, bn, addr, bmapstart, before, mid)
    ensures var ind := Slot(m, i, MAXFILE);
      |mid + {addr}| <= |before| + 1
        + if Slot(m, i, bn) != 0 then 0
          else if bn < NDIRECT then 1
          else if ind == 0 then 3
          else if ind in before then 1 else 2
  {
    hide Slot, Grown, BitmapBlock;
    MappedIndirect(m, m1, i, bn, addr, bmapstart, before, mid);
    var ind := Slot(m1, i, MAXFILE);
    var bit := BitmapBlock(addr, bmapstart);
    if Slot(m, i, bn) != 0 {
      assert mid == before;
      AddOne(before, addr);
    } else if bn < NDIRECT {
      assert mid + {addr} == before + {bit} + {addr};
      AddTwo(before, bit, addr);
    } else if Slot(m, i, MAXFILE) == 0 {
      assert mid + {addr} == before + {ind} + {BitmapBlock(ind, bmapstart)} + {bit} + {addr};
      AddTwo(before, ind, BitmapBlock(ind, bmapstart));
      AddTwo(before + {ind} + {BitmapBlock(ind, bmapstart)}, bit, addr);
    } else {
      assert mid + {addr} == before + {ind} + {bit} + {addr};
      AddTwo(before + {ind}, bit, addr);
      AddOne(before, ind);
      if ind in before { assert before + {ind} == before; }
    }
  }

  lemma AddOne(s: set<nat>, x: nat)
    ensures |s + {x}| <= |s| + 1
  {
  }

  lemma AddTwo(s: set<nat>, x: nat, y: nat)
    ensures |s + {x} + {y}| <= |s| + 2
  {
    AddOne(s, x);
    AddOne(s + {x}, y);
  }

  lemma MappedIndirect(m: Image, m1: Image, i: nat, bn: nat, addr: nat, bmapstart: nat, before: set<nat>,
                       mid: set<nat>)
    requires Mapped(m, m1, i, bn, addr, bmapstart, before, mid)
    ensures i < |m.inodes| == |m1.inodes|
    ensures before <= mid && (Slot(m, i, MAXFILE) != 0 ==> Slot(m1, i, MAXFILE) == Slot(m, i, MAXFILE))
    ensures Slot(m, i, bn) == 0 && NDIRECT <= bn ==> Slot(m1, i, MAXFILE) in mid && Slot(m1, i, MAXFILE) != 0
  {
    hide Slot;
  }

  /** How the bound grows with the range. */
  lemma LogCostNext(m: Image, i: nat, lo: nat, bn: nat)
    requires i < |m.inodes| && lo <= bn < MAXFILE
    ensures var empty, far := Slot(m, i, bn) == 0, NDIRECT <= bn;
      && (TouchesIndirect(m, i, lo, bn + 1) <==> TouchesIndirect(m, i, lo, bn) || (far && empty))
      && LogCost(m, i, lo, bn + 1) == LogCost(m, i, lo, bn) + 1 + (if empty then 1 else 0)
           + if far && empty && !TouchesIndirect(m, i, lo, bn) then (if Slot(m, i, MAXFILE) == 0 then 2 else 1) else 0
  {
    hide Slot;
  }

  lemma LogCostStep(m0: Image, m: Image, m1: Image, i: nat, lo: nat, bn: nat, addr: nat, bmapstart: nat,
                    base: nat, before: set<nat>, mid: set<nat>)
    requires lo <= bn < MAXFILE && Grown(m0, m, i, lo, bn) && Mapped(m, m1, i, bn, addr, bmapstart, before, mid)
    requires |before| <= base + LogCost(m0, i, lo, bn)
    requires TouchesIndirect(m0, i, lo, bn) ==> Slot(m, i, MAXFILE) in before && Slot(m, i, MAXFILE) != 0
    ensures |mid + {addr}| <= base + LogCost(m0, i, lo, bn + 1)
    ensures TouchesIndirect(m0, i, lo, bn + 1) ==> Slot(m1, i, MAXFILE) in mid + {addr} && Slot(m1, i, MAXFILE) != 0
  {
    hide Slot, LogCost, TouchesIndirect, BmapLog;
    assert Slot(m, i, bn) == 0 <==> Slot(m0, i, bn) == 0;
    assert Slot(m0, i, MAXFILE) != 0 ==> Slot(m, i, MAXFILE) == Slot(m0, i, MAXFILE);
    LogAdds(m, m1, i, bn, addr, bmapstart, before, mid);
    MappedIndirect(m, m1, i, bn, addr, bmapstart, before, mid);
    LogCostNext(m0, i, lo, bn);
  }

  // ---------------------------------------------------------------- what a write needs

  /**
   The free blocks it takes to give all of [lo, hi) addresses: the unmapped ones, and an indirect block if
   there is none.
   */
  ghost function Need(m: Image, i: nat, lo: nat, hi: nat): nat
    requires i < |m.inodes| && hi <= MAXFILE
  {
    Unmapped(m, i, lo, hi) + if lo < hi && NDIRECT < hi && Slot(m, i, MAXFILE) == 0 then 1 else 0
  }

  /** The end of the range of blocks that n bytes at off touch. */
  function BlockEnd(off: nat, n: nat): nat {
    if n == 0 then off / BSIZE else (off + n - 1) / BSIZE + 1
  }

  /** The free blocks it takes to give every block that n bytes at off touch an address. */
  ghost function NeedFor(m: Image, i: nat, off: nat, n: nat): nat
    requires i < |m.inodes| && off + n <= MAXFILE * BSIZE
  {
    Need(m, i, off / BSIZE, BlockEnd(off, n))
  }

  /** Every block of [lo, hi) has an address. */
  ghost predicate AllMapped(m: Image, i: nat, lo: nat, hi: nat)
    requires i < |m.inodes|
  {
    forall k :: lo <= k < hi && k < MAXFILE ==> Slot(m, i, k) != 0
  }

  /** Exactly [lo, hi), and the indirect block if it reaches that far, have addresses besides what had them before. */
  ghost predicate GrownSlots(m: Image, m': Image, i: nat, lo: nat, hi: nat) {
    && i < |m.inodes| == |m'.inodes|
    && (forall k :: 0 <= k < MAXFILE ==> (Slot(m', i, k) != 0 <==> Slot(m, i, k) != 0 || lo <= k < hi))
    && (Slot(m', i, MAXFILE) != 0 <==> Slot(m, i, MAXFILE) != 0 || (lo < hi && NDIRECT < hi))
  }

  lemma {:induction false} NeedMono(m: Image, i: nat, lo: nat, mid: nat, hi: nat)
    requires i < |m.inodes| && mid <= hi <= MAXFILE
    ensures Need(m, i, lo, mid) <= Need(m, i, lo, hi)
  {
    if mid < hi { NeedMono(m, i, lo, mid, hi - 1); }
  }

  /** What was mapped up to mid need not be mapped again; the parts may overlap in a block both touch. */
  lemma {:induction false} NeedSplit(m0: Image, m: Image, i: nat, lo: nat, mid: nat, lo': nat, hi: nat)
    requires GrownSlots(m0, m, i, lo, mid) && lo <= lo' <= mid <= hi <= MAXFILE
    ensures Need(m0, i, lo, hi) == Need(m0, i, lo, mid) + Need(m, i, lo', hi)
    decreases hi
  {
    if mid < hi {
      NeedSplit(m0, m, i, lo, mid, lo', hi - 1);
    } else {
      NoneUnmapped(m, i, lo', hi);
    }
  }

  lemma {:induction false} NoneUnmapped(m: Image, i: nat, lo: nat, hi: nat)
    requires i < |m.inodes| && hi <= MAXFILE
    ensures Unmapped(m, i, lo, hi) == 0 <==> forall k :: lo <= k < hi ==> Slot(m, i, k) != 0
  {
    if lo < hi { NoneUnmapped(m, i, lo, hi - 1); }
  }

  lemma GrownSlotsJoin(m0: Image, m: Image, m': Image, i: nat, lo: nat, mid: nat, lo': nat, hi: nat)
    requires GrownSlots(m0, m, i, lo, mid) && GrownSlots(m, m', i, lo', hi) && lo <= lo' <= mid <= hi <= MAXFILE
    ensures GrownSlots(m0, m', i, lo, hi)
  {
  }

  /** After the first `done` of some bytes at off0, the next n take what all of them need beyond what `done` took. */
  lemma NeedNext(m0: Image, m: Image, i: nat, off0: nat, done: nat, n: nat)
    requires GrownSlots(m0, m, i, off0 / BSIZE, BlockEnd(off0, done)) && off0 + done + n <= MAXFILE * BSIZE
    ensures NeedFor(m0, i, off0, done + n) == NeedFor(m0, i, off0, done) + NeedFor(m, i, off0 + done, n)
  {
    if n == 0 {
    } else if done == 0 {
      NeedSplit(m0, m, i, off0 / BSIZE, off0 / BSIZE, off0 / BSIZE, BlockEnd(off0, n));
    } else {
      NeedSplit(m0, m, i, off0 / BSIZE, BlockEnd(off0, done), (off0 + done) / BSIZE, BlockEnd(off0, done + n));
    }
  }

  lemma GrownNext(m0: Image, m: Image, m': Image, i: nat, off0: nat, done: nat, n: nat)
    requires GrownSlots(m0, m, i, off0 / BSIZE, BlockEnd(off0, done)) && 0 < n && off0 + done + n <= MAXFILE * BSIZE
    requires GrownSlots(m, m', i, (off0 + done) / BSIZE, BlockEnd(off0 + done, n))
    ensures GrownSlots(m0, m', i, off0 / BSIZE, BlockEnd(off0, done + n))
  {
    var mid := if done == 0 then off0 / BSIZE else BlockEnd(off0, done);
    GrownSlotsJoin(m0, m, m', i, off0 / BSIZE, mid, (off0 + done) / BSIZE, BlockEnd(off0, done + n));
  }

  /** Fewer bytes need no more blocks. */
  lemma NeedForMono(m: Image, i: nat, off: nat, n: nat, n': nat)
    requires i < |m.inodes| && n <= n' && off + n' <= MAXFILE * BSIZE
    ensures NeedFor(m, i, off, n) <= NeedFor(m, i, off, n')
  {
    NeedMono(m, i, off / BSIZE, BlockEnd(off, n), BlockEnd(off, n'));
  }

  // ---------------------------------------------------------------- files without holes

  /** Block k has an address exactly when the file reaches it, and likewise the indirect block. */
  ghost predicate HoleFree(m: Image, i: nat) {
    && i < |m.inodes|
    && (forall k :: 0 <= k < MAXFILE ==> (Slot(m, i, k) != 0 <==> k < BlocksFor(m.inodes[i].size)))
    && (Slot(m, i, MAXFILE) != 0 <==> NDIRECT < BlocksFor(m.inodes[i].size))
  }

  lemma HoleFreeMapped(m: Image, i: nat, off: nat, n: nat)
    requires HoleFree(m, i) && off + n <= m.inodes[i].size
    ensures AllMapped(m, i, off / BSIZE, BlockEnd(off, n))
  {
  }

  lemma UnmappedHoleFree(m: Image, i: nat, lo: nat, hi: nat)
    requires HoleFree(m, i) && lo <= hi <= MAXFILE
    ensures Unmapped(m, i, lo, hi) ==
      var c := BlocksFor(m.inodes[i].size); if hi <= c then 0 else if c <= lo then hi - lo else hi - c
  {
    if lo < hi { UnmappedHoleFree(m, i, lo, hi - 1); }
  }

  /**
   filewrite()'s chunk of at most three blocks' worth of bytes, at any offset of a file without holes,
   logs at most MAXOPBLOCKS - 1 blocks besides the inode's.
   */
  lemma ChunkFitsReservation(m: Image, i: nat, off: nat, n: nat)
    requires HoleFree(m, i) && off <= m.inodes[i].size && 0 < n <= 3 * BSIZE && off + n <= MAXFILE * BSIZE
    ensures LogCost(m, i, off / BSIZE, (off + n - 1) / BSIZE + 1) <= MAXOPBLOCKS - 1
  {
    var lo, hi := off / BSIZE, (off + n - 1) / BSIZE + 1;
    UnmappedHoleFree(m, i, lo, hi);
    assert off % BSIZE != 0 ==> lo < BlocksFor(m.inodes[i].size);
    assert hi - lo <= 4 && (off % BSIZE == 0 ==> hi - lo <= 3);
  }

  // ---------------------------------------------------------------- one iteration of writei()

  lemma GrownPut(m0: Image, m: Image, m': Image, i: nat, lo: nat, hi: nat)
    requires Grown(m0, m, i, lo, hi) && m'.inodes == m.inodes && |m'.data| == |m.data|
    requires forall j, t :: 0 <= j < |m.inodes| && 0 <= t <= MAXFILE ==> Slot(m', j, t) == Slot(m, j, t)
    ensures Grown(m0, m', i, lo, hi)
  {
  }

  lemma IterationSlots(m0: Image, m: Image, m1: Image, m2: Image, i: nat, lo: nat, bn: nat)
    requires Grown(m0, m, i, lo, bn) && Grown(m, m1, i, bn, bn + 1) && lo <= bn
    requires m2.inodes == m1.inodes && |m2.data| == |m1.data|
    requires forall j, t :: 0 <= j < |m1.inodes| && 0 <= t <= MAXFILE ==> Slot(m2, j, t) == Slot(m1, j, t)
    ensures Grown(m0, m2, i, lo, bn + 1)
  {
    GrownTrans(m0, m, m1, i, lo, bn, bn + 1);
    GrownPut(m0, m1, m2, i, lo, bn + 1);
  }

  lemma CopyBounds(off0: nat, n: nat, tot: nat, off: nat, len: nat)
    requires tot < n && off == off0 + tot && len == Min(n - tot, BSIZE - off % BSIZE)
    ensures 0 < len && tot + len <= n
    ensures tot + len < n ==> (off + len) % BSIZE == 0 && off / BSIZE + 1 == (off + len) / BSIZE
    ensures tot + len == n ==> off / BSIZE == (off0 + n - 1) / BSIZE
  {
  }

  /** The state of writei()'s loop before block hi: blocks below it written, logged within its bound. */
  ghost predicate Copying(m0: Image, m: Image, i: nat, off: nat, src: seq<Byte>, hi: nat, base: nat, logged: set<nat>) {
    && off / BSIZE <= hi <= MAXFILE
    && BlocksWritten(m0, m, i, off, src, hi)
    && Grown(m0, m, i, off / BSIZE, hi)
    && |logged| <= base + LogCost(m0, i, off / BSIZE, hi)
    && (TouchesIndirect(m0, i, off / BSIZE, hi) ==> Slot(m, i, MAXFILE) in logged && Slot(m, i, MAXFILE) != 0)
  }

  lemma CopyStart(m: Image, i: nat, off: nat, src: seq<Byte>, logged: set<nat>)
    requires i < |m.inodes| && off / BSIZE <= MAXFILE
    ensures Copying(m, m, i, off, src, off / BSIZE, |logged|, logged)
  {
  }

  lemma CopyStep(m0: Image, m: Image, m1: Image, m2: Image, used: seq<bool>, owner: Owners, nmeta: nat, i: nat,
                 off: nat,
                 src: seq<Byte>, bn: nat, addr: nat, bmapstart: nat, base: nat, before: set<nat>, mid: set<nat>)
    requires Copying(m0, m, i, off, src, bn, base, before)
    requires Inv(m1, used, owner, nmeta) && SameFiles(m, m1) && Mapped(m, m1, i, bn, addr, bmapstart, before, mid)
    requires off < (bn + 1) * BSIZE && bn * BSIZE < off + |src|
    requires m2 == PutBlock(m1, addr, BlockAfter(m1.data[addr], bn, off, src))
    ensures Inv(m2, used, owner, nmeta) && Copying(m0, m2, i, off, src, bn + 1, base, mid + {addr})
  {
    hide Slot, BlockAfter, Exclusive, Exact, LogCost, TouchesIndirect, BmapLog, Shape;
    WriteStep(m1, used, owner, nmeta, i, bn, BlockAfter(m1.data[addr], bn, off, src));
    forall k | off / BSIZE <= k < bn + 1
      ensures PartWritten(m0, m2, i, k, off, src)
    {
      assert k < bn ==> PartWritten(m0, m, i, k, off, src);
    }
    IterationSlots(m0, m, m1, m2, i, off / BSIZE, bn);
    LogCostStep(m0, m, m1, i, off / BSIZE, bn, addr, bmapstart, base, before, mid);
  }

  lemma GrownIsSlots(m0: Image, m: Image, i: nat, lo: nat, hi: nat)
    requires Grown(m0, m, i, lo, hi)
    ensures GrownSlots(m0, m, i, lo, hi)
  {
  }

  lemma NeedOne(m: Image, i: nat, bn: nat)
    requires i < |m.inodes| && bn < MAXFILE
    ensures Need(m, i, bn, bn + 1) ==
      (if Slot(m, i, bn) == 0 then 1 else 0) + (if NDIRECT <= bn && Slot(m, i, MAXFILE) == 0 then 1 else 0)
  {
    hide Slot;
    assert Unmapped(m, i, bn, bn) == 0;
  }

  lemma NeedNothing(m: Image, i: nat, lo: nat)
    requires i < |m.inodes| && lo <= MAXFILE
    ensures Need(m, i, lo, lo) == 0
  {
  }

  /** The next block of a copy takes what the range needs beyond what it has been given. */
  lemma CopyNeed(m0: Image, m: Image, i: nat, off: nat, src: seq<Byte>, bn: nat, base: nat, logged: set<nat>)
    requires Copying(m0, m, i, off, src, bn, base, logged) && bn < MAXFILE
    ensures Need(m0, i, off / BSIZE, bn + 1) == Need(m0, i, off / BSIZE, bn) + Need(m, i, bn, bn + 1)
  {
    GrownIsSlots(m0, m, i, off / BSIZE, bn);
    NeedSplit(m0, m, i, off / BSIZE, bn, bn, bn + 1);
  }

  // ---------------------------------------------------------------- what writei() leaves

  /** Inode i of m with its size put back to what it was. */
  function WithSize(m: Image, i: nat, size: nat): Image
    requires i < |m.inodes|
  {
    Image(m.data, m.inodes[i := m.inodes[i].(size := size)])
  }

  /** The size writei() leaves. */
  function SizeAfter(size: nat, off: nat, n: nat): nat {
    if n > 0 && off + n > size then off + n else size
  }

  /**
   The whole effect of a successful writei() on the image: the file's contents are spliced, no other
   file and no other inode changed, and blocks were added only inside the written range.
   */
  ghost predicate Wrote(m0: Image, m: Image, i: nat, off: nat, src: seq<Byte>) {
    && i < |m0.inodes| == |m.inodes| && m0.inodes[i].size <= MAXFILE * BSIZE && m.inodes[i].size <= MAXFILE * BSIZE
    && off <= m0.inodes[i].size
    && Content(m, i) == Splice(Content(m0, i), off, src)
    && (forall j, k :: 0 <= j < |m.inodes| && j != i && 0 <= k < MAXFILE ==> FileBlock(m, j, k) == FileBlock(m0, j, k))
    && m.inodes[i].size == SizeAfter(m0.inodes[i].size, off, |src|)
    && Grown(m0, WithSize(m, i, m0.inodes[i].size), i, off / BSIZE, BlockEnd(off, |src|))
  }

  lemma WithSizeSlots(m: Image, i: nat, size: nat)
    requires i < |m.inodes|
    ensures
      forall j, s :: 0 <= j < |m.inodes| && 0 <= s <= MAXFILE ==> Slot(WithSize(m, i, size), j, s) == Slot(m, j, s)
  {
  }

  lemma GrownNothing(m: Image, i: nat, lo: nat)
    requires i < |m.inodes|
    ensures Grown(m, m, i, lo, lo)
  {
  }

  lemma WroteNothing(m: Image, i: nat, off: nat)
    requires i < |m.inodes| && off <= m.inodes[i].size <= MAXFILE * BSIZE
    ensures Wrote(m, m, i, off, [])
  {
    assert WithSize(m, i, m.inodes[i].size) == m;
    GrownNothing(m, i, off / BSIZE);
    assert Content(m, i) == Splice(Content(m, i), off, []);
  }

  lemma GrownFields(m0: Image, m: Image, i: nat, off: nat, src: seq<Byte>, base: nat, logged: set<nat>)
    requires 0 < |src| && off + |src| <= MAXFILE * BSIZE
    requires Copying(m0, m, i, off, src, (off + |src| - 1) / BSIZE + 1, base, logged)
    ensures m.inodes[i].size == m0.inodes[i].size
    ensures |logged| <= base + LogCost(m0, i, off / BSIZE, (off + |src| - 1) / BSIZE + 1)
  {
    assert m.inodes[i] == m0.inodes[i].(addrs := m.inodes[i].addrs);
  }

  /** The copy loop followed by the size update. */
  lemma CopyIsWrite(m0: Image, m1: Image, m: Image, i: nat, off: nat, src: seq<Byte>, base: nat, logged: set<nat>)
    requires 0 < |src| && off + |src| <= MAXFILE * BSIZE
    requires Copying(m0, m1, i, off, src, (off + |src| - 1) / BSIZE + 1, base, logged)
    requires off <= m0.inodes[i].size <= MAXFILE * BSIZE
    requires m == WithSize(m1, i, SizeAfter(m0.inodes[i].size, off, |src|))
    ensures Wrote(m0, m, i, off, src)
  {
    BlocksWrittenBytes(m0, m1, i, off, src);
    WithSizeSlots(m1, i, m.inodes[i].size);
    assert forall j, k :: 0 <= j < |m.inodes| && 0 <= k < MAXFILE ==> FileBlock(m, j, k) == FileBlock(m1, j, k);
    assert Overwritten(m0, m, i, off, src) by { SameFilesBytes(m1, m, i); }
    OverwrittenIsSplice(m0, m, i, off, src);
    assert WithSize(m, i, m0.inodes[i].size) == m1 by {
      assert m.inodes[i].(size := m0.inodes[i].size) == m1.inodes[i];
    }
  }

  lemma WroteSlots(m0: Image, m: Image, i: nat, off: nat, src: seq<Byte>)
    requires Wrote(m0, m, i, off, src)
    ensures GrownSlots(m0, m, i, off / BSIZE, BlockEnd(off, |src|))
    ensures m.inodes[i].kind == m0.inodes[i].kind && m.inodes[i].major == m0.inodes[i].major
  {
    assert WithSize(m, i, m0.inodes[i].size).inodes[i].kind == m.inodes[i].kind;
    assert WithSize(m, i, m0.inodes[i].size).inodes[i].major == m.inodes[i].major;
    WithSizeSlots(m, i, m0.inodes[i].size);
  }

  lemma SameFilesBytes(m: Image, m': Image, i: nat)
    requires SameFiles(m, m') && i < |m.inodes|
    ensures forall p :: 0 <= p < MAXFILE * BSIZE ==> ByteAt(m', i, p) == ByteAt(m, i, p)
  {
  }

  /** A write keeps a file without holes free of holes. */
  lemma WriteKeepsHoleFree(m0: Image, m: Image, i: nat, off: nat, src: seq<Byte>)
    requires Wrote(m0, m, i, off, src) && HoleFree(m0, i)
    ensures HoleFree(m, i)
  {
    WithSizeSlots(m, i, m0.inodes[i].size);
  }

  /** Some block of [lo, hi) needs an address that is kept in the inode itself. */
  ghost predicate NeedsInodeAddress(m: Image, i: nat, lo: nat, hi: nat)
    requires i < |m.inodes| && hi <= MAXFILE
  {
    || (exists k :: lo <= k < hi && k < NDIRECT && Slot(m, i, k) == 0)
    || (lo < hi && NDIRECT < hi && Slot(m, i, MAXFILE) == 0)
  }

  /** A write changes the inode's address list exactly if the range had such a block. */
  lemma AddressesChange(m0: Image, m: Image, i: nat, off: nat, src: seq<Byte>)
    requires
      Wrote(m0, m, i, off, src) && src != [] && off + |src| <= MAXFILE * BSIZE && |m0.inodes[i].addrs| == NDIRECT + 1
    ensures m.inodes[i].addrs != m0.inodes[i].addrs <==>
      NeedsInodeAddress(m0, i, off / BSIZE, (off + |src| - 1) / BSIZE + 1)
  {
    var lo, hi := off / BSIZE, (off + |src| - 1) / BSIZE + 1;
    var g := WithSize(m, i, m0.inodes[i].size);
    assert g.inodes[i].addrs == m.inodes[i].addrs;
    if NeedsInodeAddress(m0, i, lo, hi) {
      if k :| lo <= k < hi && k < NDIRECT && Slot(m0, i, k) == 0 {
        assert Slot(g, i, k) != 0;
      } else {
        assert Slot(g, i, MAXFILE) != 0;
      }
    } else {
      forall s | 0 <= s <= NDIRECT
        ensures g.inodes[i].addrs[s] == m0.inodes[i].addrs[s]
      {
        var t := if s < NDIRECT then s else MAXFILE;
        assert Slot(g, i, t) == Slot(m0, i, t);
      }
    }
  }

  /**
   The inode cache is write-through for files without holes: if a write gives such an inode a new
   address, it also makes the file grow, and that is when writei() calls iupdate().
   */
  lemma NewAddressGrows(m: Image, i: nat, off: nat, n: nat)
    requires HoleFree(m, i) && 0 < n && off + n <= MAXFILE * BSIZE
    requires NeedsInodeAddress(m, i, off / BSIZE, (off + n - 1) / BSIZE + 1)
    ensures off + n > m.inodes[i].size
  {
    var hi := (off + n - 1) / BSIZE + 1;
    assert BlocksFor(m.inodes[i].size) < hi;
  }

  // ---------------------------------------------------------------- filewrite()

  /** How many of n bytes at off filewrite() can write: all that fit a file, in whole operations if not all fit. */
  function Fitting(off: nat, n: nat): (r: nat)
    requires off <= MAXFILE * BSIZE
    ensures r <= n && off + r <= MAXFILE * BSIZE && (r == n <==> off + n <= MAXFILE * BSIZE)
  {
    if off + n <= MAXFILE * BSIZE then n else (MAXFILE * BSIZE - off) / (3 * BSIZE) * (3 * BSIZE)
  }

  /** The operation after `done` bytes fits a file exactly if it is among those that fit. */
  lemma FittingStep(off0: nat, n: nat, done: nat, n1: nat)
    requires off0 + done <= MAXFILE * BSIZE && done < n && done % (3 * BSIZE) == 0 && n1 == Min(n - done, 3 * BSIZE)
    ensures off0 + done + n1 <= MAXFILE * BSIZE ==> done + n1 <= Fitting(off0, n)
    ensures off0 + done + n1 > MAXFILE * BSIZE ==> done == Fitting(off0, n)
    ensures done + n1 == n || (done + n1) % (3 * BSIZE) == 0
  {
  }

  lemma SpliceTwice(c: seq<Byte>, off: nat, a: seq<Byte>, b: seq<Byte>)
    requires off <= |c|
    ensures off + |a| <= |Splice(c, off, a)| && Splice(Splice(c, off, a), off + |a|, b) == Splice(c, off, a + b)
  {
  }

  /**
   filewrite() so far: done is in the file at off0, the blocks it touches have addresses, and other
   files are as they were.
   */
  ghost predicate Appended(m0: Image, m: Image, i: nat, off0: nat, done: seq<Byte>) {
    && i < |m0.inodes| == |m.inodes| && off0 <= m0.inodes[i].size <= MAXFILE * BSIZE
    && m.inodes[i].size <= MAXFILE * BSIZE
    && Content(m, i) == Splice(Content(m0, i), off0, done)
    && (forall j, k :: 0 <= j < |m.inodes| && j != i && 0 <= k < MAXFILE ==> FileBlock(m, j, k) == FileBlock(m0, j, k))
    && m.inodes[i].kind == m0.inodes[i].kind && m.inodes[i].major == m0.inodes[i].major
    && GrownSlots(m0, m, i, off0 / BSIZE, BlockEnd(off0, |done|))
  }

  lemma AppendNothing(m: Image, used: seq<bool>, owner: Owners, nmeta: nat, i: nat, off: nat)
    requires Inv(m, used, owner, nmeta) && i < |m.inodes| && off <= m.inodes[i].size
    ensures Appended(m, m, i, off, [])
  {
    assert Content(m, i) == Splice(Content(m, i), off, []);
    RangeStart(m, i, off);
  }

  lemma AppendedSize(m0: Image, m: Image, i: nat, off: nat, done: seq<Byte>)
    requires Appended(m0, m, i, off, done)
    ensures off + |done| <= m.inodes[i].size <= MAXFILE * BSIZE
    ensures m.inodes[i].kind == m0.inodes[i].kind && m.inodes[i].major == m0.inodes[i].major
  {
    assert |Content(m, i)| == m.inodes[i].size;
  }

  lemma AppendStep(m0: Image, m: Image, m': Image, i: nat, off0: nat, done: seq<Byte>, chunk: seq<Byte>)
    requires Appended(m0, m, i, off0, done) && Wrote(m, m', i, off0 + |done|, chunk) && chunk != []
    requires off0 + |done| + |chunk| <= MAXFILE * BSIZE
    ensures Appended(m0, m', i, off0, done + chunk)
  {
    hide GrownSlots, Grown, Slot, FileBlock, Splice, BlockEnd, WithSize;
    WroteSlots(m, m', i, off0 + |done|, chunk);
    GrownNext(m0, m, m', i, off0, |done|, |chunk|);
    SpliceTwice(Content(m0, i), off0, done, chunk);
  }

  lemma AppendNeed(m0: Image, m: Image, i: nat, off0: nat, done: seq<Byte>, n1: nat, n: nat)
    requires Appended(m0, m, i, off0, done) && |done| + n1 <= n && off0 + n <= MAXFILE * BSIZE
    ensures NeedFor(m0, i, off0, |done| + n1) == NeedFor(m0, i, off0, |done|) + NeedFor(m, i, off0 + |done|, n1)
    ensures NeedFor(m0, i, off0, |done| + n1) <= NeedFor(m0, i, off0, n)
  {
    hide Need, GrownSlots, Content;
    NeedNext(m0, m, i, off0, |done|, n1);
    NeedForMono(m0, i, off0, |done| + n1, n);
  }

  /** If the write left the on-disk inode behind, the file grew; so after writei() the two agree again. */
  lemma StillInSync(m: Image, m': Image, i: nat, off: nat, chunk: seq<Byte>)
    requires HoleFree(m, i) && Wrote(m, m', i, off, chunk) && chunk != [] && off + |chunk| <= MAXFILE * BSIZE
    requires |m.inodes[i].addrs| == NDIRECT + 1 && m'.inodes[i].size == m.inodes[i].size
    ensures m'.inodes[i] == m.inodes[i]
  {
    AddressesChange(m, m', i, off, chunk);
    if m'.inodes[i].addrs != m.inodes[i].addrs {
      NewAddressGrows(m, i, off, |chunk|);
    }
    assert WithSize(m', i, m.inodes[i].size).inodes[i] == m'.inodes[i];
  }

  // ---------------------------------------------------------------- itrunc()

  /** The first t direct addresses of inode i are cleared and nothing else changed. */
  ghost predicate DirectCleared(was: seq<Inode>, now: seq<Inode>, i: nat, t: nat) {
    && i < |was| == |now| && |was[i].addrs| == |now[i].addrs| == NDIRECT + 1
    && now == was[i := now[i]] && now[i] == was[i].(addrs := now[i].addrs)
    && forall s :: 0 <= s <= NDIRECT ==> now[i].addrs[s] == if s < t then 0 else was[i].addrs[s]
  }

  lemma ShapeOf(m: Image, used: seq<bool>, owner: Owners, nmeta: nat, i: nat)
    requires Inv(m, used, owner, nmeta) && i < |m.inodes|
    ensures |m.inodes[i].addrs| == NDIRECT + 1 && m.inodes[i].size <= MAXFILE * BSIZE && |used| == |m.data|
  {
  }

  lemma WithoutNone(owner: Owners, i: nat)
    ensures owner == Without(owner, i, 0)
  {
  }

  lemma StaysSound(m: Image, m': Image, i: nat, off: nat, src: seq<Byte>)
    requires
      && HoleFree(m, i) && Wrote(m, m', i, off, src) && off + |src| <= MAXFILE * BSIZE
      && |m.inodes[i].addrs| == NDIRECT + 1
    ensures HoleFree(m', i) && (m'.inodes[i].size == m.inodes[i].size ==> m'.inodes[i] == m.inodes[i])
  {
    WriteKeepsHoleFree(m, m', i, off, src);
    if src == [] {
      WroteNothingSame(m, m', i, off);
    } else if m'.inodes[i].size == m.inodes[i].size {
      StillInSync(m, m', i, off, src);
    }
  }

  lemma WroteNothingSame(m: Image, m': Image, i: nat, off: nat)
    requires Wrote(m, m', i, off, []) && |m.inodes[i].addrs| == NDIRECT + 1
    ensures m'.inodes[i] == m.inodes[i]
  {
    var g := WithSize(m', i, m.inodes[i].size);
    forall s | 0 <= s <= NDIRECT
      ensures g.inodes[i].addrs[s] == m.inodes[i].addrs[s]
    {
      var t := if s < NDIRECT then s else MAXFILE;
      assert Slot(g, i, t) == Slot(m, i, t);
    }
    assert g.inodes[i].addrs == m.inodes[i].addrs;
  }

  // ---------------------------------------------------------------- readi()

  /** From m to m' only addresses were added: every file block reads the same and no other inode field changed. */
  ghost predicate OnlyMapped(m: Image, m': Image) {
    && SameFiles(m, m')
    && forall j :: 0 <= j < |m.inodes| ==> m'.inodes[j] == m.inodes[j].(addrs := m'.inodes[j].addrs)
  }

  lemma OnlyMappedTrans(m: Image, m1: Image, m2: Image)
    requires OnlyMapped(m, m1) && OnlyMapped(m1, m2)
    ensures OnlyMapped(m, m2)
  {
    forall j | 0 <= j < |m.inodes|
      ensures m2.inodes[j] == m.inodes[j].(addrs := m2.inodes[j].addrs)
    {
      assert m1.inodes[j] == m.inodes[j].(addrs := m1.inodes[j].addrs);
      assert m2.inodes[j] == m1.inodes[j].(addrs := m2.inodes[j].addrs);
    }
  }

  lemma MappedOnly(m: Image, m': Image, i: nat, bn: nat, addr: nat, bmapstart: nat, before: set<nat>, logged: set<nat>)
    requires SameFiles(m, m') && Mapped(m, m', i, bn, addr, bmapstart, before, logged)
    ensures OnlyMapped(m, m') && m'.data[addr] == FileBlock(m, i, bn)
  {
    assert FileBlock(m', i, bn) == m'.data[addr];
  }

  /** The next stretch of a read, cut at a block boundary, continues the file's contents. */
  lemma ChunkRead(m: Image, i: nat, off0: nat, got: seq<Byte>, off: nat, len: nat)
    requires
      i < |m.inodes| && m.inodes[i].size <= MAXFILE * BSIZE && off == off0 + |got| && off + len <= m.inodes[i].size
    requires off % BSIZE + len <= BSIZE && off / BSIZE < MAXFILE && got == Content(m, i)[off0..off]
    ensures got + FileBlock(m, i, off / BSIZE)[off % BSIZE..off % BSIZE + len] == Content(m, i)[off0..off + len]
  {
    var c := Content(m, i);
    var chunk := FileBlock(m, i, off / BSIZE)[off % BSIZE..off % BSIZE + len];
    forall q | 0 <= q < len
      ensures chunk[q] == c[off + q]
    {
      assert (off + q) / BSIZE == off / BSIZE && (off + q) % BSIZE == off % BSIZE + q;
      assert c[off + q] == ByteAt(m, i, off + q);
    }
    assert c[off0..off + len] == c[off0..off] + c[off..off + len];
    assert chunk == c[off..off + len];
  }

  lemma OnlyMappedSame(m: Image)
    ensures OnlyMapped(m, m)
  {
  }

  lemma RangeStart(m: Image, i: nat, off: nat)
    requires i < |m.inodes| && off <= MAXFILE * BSIZE
    ensures GrownSlots(m, m, i, off / BSIZE, BlockEnd(off, 0)) && NeedFor(m, i, off, 0) == 0
  {
  }

  /** readi() so far: got is what the file holds from off0 on, and the blocks it touched have addresses. */
  ghost predicate ReadSoFar(m0: Image, m: Image, i: nat, off0: nat, got: seq<Byte>) {
    && OnlyMapped(m0, m) && i < |m0.inodes| == |m.inodes| && off0 + |got| <= m0.inodes[i].size <= MAXFILE * BSIZE
    && got == Content(m0, i)[off0..off0 + |got|]
    && GrownSlots(m0, m, i, off0 / BSIZE, BlockEnd(off0, |got|))
  }

  lemma ReadNothing(m: Image, i: nat, off: nat)
    requires i < |m.inodes| && off <= m.inodes[i].size <= MAXFILE * BSIZE
    ensures ReadSoFar(m, m, i, off, []) && NeedFor(m, i, off, 0) == 0
  {
    RangeStart(m, i, off);
  }

  lemma ReadStep(m0: Image, m: Image, m': Image, i: nat, off0: nat, got: seq<Byte>, len: nat)
    requires ReadSoFar(m0, m, i, off0, got) && off0 + |got| + len <= m0.inodes[i].size
    requires var off := off0 + |got|; 0 < len && off % BSIZE + len <= BSIZE && off / BSIZE < MAXFILE
    requires OnlyMapped(m, m') && GrownSlots(m, m', i, (off0 + |got|) / BSIZE, (off0 + |got|) / BSIZE + 1)
    ensures var off := off0 + |got|;
      ReadSoFar(m0, m', i, off0, got + FileBlock(m, i, off / BSIZE)[off % BSIZE..off % BSIZE + len])
  {
    hide Grown, GrownSlots, Slot, FileBlock, Content, Need;
    var off := off0 + |got|;
    OnlyMappedTrans(m0, m, m');
    SameContent(m0, m, i);
    assert m.inodes[i] == m0.inodes[i].(addrs := m.inodes[i].addrs);
    ChunkRead(m, i, off0, got, off, len);
    GrownNext(m0, m, m', i, off0, |got|, len);
  }

  lemma ReadNeed(m0: Image, m: Image, i: nat, off0: nat, got: seq<Byte>, len: nat, n: nat)
    requires ReadSoFar(m0, m, i, off0, got) && |got| + len <= n && off0 + n <= MAXFILE * BSIZE
    requires 0 < len && (off0 + |got|) % BSIZE + len <= BSIZE
    ensures (off0 + |got|) / BSIZE < MAXFILE
    ensures var bn := (off0 + |got|) / BSIZE;
      NeedFor(m0, i, off0, |got| + len) == NeedFor(m0, i, off0, |got|) + Need(m, i, bn, bn + 1)
    ensures NeedFor(m0, i, off0, |got| + len) <= NeedFor(m0, i, off0, n)
  {
    hide Need, GrownSlots, OnlyMapped, Content;
    NeedNext(m0, m, i, off0, |got|, len);
    NeedForMono(m0, i, off0, |got| + len, n);
  }

  /** The next stretch lies in one block, which is one of the blocks the read touches. */
  lemma ReadBounds(m: Image, i: nat, off0: nat, n: nat, off: nat, len: nat)
    requires i < |m.inodes| && off0 <= off < off0 + n <= MAXFILE * BSIZE
    requires len == Min(off0 + n - off, BSIZE - off % BSIZE)
    ensures 0 < len && off % BSIZE + len <= BSIZE && off / BSIZE < MAXFILE
    ensures AllMapped(m, i, off0 / BSIZE, BlockEnd(off0, n)) ==> Slot(m, i, off / BSIZE) != 0
  {
  }

  lemma ReadInodes(m0: Image, m: Image, i: nat, off0: nat, got: seq<Byte>)
    requires ReadSoFar(m0, m, i, off0, got)
    ensures i < |m0.inodes| == |m.inodes|
  {
  }

  lemma ReadEnd(m0: Image, m: Image, i: nat, off0: nat, got: seq<Byte>)
    requires ReadSoFar(m0, m, i, off0, got)
    ensures OnlyMapped(m0, m) && off0 + |got| <= m0.inodes[i].size <= MAXFILE * BSIZE
    ensures got == Content(m0, i)[off0..off0 + |got|]
    ensures m == m0 ==> AllMapped(m0, i, off0 / BSIZE, BlockEnd(off0, |got|))
  {
  }

  lemma SameContent(m: Image, m': Image, i: nat)
    requires OnlyMapped(m, m') && i < |m.inodes| && m.inodes[i].size <= MAXFILE * BSIZE
    ensures Content(m', i) == Content(m, i)
  {
    SameFilesBytes(m, m', i);
    assert m'.inodes[i] == m.inodes[i].(addrs := m'.inodes[i].addrs);
  }

  /**
   One file system: its data blocks and the inodes as ilock() presents them (img), and the inodes as
   they stand on disk.  `owner` names each data block's slot; `logged` collects the block numbers
   passed to log_write().
   */
  class FileSystem {
    const bm: FreeMap.FreeMap
    const nmeta: nat
    const inodestart: nat
    const bmapstart: nat
    const drivers: set<int>
    var img: Image
    var disk: seq<Inode>
    ghost var owner: Owners
    ghost var logged: set<nat>

    /** Mount a consistent image. */
    constructor (bm: FreeMap.FreeMap, nmeta: nat, inodestart: nat, bmapstart: nat, drivers: set<int>,
                 img: Image, ghost owner: Owners)
      requires bm.Valid() && bm.size == |img.data| && Inv(img, bm.used, owner, nmeta)
      ensures Valid() && this.img == img && disk == img.inodes && logged == {}
      ensures this.bm == bm && this.nmeta == nmeta && this.bmapstart == bmapstart && this.inodestart == inodestart
      ensures this.drivers == drivers && this.owner == owner
    {
      this.bm, this.nmeta, this.inodestart, this.bmapstart, this.drivers := bm, nmeta, inodestart, bmapstart, drivers;
      this.img, disk, this.owner, logged := img, img.inodes, owner, {};
    }

    ghost predicate Valid()
      reads this, bm
    {
      bm.Valid() && bm.size == |img.data| && |disk| == |img.inodes| && Inv(img, bm.used, owner, nmeta)
    }

    /** balloc(): a zeroed block, or false where fs.c panics because none is free. */
    method Balloc() returns (ok: bool, b: nat)
      requires bm.Valid() && bm.size == |img.data|
      modifies this`img, this`logged, bm
      ensures bm.Valid()
      ensures ok ==> b < old(|img.data|) == old(|bm.used|) && !old(bm.used[b]) && bm.used == old(bm.used)[b := true]
      ensures ok ==> img == PutBlock(old(img), b, Zero()) && logged == old(logged) + BallocLog(b, bmapstart)
      ensures !ok ==> img == old(img) && bm.used == old(bm.used) && logged == old(logged)
      ensures ok <==> FreeCount(old(bm.used)) > 0
      ensures ok ==> FreeCount(bm.used) == FreeCount(old(bm.used)) - 1
    {
      NoneFree(bm.used);
      ok, b := bm.Alloc();
      if ok {
        TakeFree(old(bm.used), b);
        img := PutBlock(img, b, Zero());
        logged := logged + BallocLog(b, bmapstart);
      }
    }

    /**
     bmap(): the address of block bn, allocating what is missing.  No file's contents change, and a
     block that has an address is left alone.  False, exactly when free blocks are missing, stands for
     balloc()'s panic.
     */
    method Bmap(i: nat, bn: nat) returns (ok: bool, addr: nat)
      requires Valid() && i < |img.inodes| && bn < MAXFILE
      modifies this`img, this`owner, this`logged, bm
      ensures Valid() && SameFiles(old(img), img)
      ensures ok ==> Mapped(old(img), img, i, bn, addr, bmapstart, old(logged), logged)
      ensures Slot(old(img), i, bn) != 0 ==> ok && img == old(img) && bm.used == old(bm.used) && owner == old(owner)
      ensures ok <==> Need(old(img), i, bn, bn + 1) <= FreeCount(old(bm.used))
      ensures ok ==> FreeCount(bm.used) + Need(old(img), i, bn, bn + 1) == FreeCount(old(bm.used))
    {
      if bn < NDIRECT {
        ok, addr := BmapDirect(i, bn);
      } else {
        var ind := img.inodes[i].addrs[NDIRECT];
        if ind == 0 {
          ok, ind := AllocIndirect(i);
          if !ok {
            return false, 0;
          }
        }
        ghost var m, mid := img, logged;
        ok, addr := BmapIndirect(i, bn, ind);
        if ok && m != old(img) {
          IndirectMapped(old(img), m, img, i, bn, addr, bmapstart, old(logged), mid, logged);
        }
      }
    }

    method BmapDirect(i: nat, bn: nat) returns (ok: bool, addr: nat)
      requires Valid() && i < |img.inodes| && bn < NDIRECT
      modifies this`img, this`owner, this`logged, bm
      ensures Valid() && SameFiles(old(img), img)
      ensures ok ==> Mapped(old(img), img, i, bn, addr, bmapstart, old(logged), logged)
      ensures Slot(old(img), i, bn) != 0 ==> ok && img == old(img) && bm.used == old(bm.used) && owner == old(owner)
      ensures ok <==> Need(old(img), i, bn, bn + 1) <= FreeCount(old(bm.used))
      ensures ok ==> FreeCount(bm.used) + Need(old(img), i, bn, bn + 1) == FreeCount(old(bm.used))
    {
      hide Exclusive, Exact, Grown, FileBlock, Need, FreeCount, BmapLog;
      NeedOne(img, i, bn);
      addr := img.inodes[i].addrs[bn];
      ok := true;
      if addr != 0 {
        AlreadyMapped(img, bm.used, owner, nmeta, i, bn, bmapstart, logged);
      }
      if addr == 0 {
        ghost var used := bm.used;
        ok, addr := Balloc();
        if ok {
          BmapStep(old(img), used, owner, nmeta, i, bn, addr, bmapstart, old(logged));
          img := Store(img, i, bn, addr);
          owner := owner[addr := (i, bn)];
          assert img == Allocated(old(img), i, bn, addr);
        }
      }
    }

    method AllocIndirect(i: nat) returns (ok: bool, ind: nat)
      requires Valid() && i < |img.inodes| && Slot(img, i, MAXFILE) == 0
      modifies this`img, this`owner, this`logged, bm
      ensures Valid() && SameFiles(old(img), img)
      ensures ok ==> GotIndirect(old(img), img, i) && ind == Slot(img, i, MAXFILE)
      ensures ok ==> logged == old(logged) + BallocLog(ind, bmapstart)
      ensures ok <==> FreeCount(old(bm.used)) > 0
      ensures ok ==> FreeCount(bm.used) == FreeCount(old(bm.used)) - 1
    {
      hide Exclusive, Exact, GotIndirect, FileBlock, FreeCount;
      ghost var used := bm.used;
      ok, ind := Balloc();
      if ok {
        IndirectStep(old(img), used, owner, nmeta, i, ind);
        img := Store(img, i, MAXFILE, ind);
        owner := owner[ind := (i, MAXFILE)];
        assert img == Allocated(old(img), i, MAXFILE, ind);
      }
    }

    /** bmap() beyond the direct blocks, once the indirect block is there. */
    method BmapIndirect(i: nat, bn: nat, ind: nat) returns (ok: bool, addr: nat)
      requires Valid() && i < |img.inodes| && NDIRECT <= bn < MAXFILE && Slot(img, i, MAXFILE) == ind != 0
      modifies this`img, this`owner, this`logged, bm
      ensures Valid() && SameFiles(old(img), img)
      ensures ok ==> Mapped(old(img), img, i, bn, addr, bmapstart, old(logged), logged)
      ensures Slot(old(img), i, bn) != 0 ==> ok && img == old(img) && bm.used == old(bm.used) && owner == old(owner)
      ensures ok <==> Need(old(img), i, bn, bn + 1) <= FreeCount(old(bm.used))
      ensures ok ==> FreeCount(bm.used) + Need(old(img), i, bn, bn + 1) == FreeCount(old(bm.used))
    {
      hide Exclusive, Exact, Grown, FileBlock, Need, FreeCount, BmapLog;
      NeedOne(img, i, bn);
      SlotsInRange(img, bm.used, owner, nmeta, i);
      addr := Word(img.data[ind], bn - NDIRECT);
      ok := true;
      if addr != 0 {
        AlreadyMapped(img, bm.used, owner, nmeta, i, bn, bmapstart, logged);
      }
      if addr == 0 {
        ghost var used := bm.used;
        ok, addr := Balloc();
        if ok {
          BmapStep(old(img), used, owner, nmeta, i, bn, addr, bmapstart, old(logged));
          img := Store(img, i, bn, addr);
          logged := logged + {ind};
          owner := owner[addr := (i, bn)];
          assert img == Allocated(old(img), i, bn, addr);
          assert Inv(img, bm.used, owner, nmeta);
          assert logged == old(logged) + {ind} + BallocLog(addr, bmapstart);
        }
      }
    }

    /** iupdate(): copy the in-memory inode to disk. */
    method Iupdate(i: nat)
      requires i < |img.inodes| == |disk|
      modifies this`disk, this`logged
      ensures disk == old(disk)[i := img.inodes[i]] && logged == old(logged) + {i / IPB + inodestart}
    {
      disk := disk[i := img.inodes[i]];
      logged := logged + {i / IPB + inodestart};
    }

    /** writei()'s copy loop, for a range that fits a file. */
    method CopyIn(i: nat, src: seq<Byte>, off0: nat) returns (ok: bool)
      requires Valid() && i < |img.inodes| && off0 + |src| <= MAXFILE * BSIZE
      modifies this`img, this`owner, this`logged, bm
      ensures Valid() && |img.inodes| == old(|img.inodes|)
      ensures ok && src != [] ==>
        Copying(old(img), img, i, off0, src, (off0 + |src| - 1) / BSIZE + 1, old(|logged|), logged)
      ensures src == [] ==> ok && img == old(img) && logged == old(logged) && bm.used == old(bm.used)
      ensures ok <==> NeedFor(old(img), i, off0, |src|) <= FreeCount(old(bm.used))
      ensures ok ==> FreeCount(bm.used) + NeedFor(old(img), i, off0, |src|) == FreeCount(old(bm.used))
    {
      hide Grown, BlocksWritten, Exclusive, Exact, LogCost, TouchesIndirect, Slot, Need, FreeCount;
      var n := |src|;
      var tot, off := 0, off0;
      ghost var hi: nat := off0 / BSIZE;
      CopyStart(img, i, off0, src, logged);
      NeedNothing(img, i, hi);
      while tot < n
        invariant off == off0 + tot && tot <= n && hi <= MAXFILE
        invariant FreeCount(bm.used) + Need(old(img), i, off0 / BSIZE, hi) == FreeCount(old(bm.used))
        invariant tot == 0 ==> img == old(img) && logged == old(logged) && bm.used == old(bm.used)
        invariant 0 < tot < n ==> off % BSIZE == 0
        invariant tot < n ==> hi == off / BSIZE
        invariant tot == n > 0 ==> hi == (off0 + n - 1) / BSIZE + 1
        invariant Valid() && Copying(old(img), img, i, off0, src, hi, old(|logged|), logged)
      {
        var len := Min(n - tot, BSIZE - off % BSIZE);
        CopyBounds(off0, n, tot, off, len);
        ok := CopyBlock(i, src, tot, off, len, off0, old(img), old(|logged|), FreeCount(old(bm.used)));
        if !ok {
          NeedMono(old(img), i, off0 / BSIZE, hi + 1, (off0 + n - 1) / BSIZE + 1);
          return false;
        }
        hi := hi + 1;
        tot, off := tot + len, off + len;
      }
      return true;
    }

    /** One iteration: len bytes of src from tot go into the block that holds off. */
    method CopyBlock(i: nat, src: seq<Byte>, tot: nat, off: nat, len: nat, ghost off0: nat, ghost m0: Image,
                     ghost base: nat, ghost free0: nat)
        returns (ok: bool)
      requires Valid() && i < |img.inodes| && off0 + |src| <= MAXFILE * BSIZE
      requires
        && tot < |src| && off == off0 + tot && (0 < tot ==> off % BSIZE == 0)
        && len == Min(|src| - tot, BSIZE - off % BSIZE)
      requires Copying(m0, img, i, off0, src, off / BSIZE, base, logged)
      requires FreeCount(bm.used) + Need(m0, i, off0 / BSIZE, off / BSIZE) == free0
      modifies this`img, this`owner, this`logged, bm
      ensures Valid() && |img.inodes| == old(|img.inodes|)
      ensures ok ==> Copying(m0, img, i, off0, src, off / BSIZE + 1, base, logged)
      ensures ok <==> Need(m0, i, off0 / BSIZE, off / BSIZE + 1) <= free0
      ensures ok ==> FreeCount(bm.used) + Need(m0, i, off0 / BSIZE, off / BSIZE + 1) == free0
    {
      hide Grown, BlocksWritten, SameFiles, Exclusive, Exact, LogCost, TouchesIndirect, BmapLog, BlockAfter, Slot, Need;
      hide FreeCount;
      ghost var m, before := img, logged;
      CopyNeed(m0, m, i, off0, src, off / BSIZE, base, logged);
      var addr;
      ok, addr := Bmap(i, off / BSIZE);
      if ok {
        ghost var m1, mid := img, logged;
        ChunkIsPart(img.data[addr], off0, src, tot, off, len);
        img := PutBlock(img, addr, Patch(img.data[addr], off % BSIZE, src[tot..tot + len]));
        logged := logged + {addr};
        CopyStep(m0, m, m1, img, bm.used, owner, nmeta, i, off0, src, off / BSIZE, addr, bmapstart, base, before, mid);
      }
    }

    /**
     writei().  Device inodes go to their driver.  Otherwise the write is refused exactly when it would
     leave a gap or exceed the largest file (the uint sum may wrap and is still refused); else the file's
     contents are spliced and, if the file grew, the inode is written through.
     */
    method Writei(i: nat, src: seq<Byte>, off: nat) returns (r: Outcome<nat>)
      requires Valid() && i < |img.inodes| && off < UINT && |src| < UINT
      modifies this`img, this`owner, this`logged, this`disk, bm
      ensures Valid() && |img.inodes| == old(|img.inodes|)
      ensures var ip := old(img.inodes[i]);
        && (ip.kind == T_DEV ==> r == if ip.major in drivers then ToDevice else Failed)
        && (ip.kind != T_DEV ==> !r.ToDevice? && (r.Failed? <==> off > ip.size || off + |src| > MAXFILE * BSIZE))
      ensures r.OutOfBlocks? <==>
        && old(img.inodes[i]).kind != T_DEV && off <= old(img.inodes[i]).size && off + |src| <= MAXFILE * BSIZE
        && NeedFor(old(img), i, off, |src|) > FreeCount(old(bm.used))
      ensures r.Failed? || r.ToDevice? ==>
        img == old(img) && disk == old(disk) && logged == old(logged) && bm.used == old(bm.used)
      ensures r.Done? ==> r.value == |src| && Wrote(old(img), img, i, off, src)
      ensures r.Done? ==> FreeCount(bm.used) + NeedFor(old(img), i, off, |src|) == FreeCount(old(bm.used))
      ensures r.Done? && old(Sound(i)) ==> Sound(i)
      ensures r.Done? ==>
        disk == if img.inodes[i].size != old(img.inodes[i].size) then old(disk)[i := img.inodes[i]] else old(disk)
      ensures r.Done? && src != [] ==>
        |logged| <= old(|logged|) + LogCost(old(img), i, off / BSIZE, (off + |src| - 1) / BSIZE + 1) + 1
      ensures r.Done? && src == [] ==> logged == old(logged)
    {
      hide Inv, NeedFor, Grown, BlocksWritten, Slot, FileBlock, Content, Splice, LogCost, TouchesIndirect, Need;
      hide FreeCount, HoleFree, Wrote;
      ShapeOf(img, bm.used, owner, nmeta, i);
      var ip := img.inodes[i];
      if ip.kind == T_DEV {
        return if ip.major in drivers then ToDevice else Failed;
      }
      var n := |src|;
      if off > ip.size || AddU(off, n) < off {
        return Failed;
      }
      if AddU(off, n) > MAXFILE * BSIZE {
        return Failed;
      }
      ghost var m0, base := img, |logged|;
      var ok := CopyIn(i, src, off);
      if !ok {
        return OutOfBlocks;
      }
      if n > 0 && off + n > img.inodes[i].size {
        ghost var m1, mid := img, logged;
        GrownFields(m0, m1, i, off, src, base, logged);
        ResizeStep(img, bm.used, owner, nmeta, i, img.inodes[i].(size := off + n));
        img := WithSize(img, i, off + n);
        Iupdate(i);
        CopyIsWrite(m0, m1, img, i, off, src, base, mid);
      } else if n == 0 {
        WroteNothing(m0, i, off);
      } else {
        GrownFields(m0, img, i, off, src, base, logged);
        assert img == WithSize(img, i, img.inodes[i].size);
        CopyIsWrite(m0, img, img, i, off, src, base, logged);
      }
      if old(Sound(i)) {
        StaysSound(m0, img, i, off, src);
      }
      return Done(n);
    }

    /** One iteration of readi(): len bytes at off, all in one block. */
    method ReadBlock(i: nat, off: nat, len: nat) returns (ok: bool, chunk: seq<Byte>)
      requires Valid() && i < |img.inodes| && off / BSIZE < MAXFILE && off % BSIZE + len <= BSIZE
      modifies this`img, this`owner, this`logged, bm
      ensures Valid() && |img.inodes| == old(|img.inodes|)
      ensures
        ok ==> OnlyMapped(old(img), img) && chunk == FileBlock(old(img), i, off / BSIZE)[off % BSIZE..off % BSIZE + len]
      ensures Slot(old(img), i, off / BSIZE) != 0 ==>
        ok && img == old(img) && bm.used == old(bm.used) && owner == old(owner) && logged == old(logged)
      ensures ok <==> Need(old(img), i, off / BSIZE, off / BSIZE + 1) <= FreeCount(old(bm.used))
      ensures ok ==> FreeCount(bm.used) + Need(old(img), i, off / BSIZE, off / BSIZE + 1) == FreeCount(old(bm.used))
      ensures ok ==> GrownSlots(old(img), img, i, off / BSIZE, off / BSIZE + 1)
    {
      hide Exclusive, Exact, Grown, Slot, FileBlock, Need, FreeCount;
      var addr;
      ok, addr := Bmap(i, off / BSIZE);
      chunk := [];
      if ok {
        MappedOnly(old(img), img, i, off / BSIZE, addr, bmapstart, old(logged), logged);
        GrownIsSlots(old(img), img, i, off / BSIZE, off / BSIZE + 1);
        chunk := img.data[addr][off % BSIZE..off % BSIZE + len];
      }
    }

    /** readi()'s loop, for a range inside the file. */
    method ReadIn(i: nat, off0: nat, n: nat) returns (ok: bool, dst: seq<Byte>)
      requires Valid() && i < |img.inodes| && off0 + n <= img.inodes[i].size <= MAXFILE * BSIZE
      modifies this`img, this`owner, this`logged, bm
      ensures Valid() && |img.inodes| == old(|img.inodes|)
      ensures ok <==> NeedFor(old(img), i, off0, n) <= FreeCount(old(bm.used))
      ensures ok ==> OnlyMapped(old(img), img) && |dst| == n && dst == Content(old(img), i)[off0..off0 + n]
      ensures ok ==> FreeCount(bm.used) + NeedFor(old(img), i, off0, n) == FreeCount(old(bm.used))
      ensures ok ==> (img == old(img) <==> AllMapped(old(img), i, off0 / BSIZE, BlockEnd(off0, n)))
      ensures AllMapped(old(img), i, off0 / BSIZE, BlockEnd(off0, n)) ==>
        ok && img == old(img) && bm.used == old(bm.used) && logged == old(logged)
    {
      hide Grown, GrownSlots, Slot, FileBlock, Content, Need, FreeCount, AllMapped, OnlyMapped, ReadSoFar, NeedFor;
      hide BlockEnd, Inv;
      var tot, off := 0, off0;
      dst := [];
      ReadNothing(img, i, off0);
      while tot < n
        invariant tot <= n && off == off0 + tot && |dst| == tot && Valid()
        invariant ReadSoFar(old(img), img, i, off0, dst)
        invariant AllMapped(old(img), i, off0 / BSIZE, BlockEnd(off0, n)) ==>
          img == old(img) && bm.used == old(bm.used) && logged == old(logged)
        invariant FreeCount(bm.used) + NeedFor(old(img), i, off0, tot) == FreeCount(old(bm.used))
      {
        var m := Min(n - tot, BSIZE - off % BSIZE);
        ghost var before := img;
        ReadBounds(old(img), i, off0, n, off, m);
        ReadInodes(old(img), img, i, off0, dst);
        ReadNeed(old(img), img, i, off0, dst, m, n);
        var got, chunk := ReadBlock(i, off, m);
        if !got {
          return false, dst;
        }
        ReadStep(old(img), before, img, i, off0, dst, m);
        dst := dst + chunk;
        tot, off := tot + m, off + m;
      }
      ReadEnd(old(img), img, i, off0, dst);
      return true, dst;
    }

    /**
     readi() returns exactly bytes [off, min(off + n, size)) of the file.  It may allocate blocks for
     holes but changes no file's contents; it changes nothing at all exactly when it meets no hole, and
     runs out of blocks exactly when the holes it meets take more than there are.
     */
    method Readi(i: nat, off0: nat, n0: nat) returns (r: Outcome<seq<Byte>>)
      requires Valid() && i < |img.inodes| && off0 < UINT && n0 < UINT
      modifies this`img, this`owner, this`logged, bm
      ensures Valid() && |img.inodes| == old(|img.inodes|)
      ensures var ip := old(img.inodes[i]);
        && (ip.kind == T_DEV ==> r == if ip.major in drivers then ToDevice else Failed)
        && (ip.kind != T_DEV ==> !r.ToDevice? && (r.Failed? <==> off0 > ip.size || off0 + n0 >= UINT))
      ensures !r.OutOfBlocks? ==> OnlyMapped(old(img), img)
      ensures r.Done? ==>
        && off0 <= old(img.inodes[i].size) <= MAXFILE * BSIZE
        && r.value == Content(old(img), i)[off0..Min(off0 + n0, old(img.inodes[i].size))]
      ensures HoleFree(old(img), i) || r.Failed? || r.ToDevice? ==>
        !r.OutOfBlocks? && img == old(img) && bm.used == old(bm.used) && logged == old(logged)
      ensures r.Done? ==>
        (img == old(img) <==> AllMapped(old(img), i, off0 / BSIZE, BlockEnd(off0, |r.value|)))
      ensures r.OutOfBlocks? <==>
        var ip := old(img.inodes[i]);
        && ip.kind != T_DEV && off0 <= ip.size <= MAXFILE * BSIZE && off0 + n0 < UINT
        && NeedFor(old(img), i, off0, Min(n0, ip.size - off0)) > FreeCount(old(bm.used))
      ensures r.Done? ==> FreeCount(bm.used) + NeedFor(old(img), i, off0, |r.value|) == FreeCount(old(bm.used))
    {
      hide Exclusive, Exact, Grown, GrownSlots, Slot, FileBlock, Content, Need, FreeCount, HoleFree, AllMapped;
      hide OnlyMapped, ReadSoFar, NeedFor, BlockEnd, Inv;
      ShapeOf(img, bm.used, owner, nmeta, i);
      OnlyMappedSame(img);
      var ip := img.inodes[i];
      if ip.kind == T_DEV {
        return if ip.major in drivers then ToDevice else Failed;
      }
      if off0 > ip.size || AddU(off0, n0) < off0 {
        return Failed;
      }
      var n := if AddU(off0, n0) > ip.size then ip.size - off0 else n0;
      if HoleFree(img, i) {
        HoleFreeMapped(img, i, off0, n);
      }
      var ok, dst := ReadIn(i, off0, n);
      return if ok then Done(dst) else OutOfBlocks;
    }

    /** bfree() of a block that is in use: the panic "freeing free block" does not happen. */
    method Bfree(b: nat)
      requires bm.Valid() && b < bm.size && bm.used[b]
      modifies this`logged, bm
      ensures bm.Valid() && bm.used == old(bm.used)[b := false]
      ensures logged == old(logged) + {BitmapBlock(b, bmapstart)}
    {
      var ok := bm.Free(b);
      assert ok;
      logged := logged + {BitmapBlock(b, bmapstart)};
    }

    method TruncDirect(i: nat)
      requires Valid() && i < |img.inodes|
      modifies this`img, this`owner, this`logged, bm
      ensures Valid() && owner == Without(old(owner), i, NDIRECT)
      ensures img.data == old(img.data) && DirectCleared(old(img.inodes), img.inodes, i, NDIRECT)
    {
      hide InvBut, Without;
      ShapeOf(img, bm.used, owner, nmeta, i);
      var t := 0;
      assert owner == Without(owner, i, 0) by { WithoutNone(owner, i); }
      while t < NDIRECT
        invariant t <= NDIRECT && Valid() && owner == Without(old(owner), i, t)
        invariant img.data == old(img.data) && DirectCleared(old(img.inodes), img.inodes, i, t)
      {
        WithoutStep(img, bm.used, old(owner), nmeta, i, t, 0, 0, 0);
        var b := img.inodes[i].addrs[t];
        if b != 0 {
          ClearDirectStep(img, bm.used, owner, nmeta, i, t);
          Bfree(b);
          owner := owner - {b};
          img := Store(img, i, t, 0);
        }
        t := t + 1;
      }
    }

    /** The indirect entries are freed in place; the indirect block itself goes last. */
    method TruncIndirect(i: nat, ghost owner0: Owners)
      requires Valid() && i < |img.inodes| && Slot(img, i, MAXFILE) != 0 && owner == Without(owner0, i, NDIRECT)
      modifies this`img, this`owner, this`logged, bm
      ensures Valid() && owner == Without(owner0, i, MAXFILE + 1)
      ensures |old(img).inodes[i].addrs| == NDIRECT + 1 && img == Store(old(img), i, MAXFILE, 0)
    {
      hide Exclusive, Exact, Without;
      FreshExempt(img, bm.used, owner, nmeta, i);
      SlotsInRange(img, bm.used, owner, nmeta, i);
      var ind := img.inodes[i].addrs[NDIRECT];
      var t := NDIRECT;
      while t < MAXFILE
        invariant NDIRECT <= t <= MAXFILE && img == old(img) && bm.Valid()
        invariant InvBut(img, bm.used, owner, nmeta, i, NDIRECT, t) && owner == Without(owner0, i, t)
      {
        WithoutStep(img, bm.used, owner0, nmeta, i, t, i, NDIRECT, t);
        var b := Word(img.data[ind], t - NDIRECT);
        if b != 0 {
          FreeIndirectStep(img, bm.used, owner, nmeta, i, t);
          Bfree(b);
          owner := owner - {b};
        } else {
          SkipIndirectStep(img, bm.used, owner, nmeta, i, t);
        }
        t := t + 1;
      }
      WithoutStep(img, bm.used, owner0, nmeta, i, MAXFILE, i, NDIRECT, MAXFILE);
      ClearIndirectStep(img, bm.used, owner, nmeta, i);
      Bfree(ind);
      owner := owner - {ind};
      img := Store(img, i, MAXFILE, 0);
    }

    /**
     itrunc() frees exactly the blocks inode i named, empties the inode on disk and in memory, and
     leaves every other inode and every block's contents alone.
     */
    method Itrunc(i: nat)
      requires Valid() && i < |img.inodes|
      modifies this`img, this`owner, this`logged, this`disk, bm
      ensures Valid()
      ensures forall b :: 0 <= b < |bm.used| == old(|bm.used|) ==>
        (bm.used[b] <==> old(bm.used[b]) && !Named(old(img), i, b))
      ensures img.data == old(img.data)
      ensures img.inodes == old(img.inodes)[i := old(img.inodes[i]).(size := 0, addrs := seq(NDIRECT + 1, _ => 0))]
      ensures disk == old(disk)[i := img.inodes[i]] && Sound(i)
    {
      hide Exclusive, Exact, Without;
      ghost var m0, used0, owner0 := img, bm.used, owner;
      TruncDirect(i);
      if img.inodes[i].addrs[NDIRECT] != 0 {
        TruncIndirect(i, owner0);
      } else {
        WithoutIndirect(img, bm.used, owner0, nmeta, i);
      }
      ResizeStep(img, bm.used, owner, nmeta, i, img.inodes[i].(size := 0));
      img := WithSize(img, i, 0);
      Iupdate(i);
      Truncated(m0, used0, owner0, nmeta, i, img, bm.used);
      assert img.inodes[i].addrs == seq(NDIRECT + 1, _ => 0);
    }

    /** The file has no hole and its inode on disk is up to date. */
    ghost predicate Sound(i: nat)
      reads this
    {
      i < |img.inodes| == |disk| && HoleFree(img, i) && disk[i] == img.inodes[i]
    }

    /** One operation of filewrite(), from begin_op() to end_op(): on a sound file what it logs fits its reservation. */
    method FileWriteOp(i: nat, chunk: seq<Byte>, off: nat) returns (r: Outcome<nat>)
      requires Valid() && i < |img.inodes| && off < UINT && 0 < |chunk| <= 3 * BSIZE
      modifies this`img, this`owner, this`logged, this`disk, bm
      ensures Valid() && |img.inodes| == old(|img.inodes|)
      ensures var ip := old(img.inodes[i]);
        && (ip.kind == T_DEV ==> r == if ip.major in drivers then ToDevice else Failed)
        && (ip.kind != T_DEV ==> !r.ToDevice? && (r.Failed? <==> off > ip.size || off + |chunk| > MAXFILE * BSIZE))
      ensures r.OutOfBlocks? <==>
        && old(img.inodes[i]).kind != T_DEV && off <= old(img.inodes[i]).size && off + |chunk| <= MAXFILE * BSIZE
        && NeedFor(old(img), i, off, |chunk|) > FreeCount(old(bm.used))
      ensures r.Failed? || r.ToDevice? ==>
        img == old(img) && disk == old(disk) && bm.used == old(bm.used) && logged == {}
      ensures r.Done? ==>
        && Wrote(old(img), img, i, off, chunk)
        && FreeCount(bm.used) + NeedFor(old(img), i, off, |chunk|) == FreeCount(old(bm.used))
      ensures !r.OutOfBlocks? && old(Sound(i)) ==> Sound(i) && |logged| <= MAXOPBLOCKS
    {
      hide Exclusive, Exact, Slot, FileBlock, Content, Splice, Wrote, LogCost, HoleFree, Need, FreeCount;
      ghost var m := img;
      ShapeOf(m, bm.used, owner, nmeta, i);
      logged := {};
      r := Writei(i, chunk, off);
      if r.Done? && old(Sound(i)) {
        ChunkFitsReservation(m, i, off, |chunk|);
      }
    }

    /**
     filewrite() on an inode, in operations of at most three blocks' worth of bytes.  It succeeds exactly
     when the whole range fits a file and starts inside it; when it fails it has written a prefix.  On a
     sound file each operation logs at most MAXOPBLOCKS blocks (ops lists what each one logged) and the
     inode on disk is never left behind.
     */
    method FileWrite(i: nat, src: seq<Byte>, off0: nat, writable: bool)
        returns (r: Outcome<nat>, off: nat, ghost ops: seq<set<nat>>)
      requires Valid() && i < |img.inodes| && off0 < UINT && |src| < UINT
      modifies this`img, this`owner, this`logged, this`disk, bm
      ensures Valid() && |img.inodes| == old(|img.inodes|)
      ensures r.Done? ==> r.value == |src| && off == off0 + |src|
      ensures !r.OutOfBlocks? ==> off0 <= off <= off0 + |src|
      ensures !r.OutOfBlocks? && off0 <= old(img.inodes[i].size) ==> Appended(old(img), img, i, off0, src[..off - off0])
      ensures !r.OutOfBlocks? && off0 > old(img.inodes[i].size) ==> off == off0 && img == old(img)
      ensures old(img.inodes[i]).kind != T_DEV && !r.OutOfBlocks? ==>
        (r.Done? <==> writable && (src == [] || (off0 <= old(img.inodes[i].size) && off0 + |src| <= MAXFILE * BSIZE)))
      ensures r.ToDevice? <==>
        old(img.inodes[i]).kind == T_DEV && old(img.inodes[i]).major in drivers && writable && src != []
      ensures r.OutOfBlocks? <==>
        var ip := old(img.inodes[i]);
        && writable && ip.kind != T_DEV && off0 <= ip.size <= MAXFILE * BSIZE
        && NeedFor(old(img), i, off0, Fitting(off0, |src|)) > FreeCount(old(bm.used))
      ensures writable && old(img.inodes[i]).kind != T_DEV && off0 <= old(img.inodes[i]).size && !r.OutOfBlocks? ==>
        && off == off0 + Fitting(off0, |src|)
        && FreeCount(bm.used) + NeedFor(old(img), i, off0, Fitting(off0, |src|)) == FreeCount(old(bm.used))
      ensures old(Sound(i)) && !r.OutOfBlocks? ==> Sound(i)
      ensures old(Sound(i)) ==> forall k :: 0 <= k < |ops| ==> |ops[k]| <= MAXOPBLOCKS
    {
      hide Exclusive, Exact, Slot, FileBlock, Content, Splice, Wrote, HoleFree, NeedFor, FreeCount, Appended;
      hide Inv, BlockEnd, Sound;
      off, ops := off0, [];
      ShapeOf(img, bm.used, owner, nmeta, i);
      if off0 <= img.inodes[i].size {
        AppendNothing(img, bm.used, owner, nmeta, i, off0);
        RangeStart(img, i, off0);
      }
      if !writable {
        return Failed, off, ops;
      }
      var max := (MAXOPBLOCKS - 1 - 1 - 2) / 2 * 512;
      var n, done := |src|, 0;
      while done < n
        invariant done <= n && off == off0 + done && Valid() && |img.inodes| == old(|img.inodes|)
        invariant done == 0 ==> img == old(img)
        invariant
          done > 0 ==> old(img.inodes[i]).kind != T_DEV && off0 <= old(img.inodes[i].size) && off <= MAXFILE * BSIZE
        invariant off0 <= old(img.inodes[i].size) ==> Appended(old(img), img, i, off0, src[..done])
        invariant off0 <= old(img.inodes[i].size) ==>
          && off <= MAXFILE * BSIZE
          && FreeCount(bm.used) + NeedFor(old(img), i, off0, done) == FreeCount(old(bm.used))
        invariant done == n || done % max == 0
        invariant old(Sound(i)) ==> Sound(i) && forall k :: 0 <= k < |ops| ==> |ops[k]| <= MAXOPBLOCKS
      {
        var n1 := Min(n - done, max);
        ghost var m := img;
        if off0 <= old(img.inodes[i].size) {
          AppendedSize(old(img), m, i, off0, src[..done]);
          FittingStep(off0, n, done, n1);
          if off + n1 <= MAXFILE * BSIZE {
            AppendNeed(old(img), m, i, off0, src[..done], n1, Fitting(off0, n));
          }
        }
        var r1 := FileWriteOp(i, src[done..done + n1], off);
        if r1.OutOfBlocks? || r1.ToDevice? {
          return r1, off, ops;
        }
        ops := ops + [logged];
        if r1.Failed? {
          break;
        }
        AppendStep(old(img), m, img, i, off0, src[..done], src[done..done + n1]);
        assert src[..done] + src[done..done + n1] == src[..done + n1];
        AppendedSize(old(img), img, i, off0, src[..done + n1]);
        done, off := done + n1, off + n1;
      }
      return if done == n then Done(n) else Failed, off, ops;
    }
  }
}
