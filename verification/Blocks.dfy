/**
 The inode and block layer of fs.c as a value: which disk block each inode slot names, who owns each
 block, and what the inode's file holds.  The steps of bmap(), writei() and itrunc() on such a value
 keep ownership exclusive and the free map exact.
 */
module Blocks {

  import opened Params

  const NDIRECT: nat := 12
  const NINDIRECT: nat := 128
  const MAXFILE: nat := 140

  type Byte = x: int | 0 <= x < 256
  type Block = b: seq<Byte> | |b| == BSIZE witness seq(BSIZE, _ => 0)

  /** What bzero() leaves. */
  function Zero(): (b: Block)
    ensures forall k :: 0 <= k < BSIZE ==> b[k] == 0
  {
    seq(BSIZE, _ => 0)
  }

  /** The fields of struct dinode; addrs[NDIRECT] is the indirect block. */
  datatype Inode = Inode(kind: int, major: int, nlink: int, size: nat, addrs: seq<nat>)

  datatype Image = Image(data: seq<Block>, inodes: seq<Inode>)

  // ---------------------------------------------------------------- an indirect block as uints

  /** ((uint*)bp->data)[j], little-endian */
  function Word(b: Block, j: nat): nat
    requires j < NINDIRECT
  {
    b[4 * j] as int + 0x100 * b[4 * j + 1] as int + 0x1_0000 * b[4 * j + 2] as int + 0x100_0000 * b[4 * j + 3] as int
  }

  function SetWord(b: Block, j: nat, v: nat): Block
    requires j < NINDIRECT && v < UINT
  {
    b[4 * j := v % 0x100][4 * j + 1 := v / 0x100 % 0x100]
     [4 * j + 2 := v / 0x1_0000 % 0x100][4 * j + 3 := v / 0x100_0000]
  }

  lemma WordSet(b: Block, j: nat, v: nat)
    requires j < NINDIRECT && v < UINT
    ensures Word(SetWord(b, j, v), j) == v
    ensures forall k :: 0 <= k < NINDIRECT && k != j ==> Word(SetWord(b, j, v), k) == Word(b, k)
  {
    assert v / 0x100_0000 == v / 0x1_0000 / 0x100 && v / 0x1_0000 == v / 0x100 / 0x100;
  }

  lemma WordZero(j: nat)
    requires j < NINDIRECT
    ensures Word(Zero(), j) == 0
  {
  }

  // ---------------------------------------------------------------- slots and contents

  /** Slots 0..MAXFILE-1 are a file's blocks in order; slot MAXFILE is its indirect block. */
  function Slot(m: Image, i: nat, s: nat): nat
    requires i < |m.inodes| && s <= MAXFILE
  {
    if |m.inodes[i].addrs| != NDIRECT + 1 then 0
    else if s < NDIRECT then m.inodes[i].addrs[s]
    else if s == MAXFILE then m.inodes[i].addrs[NDIRECT]
    else if 0 < m.inodes[i].addrs[NDIRECT] < |m.data| then Word(m.data[m.inodes[i].addrs[NDIRECT]], s - NDIRECT)
    else 0
  }

  /** The k-th block of inode i's file; a block never written reads as zeroes. */
  function FileBlock(m: Image, i: nat, k: nat): Block
    requires i < |m.inodes| && k < MAXFILE
  {
    if 0 < Slot(m, i, k) < |m.data| then m.data[Slot(m, i, k)] else Zero()
  }

  function ByteAt(m: Image, i: nat, p: nat): Byte
    requires i < |m.inodes| && p < MAXFILE * BSIZE
  {
    FileBlock(m, i, p / BSIZE)[p % BSIZE]
  }

  /** The byte sequence inode i stands for. */
  function Content(m: Image, i: nat): (c: seq<Byte>)
    requires i < |m.inodes| && m.inodes[i].size <= MAXFILE * BSIZE
    ensures |c| == m.inodes[i].size
  {
    seq(m.inodes[i].size, p requires 0 <= p < m.inodes[i].size => ByteAt(m, i, p))
  }

  /** Two images in which every file block of every inode reads the same. */
  ghost predicate SameFiles(m: Image, m': Image) {
    && |m'.inodes| == |m.inodes|
    && forall j, k :: 0 <= j < |m.inodes| && 0 <= k < MAXFILE ==> FileBlock(m', j, k) == FileBlock(m, j, k)
  }

  // ---------------------------------------------------------------- the invariant

  /** A block's owner: an inode and one of its slots. */
  type Owners = map<nat, (nat, nat)>

  ghost predicate Shape(m: Image) {
    forall i :: 0 <= i < |m.inodes| ==> |m.inodes[i].addrs| == NDIRECT + 1 && m.inodes[i].size <= MAXFILE * BSIZE
  }

  /**
   Every block an inode names, outside slots [lo, hi) of inode x, is owned by that very slot, so no
   block is named twice; every owned block is a data block named by its owner.
   */
  ghost predicate Exclusive(m: Image, owner: Owners, nmeta: nat, x: nat, lo: nat, hi: nat) {
    && (forall i, s :: 0 <= i < |m.inodes| && 0 <= s <= MAXFILE && !(i == x && lo <= s < hi) && Slot(m, i, s) != 0 ==>
          Slot(m, i, s) in owner && owner[Slot(m, i, s)] == (i, s))
    && (forall b :: b in owner ==>
          && nmeta <= b < |m.data| && owner[b].0 < |m.inodes| && owner[b].1 <= MAXFILE
          && !(owner[b].0 == x && lo <= owner[b].1 < hi) && Slot(m, owner[b].0, owner[b].1) == b)
  }

  /** A bitmap bit is set exactly for the metadata blocks and the owned blocks. */
  ghost predicate Exact(used: seq<bool>, owner: Owners, nmeta: nat) {
    forall b :: 0 <= b < |used| ==> (used[b] <==> b < nmeta || b in owner)
  }

  ghost predicate InvBut(m: Image, used: seq<bool>, owner: Owners, nmeta: nat, x: nat, lo: nat, hi: nat) {
    && 1 <= nmeta <= |used| == |m.data| <= UINT
    && Shape(m) && Exclusive(m, owner, nmeta, x, lo, hi) && Exact(used, owner, nmeta)
  }

  ghost predicate Inv(m: Image, used: seq<bool>, owner: Owners, nmeta: nat) {
    InvBut(m, used, owner, nmeta, 0, 0, 0)
  }

  /** The number of clear bits. */
  ghost function FreeCount(used: seq<bool>): nat {
    if used == [] then 0 else FreeCount(used[..|used| - 1]) + if used[|used| - 1] then 0 else 1
  }

  lemma {:induction false} NoneFree(used: seq<bool>)
    ensures FreeCount(used) == 0 <==> forall b :: 0 <= b < |used| ==> used[b]
  {
    if used != [] {
      var rest := used[..|used| - 1];
      NoneFree(rest);
      assert forall b :: 0 <= b < |rest| ==> rest[b] == used[b];
    }
  }

  lemma {:induction false} TakeFree(used: seq<bool>, b: nat)
    requires b < |used| && !used[b]
    ensures FreeCount(used[b := true]) + 1 == FreeCount(used)
  {
    var n := |used| - 1;
    if b < n {
      TakeFree(used[..n], b);
      assert used[b := true][..n] == used[..n][b := true];
    } else {
      assert used[b := true][..n] == used[..n];
    }
  }

  /**
   What the invariant says without naming owners: a bit is set exactly for metadata blocks and blocks
   named by some slot, and no two slots name the same block.
   */
  lemma FreeMapExact(m: Image, used: seq<bool>, owner: Owners, nmeta: nat)
    requires Inv(m, used, owner, nmeta)
    ensures forall b :: 0 <= b < |used| ==>
      (used[b] <==> b < nmeta || exists i, s :: 0 <= i < |m.inodes| && 0 <= s <= MAXFILE && Slot(m, i, s) == b)
    ensures forall i, s, j, t ::
      0 <= i < |m.inodes| && 0 <= s <= MAXFILE && 0 <= j < |m.inodes| && 0 <= t <= MAXFILE ==>
        Slot(m, i, s) == Slot(m, j, t) != 0 ==> i == j && s == t
    ensures forall i, s :: 0 <= i < |m.inodes| && 0 <= s <= MAXFILE && Slot(m, i, s) != 0 ==>
      nmeta <= Slot(m, i, s) < |m.data|
  {
    forall b | 0 <= b < |used| && used[b] && b >= nmeta
      ensures exists i, s :: 0 <= i < |m.inodes| && 0 <= s <= MAXFILE && Slot(m, i, s) == b
    {
      var (i, s) := owner[b];
      assert Slot(m, i, s) == b;
    }
  }

  /** The two directions of Exclusive, one block at a time. */
  lemma SlotOwned(m: Image, owner: Owners, nmeta: nat, x: nat, lo: nat, hi: nat, i: nat, s: nat)
    requires Exclusive(m, owner, nmeta, x, lo, hi) && i < |m.inodes| && s <= MAXFILE
    ensures Slot(m, i, s) != 0 && !(i == x && lo <= s < hi) ==>
      Slot(m, i, s) in owner && owner[Slot(m, i, s)] == (i, s) && nmeta <= Slot(m, i, s) < |m.data|
  {
  }

  lemma OwnedSlot(m: Image, owner: Owners, nmeta: nat, x: nat, lo: nat, hi: nat, b: nat)
    requires Exclusive(m, owner, nmeta, x, lo, hi) && b in owner
    ensures nmeta <= b < |m.data| && owner[b].0 < |m.inodes| && owner[b].1 <= MAXFILE
    ensures Slot(m, owner[b].0, owner[b].1) == b && !(owner[b].0 == x && lo <= owner[b].1 < hi)
  {
  }

  /** A free block gets an owner. */
  lemma OwnMore(m: Image, m': Image, owner: Owners, nmeta: nat, i: nat, s: nat, b: nat)
    requires Exclusive(m, owner, nmeta, 0, 0, 0) && b !in owner && 1 <= nmeta <= b < |m.data| == |m'.data|
    requires i < |m.inodes| == |m'.inodes| && s <= MAXFILE && Slot(m, i, s) == 0 && b != 0
    requires forall j, t :: 0 <= j < |m.inodes| && 0 <= t <= MAXFILE ==>
      Slot(m', j, t) == if j == i && t == s then b else Slot(m, j, t)
    ensures Exclusive(m', owner[b := (i, s)], nmeta, 0, 0, 0)
  {
    hide Slot;
  }

  /** Block b loses its owner, a slot that is empty or exempt afterwards. */
  lemma OwnLess(m: Image, m': Image, owner: Owners, nmeta: nat, b: nat, x: nat, lo: nat, hi: nat, hi': nat)
    requires Exclusive(m, owner, nmeta, x, lo, hi) && b in owner && |m'.data| == |m.data| && |m'.inodes| == |m.inodes|
    requires forall j, t ::
      0 <= j < |m.inodes| && 0 <= t <= MAXFILE && !(j == x && lo <= t < hi) && (j, t) != owner[b] ==>
        !(j == x && lo <= t < hi') && Slot(m', j, t) == Slot(m, j, t)
    requires forall j, t ::
      0 <= j < |m.inodes| && 0 <= t <= MAXFILE && !(j == x && lo <= t < hi') && Slot(m', j, t) != 0 ==>
        !(j == x && lo <= t < hi) && (j, t) != owner[b] && Slot(m', j, t) == Slot(m, j, t)
    ensures Exclusive(m', owner - {b}, nmeta, x, lo, hi')
  {
    hide Slot;
  }

  // ---------------------------------------------------------------- steps

  function WithAddr(ip: Inode, k: nat, b: nat): Inode
    requires k < |ip.addrs|
  {
    ip.(addrs := ip.addrs[k := b])
  }

  /** Make slot s of inode i name block b. */
  function Store(m: Image, i: nat, s: nat, b: nat): Image
    requires i < |m.inodes| && |m.inodes[i].addrs| == NDIRECT + 1 && s <= MAXFILE && b < UINT
    requires NDIRECT <= s < MAXFILE ==> 0 < m.inodes[i].addrs[NDIRECT] < |m.data|
  {
    if s < NDIRECT then Image(m.data, m.inodes[i := WithAddr(m.inodes[i], s, b)])
    else if s == MAXFILE then Image(m.data, m.inodes[i := WithAddr(m.inodes[i], NDIRECT, b)])
    else PutBlock(m, m.inodes[i].addrs[NDIRECT], SetWord(m.data[m.inodes[i].addrs[NDIRECT]], s - NDIRECT, b))
  }

  function PutBlock(m: Image, a: nat, b: Block): Image
    requires a < |m.data|
  {
    Image(m.data[a := b], m.inodes)
  }

  /** balloc() hands out a zeroed free block and the caller stores it in an empty slot. */
  ghost function Allocated(m: Image, i: nat, s: nat, b: nat): Image
    requires i < |m.inodes| && |m.inodes[i].addrs| == NDIRECT + 1 && s <= MAXFILE && b < |m.data| <= UINT
    requires NDIRECT <= s < MAXFILE ==> 0 < m.inodes[i].addrs[NDIRECT] < |m.data|
  {
    Store(PutBlock(m, b, Zero()), i, s, b)
  }

  lemma AllocatedSlots(m: Image, used: seq<bool>, owner: Owners, nmeta: nat, i: nat, s: nat, b: nat)
    requires Inv(m, used, owner, nmeta) && i < |m.inodes| && s <= MAXFILE
    requires Slot(m, i, s) == 0 && b < |used| && !used[b]
    requires NDIRECT <= s < MAXFILE ==> Slot(m, i, MAXFILE) != 0
    ensures forall j, t :: 0 <= j < |m.inodes| && 0 <= t <= MAXFILE ==>
      Slot(Allocated(m, i, s, b), j, t) == if j == i && t == s then b else Slot(m, j, t)
  {
    var z := PutBlock(m, b, Zero());
    var m' := Allocated(m, i, s, b);
    forall j, t | 0 <= j < |m.inodes| && 0 <= t <= MAXFILE
      ensures Slot(m', j, t) == if j == i && t == s then b else Slot(m, j, t)
    {
      assert Slot(m, j, MAXFILE) != 0 ==> Slot(m, j, MAXFILE) != b;
      if NDIRECT <= s < MAXFILE {
        WordSet(z.data[m.inodes[i].addrs[NDIRECT]], s - NDIRECT, b);
        assert j != i && Slot(m, j, MAXFILE) != 0 ==> Slot(m, j, MAXFILE) != Slot(m, i, MAXFILE);
      } else if s == MAXFILE && j == i && NDIRECT <= t < MAXFILE {
        WordZero(t - NDIRECT);
      }
    }
  }

  /** Allocation into an empty slot keeps the invariant. */
  lemma AllocKeeps(m: Image, used: seq<bool>, owner: Owners, nmeta: nat, i: nat, s: nat, b: nat)
    requires Inv(m, used, owner, nmeta) && i < |m.inodes| && s <= MAXFILE
    requires Slot(m, i, s) == 0 && b < |used| && !used[b]
    requires NDIRECT <= s < MAXFILE ==> Slot(m, i, MAXFILE) != 0
    ensures Inv(Allocated(m, i, s, b), used[b := true], owner[b := (i, s)], nmeta)
  {
    hide Exclusive, Slot;
    AllocatedSlots(m, used, owner, nmeta, i, s, b);
    AllocatedShape(m, used, owner, nmeta, i, s, b);
    OwnMore(m, Allocated(m, i, s, b), owner, nmeta, i, s, b);
    assert Exact(used[b := true], owner[b := (i, s)], nmeta);
  }

  lemma AllocatedShape(m: Image, used: seq<bool>, owner: Owners, nmeta: nat, i: nat, s: nat, b: nat)
    requires Inv(m, used, owner, nmeta) && i < |m.inodes| && s <= MAXFILE && b < |used|
    requires NDIRECT <= s < MAXFILE ==> Slot(m, i, MAXFILE) != 0
    ensures |m.inodes[i].addrs| == NDIRECT + 1 && (NDIRECT <= s < MAXFILE ==> 0 < m.inodes[i].addrs[NDIRECT] < |m.data|)
    ensures var m' := Allocated(m, i, s, b);
      Shape(m') && |m'.data| == |m.data| && |m'.inodes| == |m.inodes|
  {
    hide Exclusive, Exact;
    SlotOwned(m, owner, nmeta, 0, 0, 0, i, MAXFILE);
  }

  /** Allocation into an empty slot shows in no file's contents. */
  lemma AllocHidden(m: Image, used: seq<bool>, owner: Owners, nmeta: nat, i: nat, s: nat, b: nat)
    requires Inv(m, used, owner, nmeta) && i < |m.inodes| && s <= MAXFILE
    requires Slot(m, i, s) == 0 && b < |used| && !used[b]
    requires NDIRECT <= s < MAXFILE ==> Slot(m, i, MAXFILE) != 0
    ensures SameFiles(m, Allocated(m, i, s, b))
  {
    var m' := Allocated(m, i, s, b);
    AllocatedSlots(m, used, owner, nmeta, i, s, b);
    forall j, k | 0 <= j < |m.inodes| && 0 <= k < MAXFILE
      ensures FileBlock(m', j, k) == FileBlock(m, j, k)
    {
      if j == i && k == s {
        assert m'.data[b] == Zero();
      } else {
        assert Slot(m, j, k) != 0 ==> Slot(m, j, k) != b && Slot(m, j, k) != Slot(m, i, MAXFILE);
      }
    }
  }

  /** Overwriting a file's block keeps the invariant and changes that block of that file only. */
  lemma WriteStep(m: Image, used: seq<bool>, owner: Owners, nmeta: nat, i: nat, k: nat, blk: Block)
    requires Inv(m, used, owner, nmeta) && i < |m.inodes| && k < MAXFILE && Slot(m, i, k) != 0
    ensures Slot(m, i, k) < |m.data|
    ensures Inv(PutBlock(m, Slot(m, i, k), blk), used, owner, nmeta)
    ensures forall j, t :: 0 <= j < |m.inodes| && 0 <= t <= MAXFILE ==>
      Slot(PutBlock(m, Slot(m, i, k), blk), j, t) == Slot(m, j, t)
    ensures forall j, t :: 0 <= j < |m.inodes| && 0 <= t < MAXFILE ==>
      FileBlock(PutBlock(m, Slot(m, i, k), blk), j, t) == if j == i && t == k then blk else FileBlock(m, j, t)
  {
    var a := Slot(m, i, k);
    assert owner[a] == (i, k);
    var m' := PutBlock(m, a, blk);
    forall j, t | 0 <= j < |m.inodes| && 0 <= t <= MAXFILE
      ensures Slot(m', j, t) == Slot(m, j, t)
    {
      assert Slot(m, j, MAXFILE) != a;
    }
    assert Exclusive(m', owner, nmeta, 0, 0, 0);
  }

  /** Changing an inode's other fields moves no block. */
  lemma ResizeStep(m: Image, used: seq<bool>, owner: Owners, nmeta: nat, i: nat, ip: Inode)
    requires Inv(m, used, owner, nmeta) && i < |m.inodes|
    requires ip.addrs == m.inodes[i].addrs && ip.size <= MAXFILE * BSIZE
    ensures Inv(Image(m.data, m.inodes[i := ip]), used, owner, nmeta)
    ensures forall j, t :: 0 <= j < |m.inodes| && 0 <= t <= MAXFILE ==>
      Slot(Image(m.data, m.inodes[i := ip]), j, t) == Slot(m, j, t)
  {
    var m' := Image(m.data, m.inodes[i := ip]);
    assert forall j, t :: 0 <= j < |m.inodes| && 0 <= t <= MAXFILE ==> Slot(m', j, t) == Slot(m, j, t);
  }

  // ---------------------------------------------------------------- truncation

  /** bfree() of direct block t and the clearing of its slot. */
  lemma ClearDirectStep(m: Image, used: seq<bool>, owner: Owners, nmeta: nat, i: nat, t: nat)
    requires Inv(m, used, owner, nmeta) && i < |m.inodes| && t < NDIRECT && Slot(m, i, t) != 0
    ensures Slot(m, i, t) < |used| && used[Slot(m, i, t)]
    ensures Inv(Store(m, i, t, 0), used[Slot(m, i, t) := false], owner - {Slot(m, i, t)}, nmeta)
  {
    hide Exclusive;
    var m', b := Store(m, i, t, 0), Slot(m, i, t);
    SlotOwned(m, owner, nmeta, 0, 0, 0, i, t);
    assert forall j, u :: 0 <= j < |m.inodes| && 0 <= u <= MAXFILE ==>
      Slot(m', j, u) == if j == i && u == t then 0 else Slot(m, j, u);
    OwnLess(m, m', owner, nmeta, b, 0, 0, 0, 0);
  }

  /** bfree() of the block named by indirect entry t: the entry itself stays in the indirect block. */
  lemma FreeIndirectStep(m: Image, used: seq<bool>, owner: Owners, nmeta: nat, i: nat, t: nat)
    requires
      InvBut(m, used, owner, nmeta, i, NDIRECT, t) && i < |m.inodes| && NDIRECT <= t < MAXFILE && Slot(m, i, t) != 0
    ensures Slot(m, i, t) < |used| && used[Slot(m, i, t)]
    ensures InvBut(m, used[Slot(m, i, t) := false], owner - {Slot(m, i, t)}, nmeta, i, NDIRECT, t + 1)
  {
    hide Exclusive, Slot;
    var b := Slot(m, i, t);
    SlotOwned(m, owner, nmeta, i, NDIRECT, t, i, t);
    OwnLess(m, m, owner, nmeta, b, i, NDIRECT, t, t + 1);
  }

  /** Freeing the indirect block last and clearing its slot empties all the indirect slots at once. */
  lemma ClearIndirectStep(m: Image, used: seq<bool>, owner: Owners, nmeta: nat, i: nat)
    requires InvBut(m, used, owner, nmeta, i, NDIRECT, MAXFILE) && i < |m.inodes| && Slot(m, i, MAXFILE) != 0
    ensures Slot(m, i, MAXFILE) < |used| && used[Slot(m, i, MAXFILE)]
    ensures Inv(Store(m, i, MAXFILE, 0), used[Slot(m, i, MAXFILE) := false], owner - {Slot(m, i, MAXFILE)}, nmeta)
  {
    hide Exclusive;
    var m', b := Store(m, i, MAXFILE, 0), Slot(m, i, MAXFILE);
    SlotOwned(m, owner, nmeta, i, NDIRECT, MAXFILE, i, MAXFILE);
    assert forall j, u :: 0 <= j < |m.inodes| && 0 <= u <= MAXFILE ==>
      Slot(m', j, u) == if j == i && NDIRECT <= u then 0 else Slot(m, j, u);
    OwnLess(m, m', owner, nmeta, b, i, NDIRECT, MAXFILE, MAXFILE);
    EmptyExempt(m', owner - {b}, nmeta, i, NDIRECT, MAXFILE);
  }

  /** Exempt slots that are empty need no exemption. */
  lemma EmptyExempt(m: Image, owner: Owners, nmeta: nat, i: nat, lo: nat, hi: nat)
    requires Exclusive(m, owner, nmeta, i, lo, hi) && i < |m.inodes| && hi <= MAXFILE + 1
    requires forall t :: lo <= t < hi ==> Slot(m, i, t) == 0
    ensures Exclusive(m, owner, nmeta, 0, 0, 0)
  {
    hide Slot;
  }

  /** The owners left when slots [0, hi) of inode i own nothing. */
  ghost function Without(owner: Owners, i: nat, hi: nat): Owners {
    map b | b in owner && !(owner[b].0 == i && owner[b].1 < hi) :: owner[b]
  }

  lemma WithoutStep(m: Image, used: seq<bool>, owner0: Owners, nmeta: nat, i: nat, t: nat, x: nat, lo: nat, hi: nat)
    requires InvBut(m, used, Without(owner0, i, t), nmeta, x, lo, hi) && i < |m.inodes| && t <= MAXFILE
    requires !(i == x && lo <= t < hi)
    ensures Slot(m, i, t) != 0 ==> Without(owner0, i, t) - {Slot(m, i, t)} == Without(owner0, i, t + 1)
    ensures Slot(m, i, t) == 0 ==> Without(owner0, i, t) == Without(owner0, i, t + 1)
  {
    hide Exclusive, Exact, Slot;
    var w, w', c := Without(owner0, i, t), Without(owner0, i, t + 1), Slot(m, i, t);
    SlotOwned(m, w, nmeta, x, lo, hi, i, t);
    forall b
      ensures b in w' <==> b in w && (c == 0 || b != c)
    {
      if b in w { OwnedSlot(m, w, nmeta, x, lo, hi, b); }
    }
  }

  /** An inode without an indirect block owns nothing through it. */
  lemma WithoutIndirect(m: Image, used: seq<bool>, owner0: Owners, nmeta: nat, i: nat)
    requires Inv(m, used, Without(owner0, i, NDIRECT), nmeta) && i < |m.inodes| && Slot(m, i, MAXFILE) == 0
    ensures Without(owner0, i, NDIRECT) == Without(owner0, i, MAXFILE + 1)
  {
    var w := Without(owner0, i, NDIRECT);
    forall b | b in w
      ensures owner0[b].0 != i
    {
      assert Slot(m, w[b].0, w[b].1) == b;
    }
  }

  lemma FreshExempt(m: Image, used: seq<bool>, owner: Owners, nmeta: nat, i: nat)
    requires Inv(m, used, owner, nmeta)
    ensures InvBut(m, used, owner, nmeta, i, NDIRECT, NDIRECT)
  {
  }

  /** Entry t of the indirect block is empty, so leaving it out changes nothing. */
  lemma SkipIndirectStep(m: Image, used: seq<bool>, owner: Owners, nmeta: nat, i: nat, t: nat)
    requires
      InvBut(m, used, owner, nmeta, i, NDIRECT, t) && i < |m.inodes| && NDIRECT <= t < MAXFILE && Slot(m, i, t) == 0
    ensures InvBut(m, used, owner, nmeta, i, NDIRECT, t + 1)
  {
  }

  /** Block b is one of inode i's: a data block or the indirect block. */
  ghost predicate Named(m: Image, i: nat, b: nat)
    requires i < |m.inodes|
  {
    b != 0 && exists s :: 0 <= s <= MAXFILE && Slot(m, i, s) == b
  }

  /** Dropping all of inode i's owners from an exact free map frees exactly the blocks it named. */
  lemma Truncated(m0: Image, used0: seq<bool>, owner0: Owners, nmeta: nat, i: nat, m: Image, used: seq<bool>)
    requires Inv(m0, used0, owner0, nmeta) && i < |m0.inodes| && |used| == |used0|
    requires Inv(m, used, Without(owner0, i, MAXFILE + 1), nmeta)
    ensures forall b :: 0 <= b < |used| ==> (used[b] <==> used0[b] && !Named(m0, i, b))
  {
    forall b | 0 <= b < |used|
      ensures used[b] <==> used0[b] && !Named(m0, i, b)
    {
      if b in owner0 {
        assert Slot(m0, owner0[b].0, owner0[b].1) == b;
      }
    }
  }
}
