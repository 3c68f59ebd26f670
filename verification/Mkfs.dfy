/**
 mkfs.c builds the image the file system starts from: blocks are handed out in order from freeblock,
 and at the end balloc() marks the first freeblock blocks used.  The result satisfies the invariant of
 the inode layer, and every file it wrote is free of holes, the root directory with one exception.
 */
module Mkfs {
  import opened Params
  import opened Blocks
  import opened InodeLayer
  import FreeMap

  /** The bitmap balloc(k) writes: exactly the first k blocks are used. */
  ghost function Prefix(size: nat, k: nat): seq<bool> {
    seq(size, b => b < k)
  }

  function EmptyInode(kind: int, nlink: int): Inode {
    Inode(kind, 0, nlink, 0, seq(NDIRECT + 1, _ => 0))
  }

  lemma PrefixNext(size: nat, k: nat)
    requires k < size
    ensures Prefix(size, k)[k := true] == Prefix(size, k + 1)
  {
  }

  /** Blocks from freeblock on have never been written. */
  ghost predicate Untouched(m: Image, freeblock: nat) {
    forall b :: freeblock <= b < |m.data| ==> m.data[b] == Zero()
  }

  lemma UntouchedAllocation(m: Image, i: nat, s: nat, b: nat)
    requires i < |m.inodes| && |m.inodes[i].addrs| == NDIRECT + 1 && s <= MAXFILE && b < |m.data| <= UINT
    requires NDIRECT <= s < MAXFILE ==> 0 < m.inodes[i].addrs[NDIRECT] < |m.data|
    requires m.data[b] == Zero()
    ensures Store(m, i, s, b) == Allocated(m, i, s, b)
  {
    assert PutBlock(m, b, Zero()) == m;
  }

  lemma EmptyImage(size: nat, nmeta: nat, ninodes: nat)
    requires 1 <= nmeta <= size <= UINT
    ensures Inv(Image(seq(size, _ => Zero()), seq(ninodes, _ => EmptyInode(0, 0))), Prefix(size, nmeta), map[], nmeta)
  {
    var m := Image(seq(size, _ => Zero()), seq(ninodes, _ => EmptyInode(0, 0)));
    forall i, s | 0 <= i < ninodes && 0 <= s <= MAXFILE
      ensures Slot(m, i, s) == 0
    {
    }
  }

  lemma IndirectUsed(m: Image, used: seq<bool>, owner: Owners, nmeta: nat, i: nat)
    requires Inv(m, used, owner, nmeta) && i < |m.inodes| && Slot(m, i, MAXFILE) != 0
    ensures Slot(m, i, MAXFILE) < |used| && used[Slot(m, i, MAXFILE)]
  {
  }

  /**
   Rounding the root directory's size up to the next block boundary, past a boundary it is already on,
   leaves a hole exactly when the directory ended on a boundary.
   */
  lemma RoundedRoot(m: Image, i: nat)
    requires HoleFree(m, i) && m.inodes[i].size < MAXFILE * BSIZE
    ensures HoleFree(WithSize(m, i, (m.inodes[i].size / BSIZE + 1) * BSIZE), i) <==> m.inodes[i].size % BSIZE != 0
  {
    var n := m.inodes[i].size;
    var m' := WithSize(m, i, (n / BSIZE + 1) * BSIZE);
    WithSizeSlots(m, i, (n / BSIZE + 1) * BSIZE);
    if n % BSIZE == 0 {
      assert Slot(m', i, n / BSIZE) == 0 && n / BSIZE < BlocksFor(m'.inodes[i].size);
    } else {
      assert BlocksFor(m'.inodes[i].size) == BlocksFor(n);
    }
  }

  lemma SlotUsed(m: Image, size: nat, freeblock: nat, owner: Owners, nmeta: nat, i: nat, s: nat)
    requires
      && nmeta <= freeblock && Inv(m, Prefix(size, freeblock), owner, nmeta) && i < |m.inodes| && s <= MAXFILE
      && Slot(m, i, s) != 0
    ensures Slot(m, i, s) < freeblock
  {
  }

  class ImageBuilder {
    const size: nat
    const nmeta: nat
    var img: Image
    var freeblock: nat
    var freeinode: nat
    ghost var owner: Owners
    ghost var written: set<nat>

    ghost predicate Valid()
      reads this
    {
      && nmeta <= freeblock <= size == |img.data| && freeinode <= |img.inodes|
      && Inv(img, Prefix(size, freeblock), owner, nmeta) && Untouched(img, freeblock)
      && (forall i :: freeinode <= i < |img.inodes| ==> img.inodes[i] == EmptyInode(0, 0))
    }

    constructor (size: nat, nmeta: nat, ninodes: nat)
      requires 1 <= nmeta <= size <= UINT && 1 <= ninodes
      ensures
        && Valid() && |img.inodes| == ninodes && this.size == size && this.nmeta == nmeta && freeblock == nmeta
        && freeinode == 1
    {
      this.size, this.nmeta, freeblock, freeinode := size, nmeta, nmeta, 1;
      img := Image(seq(size, _ => Zero()), seq(ninodes, _ => EmptyInode(0, 0)));
      owner, written := map[], {};
      EmptyImage(size, nmeta, ninodes);
    }

    /** ialloc(): the next inode, with one link and no contents. */
    method Ialloc(kind: int) returns (inum: nat)
      requires Valid() && freeinode < |img.inodes|
      modifies this`img, this`freeinode
      ensures Valid() && inum == old(freeinode) && freeinode == inum + 1
      ensures img == Image(old(img.data), old(img.inodes)[inum := EmptyInode(kind, 1)])
      ensures forall j, s :: 0 <= j < |img.inodes| && 0 <= s <= MAXFILE ==> Slot(img, j, s) == Slot(old(img), j, s)
    {
      inum := freeinode;
      freeinode := freeinode + 1;
      ResizeStep(img, Prefix(size, freeblock), owner, nmeta, inum, EmptyInode(kind, 1));
      img := Image(img.data, img.inodes[inum := EmptyInode(kind, 1)]);
    }

    /** The next free block becomes slot s of inode i; false when the disk is full. */
    method TakeBlock(i: nat, s: nat) returns (ok: bool)
      requires Valid() && i < freeinode && s <= MAXFILE && Slot(img, i, s) == 0
      requires NDIRECT <= s < MAXFILE ==> Slot(img, i, MAXFILE) != 0
      modifies this`img, this`owner, this`freeblock
      ensures ok <==> old(freeblock) < size
      ensures !ok ==> img == old(img) && freeblock == old(freeblock) && owner == old(owner)
      ensures ok ==> freeblock == old(freeblock) + 1
      ensures ok ==> |old(img).inodes[i].addrs| == NDIRECT + 1 && old(freeblock) < |old(img).data| <= UINT
      ensures ok && NDIRECT <= s < MAXFILE ==> 0 < old(img).inodes[i].addrs[NDIRECT] < |old(img).data|
      ensures ok ==> img == Allocated(old(img), i, s, old(freeblock))
      ensures Valid()
    {
      hide Exclusive, Exact, Zero;
      ok := freeblock < size;
      if ok {
        var b := freeblock;
        SlotsInRange(img, Prefix(size, b), owner, nmeta, i);
        if Slot(img, i, MAXFILE) != 0 {
          IndirectUsed(img, Prefix(size, b), owner, nmeta, i);
        }
        UntouchedAllocation(img, i, s, b);
        AllocKeeps(img, Prefix(size, b), owner, nmeta, i, s, b);
        PrefixNext(size, b);
        img := Store(img, i, s, b);
        owner := owner[b := (i, s)];
        freeblock := b + 1;
      }
    }

    /** iappend()'s choice of block fbn, taking new blocks where there are none. */
    method MapBlock(i: nat, fbn: nat) returns (ok: bool, x: nat)
      requires Valid() && i < freeinode && fbn < MAXFILE
      modifies this`img, this`owner, this`freeblock, this`written
      ensures Valid() && SameFiles(old(img), img) && |img.inodes| == old(|img.inodes|)
      ensures ok ==> Mapped(old(img), img, i, fbn, x, 0, old(written), written)
      ensures ok <==> old(freeblock) + Need(old(img), i, fbn, fbn + 1) <= size
      ensures ok ==> freeblock == old(freeblock) + Need(old(img), i, fbn, fbn + 1)
    {
      hide Exclusive, Exact, Grown, FileBlock;
      ghost var m, used, o := img, Prefix(size, freeblock), owner;
      ShapeOf(m, used, o, nmeta, i);
      if fbn < NDIRECT {
        x := img.inodes[i].addrs[fbn];
        if x == 0 {
          ghost var b := freeblock;
          ok := TakeBlock(i, fbn);
          if ok {
            BmapStep(m, used, o, nmeta, i, fbn, b, 0, written);
            written := written + {} + BallocLog(b, 0);
            x := img.inodes[i].addrs[fbn];
          }
          return;
        }
        AlreadyMapped(m, used, o, nmeta, i, fbn, 0, written);
        return true, x;
      }
      if img.inodes[i].addrs[NDIRECT] == 0 {
        ghost var b := freeblock;
        ok := TakeBlock(i, MAXFILE);
        if !ok {
          return false, 0;
        }
        IndirectStep(m, used, o, nmeta, i, b);
        written := written + BallocLog(b, 0);
      }
      ghost var m1, mid := img, written;
      ok, x := MapIndirect(i, fbn);
      if ok && m1 != m {
        IndirectMapped(m, m1, img, i, fbn, x, 0, old(written), mid, written);
      }
    }

    method MapIndirect(i: nat, fbn: nat) returns (ok: bool, x: nat)
      requires Valid() && i < freeinode && NDIRECT <= fbn < MAXFILE && Slot(img, i, MAXFILE) != 0
      modifies this`img, this`owner, this`freeblock, this`written
      ensures Valid() && SameFiles(old(img), img) && |img.inodes| == old(|img.inodes|)
      ensures ok ==> Mapped(old(img), img, i, fbn, x, 0, old(written), written)
      ensures ok <==> old(freeblock) + Need(old(img), i, fbn, fbn + 1) <= size
      ensures ok ==> freeblock == old(freeblock) + Need(old(img), i, fbn, fbn + 1)
    {
      hide Exclusive, Exact, Grown, FileBlock;
      ghost var m, used, o := img, Prefix(size, freeblock), owner;
      ShapeOf(m, used, o, nmeta, i);
      SlotsInRange(m, used, o, nmeta, i);
      var ind := img.inodes[i].addrs[NDIRECT];
      x := Word(img.data[ind], fbn - NDIRECT);
      if x == 0 {
        var b := freeblock;
        ok := TakeBlock(i, fbn);
        if ok {
          BmapStep(m, used, o, nmeta, i, fbn, b, 0, written);
          written := written + {ind} + BallocLog(b, 0);
          x := b;
        }
      } else {
        AlreadyMapped(m, used, o, nmeta, i, fbn, 0, written);
        ok := true;
      }
    }

    /** One iteration of iappend(): n1 bytes of p from tot go into the block that holds off. */
    method AppendBlock(i: nat, p: seq<Byte>, tot: nat, off: nat, n1: nat, ghost off0: nat, ghost m0: Image,
                       ghost base: nat,
                       ghost first: nat) returns (ok: bool)
      requires Valid() && i < freeinode && off0 + |p| <= MAXFILE * BSIZE
      requires
        tot < |p| && off == off0 + tot && (0 < tot ==> off % BSIZE == 0) && n1 == Min(|p| - tot, BSIZE - off % BSIZE)
      requires Copying(m0, img, i, off0, p, off / BSIZE, base, written)
      requires freeblock == first + Need(m0, i, off0 / BSIZE, off / BSIZE)
      modifies this`img, this`owner, this`freeblock, this`written
      ensures Valid() && |img.inodes| == old(|img.inodes|)
      ensures ok ==> Copying(m0, img, i, off0, p, off / BSIZE + 1, base, written)
      ensures ok <==> first + Need(m0, i, off0 / BSIZE, off / BSIZE + 1) <= size
      ensures ok ==> freeblock == first + Need(m0, i, off0 / BSIZE, off / BSIZE + 1)
    {
      hide Grown, BlocksWritten, SameFiles, Exclusive, Exact, LogCost, TouchesIndirect, BmapLog, BlockAfter, Slot, Need;
      CopyNeed(m0, img, i, off0, p, off / BSIZE, base, written);
      ghost var m, before := img, written;
      var x;
      ok, x := MapBlock(i, off / BSIZE);
      if ok {
        ghost var m1, mid := img, written;
        SlotUsed(img, size, freeblock, owner, nmeta, i, off / BSIZE);
        ChunkIsPart(img.data[x], off0, p, tot, off, n1);
        img := PutBlock(img, x, Patch(img.data[x], off % BSIZE, p[tot..tot + n1]));
        written := written + {x};
        CopyStep(m0, m, m1, img, Prefix(size, freeblock), owner, nmeta, i, off0, p, off / BSIZE, x, 0,
                 base, before, mid);
      }
    }

    /** iappend()'s loop, for a range that fits a file. */
    method AppendIn(i: nat, p: seq<Byte>, off0: nat) returns (ok: bool)
      requires Valid() && i < freeinode && off0 + |p| <= MAXFILE * BSIZE
      modifies this`img, this`owner, this`freeblock, this`written
      ensures Valid() && |img.inodes| == old(|img.inodes|)
      ensures ok && p != [] ==>
        Copying(old(img), img, i, off0, p, (off0 + |p| - 1) / BSIZE + 1, old(|written|), written)
      ensures p == [] ==> img == old(img)
      ensures ok <==> old(freeblock) + NeedFor(old(img), i, off0, |p|) <= size
      ensures ok ==> freeblock == old(freeblock) + NeedFor(old(img), i, off0, |p|)
    {
      hide Grown, BlocksWritten, Exclusive, Exact, LogCost, TouchesIndirect, Slot, Need;
      var n := |p|;
      ghost var m0, base, first := img, |written|, freeblock;
      var tot, off := 0, off0;
      ghost var hi: nat := off0 / BSIZE;
      CopyStart(img, i, off0, p, written);
      NeedNothing(img, i, hi);
      while tot < n
        invariant off == off0 + tot && tot <= n && |img.inodes| == old(|img.inodes|) && i < freeinode
        invariant tot == 0 ==> img == old(img) && hi == off0 / BSIZE
        invariant 0 < tot < n ==> off % BSIZE == 0
        invariant tot < n ==> hi == off / BSIZE
        invariant tot == n > 0 ==> hi == (off0 + n - 1) / BSIZE + 1
        invariant Valid() && Copying(m0, img, i, off0, p, hi, base, written)
        invariant hi <= MAXFILE && freeblock == first + Need(m0, i, off0 / BSIZE, hi)
      {
        var n1 := Min(n - tot, (off / BSIZE + 1) * BSIZE - off);
        CopyBounds(off0, n, tot, off, n1);
        ok := AppendBlock(i, p, tot, off, n1, off0, m0, base, first);
        if !ok {
          NeedMono(m0, i, off0 / BSIZE, hi + 1, (off0 + n - 1) / BSIZE + 1);
          return false;
        }
        hi := hi + 1;
        tot, off := tot + n1, off + n1;
      }
      return true;
    }

    /**
     iappend() adds exactly p at the end of the file.  false stands for its assertion that the file is not
     too large and for the end of the disk: the file would be too large or take more blocks than are left.
     */
    method Iappend(i: nat, p: seq<Byte>) returns (ok: bool)
      requires Valid() && i < freeinode
      modifies this`img, this`owner, this`freeblock, this`written
      ensures Valid() && |img.inodes| == old(|img.inodes|)
      ensures ok ==>
        old(img.inodes[i].size) + |p| <= MAXFILE * BSIZE && Wrote(old(img), img, i, old(img.inodes[i].size), p)
      ensures ok ==> Content(img, i) == Content(old(img), i) + p
      ensures ok && HoleFree(old(img), i) ==> HoleFree(img, i)
      ensures ok <==>
        && old(img.inodes[i].size) + |p| <= MAXFILE * BSIZE
        && old(freeblock) + NeedFor(old(img), i, old(img.inodes[i].size), |p|) <= size
      ensures ok ==> freeblock == old(freeblock) + NeedFor(old(img), i, old(img.inodes[i].size), |p|)
    {
      hide Grown, BlocksWritten, Exclusive, Exact, LogCost, TouchesIndirect, Slot, Content, HoleFree, NeedFor;
      ShapeOf(img, Prefix(size, freeblock), owner, nmeta, i);
      var off, n := img.inodes[i].size, |p|;
      ghost var m0, base := img, |written|;
      if off + n > MAXFILE * BSIZE {
        return false;
      }
      ok := AppendIn(i, p, off);
      if !ok {
        return false;
      }
      if n > 0 {
        GrownFields(m0, img, i, off, p, base, written);
        ResizeStep(img, Prefix(size, freeblock), owner, nmeta, i, img.inodes[i].(size := off + n));
        ghost var m1 := img;
        img := WithSize(img, i, off + n);
        CopyIsWrite(m0, m1, img, i, off, p, base, written);
      } else {
        WroteNothing(m0, i, off);
      }
      if HoleFree(m0, i) {
        WriteKeepsHoleFree(m0, img, i, off, p);
      }
      return true;
    }

    /** main()'s fix of the root directory's size. */
    method FixRoot(root: nat)
      requires Valid() && root < freeinode && img.inodes[root].size < MAXFILE * BSIZE
      modifies this`img
      ensures Valid()
      ensures img == WithSize(old(img), root, (old(img.inodes[root].size) / BSIZE + 1) * BSIZE)
      ensures HoleFree(old(img), root) ==> (HoleFree(img, root) <==> old(img.inodes[root].size) % BSIZE != 0)
    {
      hide Exclusive, Exact, HoleFree;
      var off := img.inodes[root].size;
      if HoleFree(img, root) {
        RoundedRoot(img, root);
      }
      off := (off / BSIZE + 1) * BSIZE;
      ResizeStep(img, Prefix(size, freeblock), owner, nmeta, root, img.inodes[root].(size := off));
      img := WithSize(img, root, off);
    }

    /** balloc(): only the first bitmap block is written, so the blocks in use must be fewer than its bits. */
    method Balloc(nbitmap: nat) returns (ok: bool, blocks: seq<FreeMap.BitBlock>)
      requires 1 <= nbitmap && size <= nbitmap * FreeMap.BPB && freeblock <= size
      ensures ok <==> freeblock < FreeMap.BPB
      ensures ok ==> |blocks| == nbitmap
      ensures ok ==> forall b :: 0 <= b < size ==>
        (FreeMap.Bit(blocks[b / FreeMap.BPB], b % FreeMap.BPB) <==> b < freeblock)
    {
      var buf: FreeMap.BitBlock := seq(BSIZE, _ => 0);
      blocks := seq(nbitmap, _ => buf);
      ok := freeblock < FreeMap.BPB;
      if !ok {
        return;
      }
      ghost var empty := buf;
      var i := 0;
      while i < freeblock
        invariant 0 <= i <= freeblock
        invariant forall c :: 0 <= c < FreeMap.BPB ==> (FreeMap.Bit(buf, c) <==> c < i)
      {
        ghost var was := buf;
        buf := FreeMap.On(buf, i);
        forall c | 0 <= c < FreeMap.BPB
          ensures FreeMap.Bit(buf, c) <==> c < i + 1
        {
          FreeMap.OnBit(was, i, c);
        }
        i := i + 1;
      }
      blocks := blocks[0 := buf];
    }

    /** The finished image mounts as a valid file system with nothing logged and the inodes in memory as on disk. */
    method Finish(root: nat, inodestart: nat, bmapstart: nat, nbitmap: nat, drivers: set<int>)
        returns (ok: bool, fs: FileSystem?)
      requires Valid() && root < freeinode && img.inodes[root].size < MAXFILE * BSIZE
      requires 1 <= nbitmap && size <= nbitmap * FreeMap.BPB
      modifies this`img
      ensures ok <==> freeblock < FreeMap.BPB
      ensures ok ==> fs != null && fresh(fs) && fresh(fs.bm) && fs.Valid() && fs.disk == fs.img.inodes && fs.img == img
      ensures ok ==> fs.nmeta == nmeta && fs.bm.used == Prefix(size, freeblock) && fs.logged == {}
      ensures img == WithSize(old(img), root, (old(img.inodes[root].size) / BSIZE + 1) * BSIZE)
    {
      FixRoot(root);
      fs := null;
      var blocks;
      ok, blocks := Balloc(nbitmap);
      if ok {
        var bm := new FreeMap.FreeMap(size, blocks);
        assert bm.used == Prefix(size, freeblock);
        fs := new FileSystem(bm, nmeta, inodestart, bmapstart, drivers, img, owner);
      }
    }
  }
}
