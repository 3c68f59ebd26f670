/**
 The free-block bitmap of fs.c: balloc()'s search and bfree(), on the bytes of the bitmap blocks,
 refine a sequence of booleans.
 */
module FreeMap {

  import opened Params

  const BPB: nat := 4096

  type BitBlock = b: seq<bv8> | |b| == BSIZE witness seq(BSIZE, _ => 0)

  /** 1 << k */
  function Mask(k: nat): bv8
    requires k < 8
  {
    if k == 0 then 1 else if k == 1 then 2 else if k == 2 then 4 else if k == 3 then 8
    else if k == 4 then 16 else if k == 5 then 32 else if k == 6 then 64 else 128
  }

  /** The bit of a bitmap block at position bi. */
  predicate Bit(b: BitBlock, bi: nat)
    requires bi < BPB
  {
    b[bi / 8] & Mask(bi % 8) != 0
  }

  /** bp->data[bi/8] |= m */
  function On(b: BitBlock, bi: nat): BitBlock
    requires bi < BPB
  {
    b[bi / 8 := b[bi / 8] | Mask(bi % 8)]
  }

  /** bp->data[bi/8] &= ~m */
  function Off(b: BitBlock, bi: nat): BitBlock
    requires bi < BPB
  {
    b[bi / 8 := b[bi / 8] & !Mask(bi % 8)]
  }

  lemma OtherBits(x: bv8, k: nat, j: nat)
    requires k < 8 && j < 8
    ensures ((x | Mask(k)) & Mask(j) != 0) == (j == k || x & Mask(j) != 0)
    ensures ((x & !Mask(k)) & Mask(j) != 0) == (j != k && x & Mask(j) != 0)
  {
  }

  /** Setting a bit of a block changes that bit and no other. */
  lemma OnBit(b: BitBlock, bi: nat, c: nat)
    requires bi < BPB && c < BPB
    ensures Bit(On(b, bi), c) == (c == bi || Bit(b, c))
  {
    if bi / 8 == c / 8 {
      OtherBits(b[bi / 8], bi % 8, c % 8);
    }
  }

  /** Clearing a bit of a block changes that bit and no other. */
  lemma OffBit(b: BitBlock, bi: nat, c: nat)
    requires bi < BPB && c < BPB
    ensures Bit(Off(b, bi), c) == (c != bi && Bit(b, c))
  {
    if bi / 8 == c / 8 {
      OtherBits(b[bi / 8], bi % 8, c % 8);
    }
  }

  /** The bitmap blocks of the disk; `used` is what they say about the first `size` blocks. */
  class FreeMap {
    const size: nat
    var blocks: seq<BitBlock>
    ghost var used: seq<bool>

    ghost predicate Valid()
      reads this
    {
      && size <= |blocks| * BPB
      && |used| == size
      && forall b :: 0 <= b < size ==> used[b] == Bit(blocks[b / BPB], b % BPB)
    }

    constructor (size: nat, blocks: seq<BitBlock>)
      requires size <= |blocks| * BPB
      ensures Valid() && this.size == size && this.blocks == blocks
    {
      this.size, this.blocks := size, blocks;
      used := seq(size, b requires 0 <= b < size => Bit(blocks[b / BPB], b % BPB));
    }

    /** balloc()'s search: the lowest clear bit is found and set; false stands for "out of blocks". */
    method Alloc() returns (ok: bool, n: nat)
      requires Valid()
      modifies this
      ensures Valid()
      ensures ok ==> n < size && !old(used[n]) && used == old(used)[n := true]
      ensures ok ==> forall c :: 0 <= c < n ==> used[c]
      ensures !ok ==> used == old(used) && forall c :: 0 <= c < size ==> used[c]
    {
      var b := 0;
      while b < size
        invariant b % BPB == 0 && blocks == old(blocks) && used == old(used)
        invariant forall c :: 0 <= c < b && c < size ==> used[c]
      {
        var bi := 0;
        while bi < BPB && b + bi < size
          invariant 0 <= bi <= BPB && blocks == old(blocks) && used == old(used)
          invariant forall c :: 0 <= c < b + bi && c < size ==> used[c]
        {
          var bp := blocks[b / BPB];
          assert (b + bi) / BPB == b / BPB && (b + bi) % BPB == bi;
          if bp[bi / 8] & Mask(bi % 8) == 0 {
            SetBit(b / BPB, bi);
            return true, b + bi;
          }
          bi := bi + 1;
        }
        b := b + BPB;
      }
      return false, 0;
    }

    method SetBit(k: nat, bi: nat)
      requires Valid() && bi < BPB && k * BPB + bi < size
      modifies this
      ensures Valid() && used == old(used)[k * BPB + bi := true]
    {
      blocks := blocks[k := On(blocks[k], bi)];
      used := used[k * BPB + bi := true];
      forall c | 0 <= c < size
        ensures used[c] == Bit(blocks[c / BPB], c % BPB)
      {
        if c / BPB == k { OnBit(old(blocks[k]), bi, c % BPB); }
      }
    }

    /** bfree(): refused, where fs.c panics, exactly when the block is already free. */
    method Free(b: nat) returns (ok: bool)
      requires Valid() && b < size
      modifies this
      ensures Valid()
      ensures ok == old(used[b])
      ensures used == old(used)[b := false]
    {
      var bp := blocks[b / BPB];
      var bi := b % BPB;
      if bp[bi / 8] & Mask(bi % 8) == 0 {
        return false;
      }
      ClearBit(b / BPB, bi);
      return true;
    }

    method ClearBit(k: nat, bi: nat)
      requires Valid() && bi < BPB && k * BPB + bi < size
      modifies this
      ensures Valid() && used == old(used)[k * BPB + bi := false]
    {
      blocks := blocks[k := Off(blocks[k], bi)];
      used := used[k * BPB + bi := false];
      forall c | 0 <= c < size
        ensures used[c] == Bit(blocks[c / BPB], c % BPB)
      {
        if c / BPB == k { OffBit(old(blocks[k]), bi, c % BPB); }
      }
    }
  }
}
