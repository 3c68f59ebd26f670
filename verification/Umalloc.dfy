/**
 The user-level allocator of umalloc.c (the storage allocator of section 8.7 of The C Programming
 Language, 2nd edition).  Addresses and sizes count header-sized units.  Live and free blocks partition
 the units obtained from sbrk(); the free list is circular, in address order, with no two free
 neighbours; malloc() asks sbrk() at most once.
 */
module Umalloc {

  import opened Params

  datatype Header = Header(ptr: int, size: int)

  /**
   The headers in memory, the addresses on the free list in order (base first), the live blocks with
   their sizes, and for every unit ever obtained the header of the block it lies in.
   */
  datatype Heap = Heap(mem: map<int, Header>, list: seq<int>, live: map<int, int>, tag: map<int, int>)

  predicate InBlock(a: int, n: int, u: int) { a <= u < a + n }

  function Size(h: Heap, a: int): int {
    if a in h.mem then h.mem[a].size else 0
  }

  /** A block is live or on the free list; base is neither. */
  predicate IsBlock(h: Heap, base: int, a: int) {
    a in h.live || (a in h.list && a != base)
  }

  /** The list is in address order and no block touches the next. */
  ghost predicate Ordered(h: Heap) {
    forall j, k :: 0 <= j < k < |h.list| ==> h.list[j] + Size(h, h.list[j]) < h.list[k]
  }

  /** The header at position k points to the next one on the list, the last one to base. */
  ghost predicate LinkAt(h: Heap, base: int, k: int)
    requires 0 <= k < |h.list|
  {
    h.list[k] in h.mem && h.mem[h.list[k]].ptr == if k + 1 < |h.list| then h.list[k + 1] else base
  }

  /** The list is a circle through ptr that starts at base. */
  ghost predicate Linked(h: Heap, base: int) {
    && |h.list| >= 1 && h.list[0] == base && Size(h, base) == 0
    && (forall k :: 0 <= k < |h.list| ==> h.list[k] in h.mem)
    && (forall k :: 0 <= k < |h.list| ==> LinkAt(h, base, k))
  }

  /** Every unit lies in exactly one block, live or free, and blocks hold no other units. */
  ghost predicate Partitioned(h: Heap, base: int, brk: int) {
    && base < brk
    && (forall u :: u in h.tag ==> base < u < brk)
    && (forall a :: a in h.live ==> a !in h.list && h.live[a] == Size(h, a))
    && (forall a :: IsBlock(h, base, a) ==> a in h.mem && Size(h, a) >= 1)
    && (forall a, u {:trigger InBlock(a, Size(h, a), u)} :: IsBlock(h, base, a) && InBlock(a, Size(h, a), u) ==>
          u in h.tag && h.tag[u] == a)
    && (forall u :: u in h.tag ==> IsBlock(h, base, h.tag[u]) && InBlock(h.tag[u], Size(h, h.tag[u]), u))
  }

  ghost predicate Inv(h: Heap, base: int, brk: int) {
    Linked(h, base) && Ordered(h) && Partitioned(h, base, brk)
  }

  /** What the invariant says of any two blocks: distinct blocks share no unit. */
  lemma BlocksDisjoint(h: Heap, base: int, brk: int, a: int, b: int, u: int)
    requires Partitioned(h, base, brk) && IsBlock(h, base, a) && IsBlock(h, base, b)
    requires InBlock(a, Size(h, a), u) && InBlock(b, Size(h, b), u)
    ensures a == b
  {
    assert h.tag[u] == a && h.tag[u] == b;
  }

  lemma BlockAt(h: Heap, base: int, brk: int, a: int)
    requires Partitioned(h, base, brk)
    ensures IsBlock(h, base, a) ==> a in h.mem && Size(h, a) >= 1
    ensures a in h.live ==> a !in h.list && h.live[a] == Size(h, a)
  {
  }

  /** A block that starts below another ends at or below its start. */
  lemma BlocksApart(h: Heap, base: int, brk: int, a: int, b: int)
    requires Partitioned(h, base, brk) && IsBlock(h, base, a) && IsBlock(h, base, b) && a < b
    ensures a + Size(h, a) <= b
  {
    if b < a + Size(h, a) {
      BlocksDisjoint(h, base, brk, a, b, b);
    }
  }

  // ---------------------------------------------------------------- steps on the heap

  function SetPtr(m: map<int, Header>, p: int, q: int): map<int, Header>
    requires p in m
  {
    m[p := Header(q, m[p].size)]
  }

  function SetSize(m: map<int, Header>, p: int, n: int): map<int, Header>
    requires p in m
  {
    m[p := Header(m[p].ptr, n)]
  }

  function InsertAt(s: seq<int>, i: nat, x: int): (r: seq<int>)
    requires i <= |s|
    ensures
      |r| == |s| + 1 && forall k :: 0 <= k < |r| ==> r[k] == if k < i then s[k] else if k == i then x else s[k - 1]
  {
    s[..i] + [x] + s[i..]
  }

  /** Unlink the free block at position t + 1 and make it live. */
  ghost function Take(h: Heap, t: nat): Heap
    requires t + 1 < |h.list| && h.list[t] in h.mem && h.list[t + 1] in h.mem
  {
    Heap(SetPtr(h.mem, h.list[t], h.mem[h.list[t + 1]].ptr), RemoveAt(h.list, t + 1),
         h.live[h.list[t + 1] := h.mem[h.list[t + 1]].size], h.tag)
  }

  /** Replacing a heap by one with the same blocks, sizes and tags keeps the partition. */
  lemma SamePartition(h: Heap, h': Heap, base: int, brk: int)
    requires Partitioned(h, base, brk) && h'.tag == h.tag
    requires forall a :: IsBlock(h', base, a) <==> IsBlock(h, base, a)
    requires forall a :: IsBlock(h, base, a) ==> a in h'.mem && Size(h', a) == Size(h, a)
    requires forall a :: a in h'.live ==> a !in h'.list && h'.live[a] == Size(h', a)
    ensures Partitioned(h', base, brk)
  {
  }

  /** In an ordered list every address occurs once. */
  lemma OneIndex(h: Heap, base: int, brk: int, j: nat, k: nat)
    requires Linked(h, base) && Ordered(h) && Partitioned(h, base, brk)
    requires j < |h.list| && k < |h.list| && h.list[j] == h.list[k]
    ensures j == k
  {
    assert Size(h, h.list[j]) >= 0;
  }

  lemma TakeKeeps(h: Heap, base: int, brk: int, t: nat)
    requires Inv(h, base, brk) && t + 1 < |h.list|
    ensures Inv(Take(h, t), base, brk)
  {
    var h' := Take(h, t);
    var q := h.list[t + 1];
    assert forall a :: Size(h', a) == Size(h, a);
    TakeMembers(h, base, brk, t);
    TakeLinked(h, base, brk, t);
    assert IsBlock(h, base, q);
    SamePartition(h, h', base, brk);
    TakeOrder(h, base, t);
  }

  lemma TakeOrder(h: Heap, base: int, t: nat)
    requires Linked(h, base) && Ordered(h) && t + 1 < |h.list|
    ensures Ordered(Take(h, t))
  {
    var h' := Take(h, t);
    assert forall a :: Size(h', a) == Size(h, a);
    forall j, k | 0 <= j < k < |h'.list|
      ensures h'.list[j] + Size(h', h'.list[j]) < h'.list[k]
    {
      var i, l := if j <= t then j else j + 1, if k <= t then k else k + 1;
      assert h.list[i] + Size(h, h.list[i]) < h.list[l];
    }
  }

  lemma TakeMembers(h: Heap, base: int, brk: int, t: nat)
    requires Inv(h, base, brk) && t + 1 < |h.list|
    ensures forall a :: a in Take(h, t).list <==> a in h.list && a != h.list[t + 1]
  {
    hide Partitioned;
    var l, q := Take(h, t).list, h.list[t + 1];
    forall a | a in h.list && a != q
      ensures a in l
    {
      var k :| 0 <= k < |h.list| && h.list[k] == a;
      assert l[if k <= t then k else k - 1] == a;
    }
    forall k | 0 <= k < |l|
      ensures l[k] in h.list && l[k] != q
    {
      var i := if k <= t then k else k + 1;
      assert l[k] == h.list[i];
      if l[k] == q { OneIndex(h, base, brk, t + 1, i); }
    }
  }

  lemma TakeLinked(h: Heap, base: int, brk: int, t: nat)
    requires Inv(h, base, brk) && t + 1 < |h.list|
    ensures Linked(Take(h, t), base)
  {
    hide Partitioned;
    var h' := Take(h, t);
    assert LinkAt(h, base, t) && LinkAt(h, base, t + 1);
    forall k | 0 <= k < |h'.list|
      ensures LinkAt(h', base, k)
    {
      var i := if k <= t then k else k + 1;
      assert LinkAt(h, base, i);
      if h.list[i] == h.list[t] { OneIndex(h, base, brk, i, t); }
    }
  }

  /** The units of [a, a + n) now lie in block x. */
  ghost function Retag(tag: map<int, int>, a: int, n: int, x: int): map<int, int> {
    map u | u in tag :: if InBlock(a, n, u) then x else tag[u]
  }

  /** Block b is merged into the block p that ends where it starts. */
  lemma Coarsen(h: Heap, h': Heap, base: int, brk: int, p: int, b: int)
    requires Partitioned(h, base, brk) && IsBlock(h, base, p) && IsBlock(h, base, b) && p != b && p + Size(h, p) == b
    requires h'.tag == Retag(h.tag, b, Size(h, b), p)
    requires forall c :: IsBlock(h', base, c) <==> c != b && IsBlock(h, base, c)
    requires forall c :: IsBlock(h', base, c) ==>
      c in h'.mem && Size(h', c) == if c == p then Size(h, p) + Size(h, b) else Size(h, c)
    requires forall c :: c in h'.live ==> c !in h'.list && h'.live[c] == Size(h', c)
    ensures Partitioned(h', base, brk)
  {
    hide IsBlock, Size;
    forall c, u | IsBlock(h', base, c) && InBlock(c, Size(h', c), u)
      ensures u in h'.tag && h'.tag[u] == c
    {
      var was := if c == p && InBlock(b, Size(h, b), u) then b else c;
      assert IsBlock(h, base, was) && InBlock(was, Size(h, was), u);
    }
  }

  /** The last n units of block p become block a. */
  lemma Refine(h: Heap, h': Heap, base: int, brk: int, p: int, a: int, n: int)
    requires Partitioned(h, base, brk) && IsBlock(h, base, p) && 1 <= n < Size(h, p) && a == p + Size(h, p) - n
    requires h'.tag == Retag(h.tag, a, n, a) && !IsBlock(h, base, a)
    requires forall c :: IsBlock(h', base, c) <==> c == a || IsBlock(h, base, c)
    requires forall c :: IsBlock(h', base, c) ==>
      c in h'.mem && Size(h', c) == if c == a then n else if c == p then Size(h, p) - n else Size(h, c)
    requires forall c :: c in h'.live ==> c !in h'.list && h'.live[c] == Size(h', c)
    ensures Partitioned(h', base, brk)
  {
    hide IsBlock, Size;
    forall c, u | IsBlock(h', base, c) && InBlock(c, Size(h', c), u)
      ensures u in h'.tag && h'.tag[u] == c
    {
      var was := if c == a then p else c;
      assert IsBlock(h, base, was) && InBlock(was, Size(h, was), u);
      assert InBlock(a, n, u) ==> InBlock(p, Size(h, p), u);
    }
  }

  /** Cut the last n units off the free block at position t and make them a live block. */
  ghost function Split(h: Heap, t: nat, n: int, ptr: int): Heap
    requires t < |h.list| && h.list[t] in h.mem
  {
    var p := h.list[t] + Size(h, h.list[t]) - n;
    Heap(SetSize(h.mem, h.list[t], Size(h, h.list[t]) - n)[p := Header(ptr, n)], h.list,
         h.live[p := n], Retag(h.tag, p, n, p))
  }

  lemma SplitKeeps(h: Heap, base: int, brk: int, t: nat, n: int, ptr: int)
    requires Inv(h, base, brk) && 0 < t < |h.list| && 1 <= n < Size(h, h.list[t])
    ensures Inv(Split(h, t, n, ptr), base, brk)
  {
    hide Linked, Partitioned;
    var p := h.list[t];
    var a := p + Size(h, p) - n;
    var h' := Split(h, t, n, ptr);
    InsideFree(h, base, brk, t, a);
    SplitLinked(h, base, brk, t, n, ptr);
    SplitPartition(h, base, brk, t, n, ptr);
    forall j, k | 0 <= j < k < |h'.list|
      ensures h'.list[j] + Size(h', h'.list[j]) < h'.list[k]
    {
      OrderAt(h, j, k);
    }
  }

  /** No block starts inside another, and base is not inside one. */
  lemma InsideFree(h: Heap, base: int, brk: int, t: nat, a: int)
    requires Inv(h, base, brk) && 0 < t < |h.list| && h.list[t] < a < h.list[t] + Size(h, h.list[t])
    ensures a !in h.list && a !in h.live && a != base && h.list[t] != base
  {
    var p := h.list[t];
    OrderAt(h, 0, t);
    assert IsBlock(h, base, p) && InBlock(p, Size(h, p), a);
    if IsBlock(h, base, a) { assert InBlock(a, Size(h, a), a); }
  }

  lemma SplitLinked(h: Heap, base: int, brk: int, t: nat, n: int, ptr: int)
    requires Linked(h, base) && t < |h.list| && h.list[t] != base
    requires h.list[t] + Size(h, h.list[t]) - n !in h.list
    ensures Linked(Split(h, t, n, ptr), base)
  {
    var h' := Split(h, t, n, ptr);
    forall k | 0 <= k < |h'.list|
      ensures LinkAt(h', base, k)
    {
      assert LinkAt(h, base, k);
    }
  }

  lemma SplitPartition(h: Heap, base: int, brk: int, t: nat, n: int, ptr: int)
    requires Inv(h, base, brk) && 0 < t < |h.list| && 1 <= n < Size(h, h.list[t])
    requires var a := h.list[t] + Size(h, h.list[t]) - n; a !in h.list && a !in h.live
    requires h.list[t] != base
    ensures Partitioned(Split(h, t, n, ptr), base, brk)
  {
    hide Linked, Ordered, Partitioned;
    var p := h.list[t];
    var a := p + Size(h, p) - n;
    var h' := Split(h, t, n, ptr);
    forall c
      ensures IsBlock(h', base, c) <==> c == a || IsBlock(h, base, c)
      ensures IsBlock(h', base, c) ==>
        c in h'.mem && Size(h', c) == if c == a then n else if c == p then Size(h, p) - n else Size(h, c)
      ensures c in h'.live ==> c !in h'.list && h'.live[c] == Size(h', c)
    {
      BlockAt(h, base, brk, c);
    }
    assert !IsBlock(h, base, a) && IsBlock(h, base, p);
    Refine(h, h', base, brk, p, a, n);
  }

  /** Two live neighbours become one live block. */
  ghost function Join(h: Heap, b: int, q: int): Heap
    requires b in h.mem
  {
    Heap(SetSize(h.mem, b, Size(h, b) + Size(h, q)), h.list, h.live[b := Size(h, b) + Size(h, q)] - {q},
         Retag(h.tag, q, Size(h, q), b))
  }

  lemma JoinKeeps(h: Heap, base: int, brk: int, b: int, q: int)
    requires Inv(h, base, brk) && b in h.live && q in h.live && b + Size(h, b) == q
    ensures Inv(Join(h, b, q), base, brk)
  {
    var h' := Join(h, b, q);
    assert IsBlock(h, base, b) && IsBlock(h, base, q) && b != q;
    assert forall a :: a != b ==> Size(h', a) == Size(h, a);
    forall k | 0 <= k < |h'.list|
      ensures LinkAt(h', base, k)
    {
      assert LinkAt(h, base, k);
    }
    JoinPartition(h, base, brk, b, q);
  }

  lemma JoinPartition(h: Heap, base: int, brk: int, b: int, q: int)
    requires Partitioned(h, base, brk) && b in h.live && q in h.live && b + Size(h, b) == q && b != q
    ensures Partitioned(Join(h, b, q), base, brk)
  {
    hide Partitioned;
    var h' := Join(h, b, q);
    forall c
      ensures IsBlock(h', base, c) <==> c != q && IsBlock(h, base, c)
      ensures IsBlock(h', base, c) ==>
        c in h'.mem && Size(h', c) == if c == b then Size(h, b) + Size(h, q) else Size(h, c)
      ensures c in h'.live ==> c !in h'.list && h'.live[c] == Size(h', c)
    {
      BlockAt(h, base, brk, c);
      BlockAt(h, base, brk, q);
    }
    Coarsen(h, h', base, brk, b, q);
  }

  /** Link the live block b into the list after position t. */
  ghost function Give(h: Heap, t: nat, b: int): Heap
    requires t < |h.list| && h.list[t] in h.mem && b in h.mem
  {
    Heap(SetPtr(SetPtr(h.mem, b, h.mem[h.list[t]].ptr), h.list[t], b), InsertAt(h.list, t + 1, b), h.live - {b}, h.tag)
  }

  lemma GiveKeeps(h: Heap, base: int, brk: int, t: nat, b: int)
    requires Inv(h, base, brk) && t < |h.list| && b in h.live
    requires h.list[t] + Size(h, h.list[t]) < b && (t + 1 < |h.list| ==> b + Size(h, b) < h.list[t + 1])
    ensures Inv(Give(h, t, b), base, brk)
  {
    var h' := Give(h, t, b);
    assert IsBlock(h, base, b) && b !in h.list;
    assert forall a :: Size(h', a) == Size(h, a);
    GiveMembers(h.list, t + 1, b);
    GiveLinked(h, base, brk, t, b);
    assert forall a :: IsBlock(h', base, a) <==> IsBlock(h, base, a);
    SamePartition(h, h', base, brk);
    forall j, k | 0 <= j < k < |h'.list|
      ensures h'.list[j] + Size(h', h'.list[j]) < h'.list[k]
    {
      GiveOrder(h, base, brk, t, b, j, k);
    }
  }

  lemma GiveMembers(l: seq<int>, i: nat, x: int)
    requires i <= |l|
    ensures forall a :: a in InsertAt(l, i, x) <==> a in l || a == x
  {
    var r := InsertAt(l, i, x);
    assert r[i] == x;
    forall a | a in l
      ensures a in r
    {
      var k :| 0 <= k < |l| && l[k] == a;
      assert r[if k < i then k else k + 1] == a;
    }
  }

  lemma LiveOffList(h: Heap, base: int, brk: int, b: int)
    requires Partitioned(h, base, brk) && b in h.live
    ensures b !in h.list && b in h.mem && h.live[b] == Size(h, b) >= 1
  {
    assert IsBlock(h, base, b);
  }

  lemma GiveLinked(h: Heap, base: int, brk: int, t: nat, b: int)
    requires Inv(h, base, brk) && t < |h.list| && b in h.live
    ensures Linked(Give(h, t, b), base)
  {
    hide Partitioned;
    LiveOffList(h, base, brk, b);
    var h' := Give(h, t, b);
    assert LinkAt(h, base, t);
    forall k | 0 <= k < |h'.list|
      ensures LinkAt(h', base, k)
    {
      var i := if k <= t then k else if k == t + 1 then t else k - 1;
      assert LinkAt(h, base, i);
      if h.list[i] == h.list[t] { OneIndex(h, base, brk, i, t); }
    }
  }

  lemma FreeSizes(h: Heap, base: int, brk: int, k: nat)
    requires Inv(h, base, brk) && k < |h.list|
    ensures Size(h, h.list[k]) >= 0 && h.list[k] !in h.live && (k > 0 ==> h.list[k] != base)
  {
    if h.list[k] != base { assert IsBlock(h, base, h.list[k]); }
  }

  lemma GiveOrder(h: Heap, base: int, brk: int, t: nat, b: int, j: nat, k: nat)
    requires Inv(h, base, brk) && t < |h.list| && b in h.live
    requires h.list[t] + Size(h, h.list[t]) < b && (t + 1 < |h.list| ==> b + Size(h, b) < h.list[t + 1])
    requires j < k < |h.list| + 1
    ensures |InsertAt(h.list, t + 1, b)| == |h.list| + 1
    ensures InsertAt(h.list, t + 1, b)[j] + Size(h, InsertAt(h.list, t + 1, b)[j]) < InsertAt(h.list, t + 1, b)[k]
  {
    hide Partitioned, Linked, Ordered, InsertAt;
    InsertIndex(h.list, t + 1, b, j);
    InsertIndex(h.list, t + 1, b, k);
    if k == t + 1 {
      if j < t { OrderAt(h, j, t); }
      FreeSizes(h, base, brk, t);
    } else if j == t + 1 {
      if t + 1 < k - 1 { OrderAt(h, t + 1, k - 1); }
      FreeSizes(h, base, brk, t + 1);
    } else {
      OrderAt(h, if j <= t then j else j - 1, if k <= t then k else k - 1);
    }
  }

  lemma InsertIndex(s: seq<int>, i: nat, x: int, k: nat)
    requires i <= |s| && k <= |s|
    ensures |InsertAt(s, i, x)| == |s| + 1
    ensures InsertAt(s, i, x)[k] == if k < i then s[k] else if k == i then x else s[k - 1]
  {
  }

  lemma OrderAt(h: Heap, j: nat, k: nat)
    requires Ordered(h) && j < k < |h.list|
    ensures h.list[j] + Size(h, h.list[j]) < h.list[k]
  {
  }

  /** The live block b becomes the end of the free block at position t that it touches. */
  ghost function Merge(h: Heap, t: nat, b: int): Heap
    requires t < |h.list| && h.list[t] in h.mem && b in h.mem
  {
    Heap(SetSize(SetPtr(h.mem, b, h.mem[h.list[t]].ptr), h.list[t], Size(h, h.list[t]) + Size(h, b)), h.list,
         h.live - {b}, Retag(h.tag, b, Size(h, b), h.list[t]))
  }

  lemma MergeKeeps(h: Heap, base: int, brk: int, t: nat, b: int)
    requires Inv(h, base, brk) && 0 < t < |h.list| && b in h.live
    requires h.list[t] + Size(h, h.list[t]) == b && (t + 1 < |h.list| ==> b + Size(h, b) < h.list[t + 1])
    ensures Inv(Merge(h, t, b), base, brk)
  {
    var h', p := Merge(h, t, b), h.list[t];
    assert IsBlock(h, base, b) && IsBlock(h, base, p) && b !in h.list;
    assert forall a :: a != p ==> Size(h', a) == Size(h, a);
    forall k | 0 <= k < |h'.list|
      ensures LinkAt(h', base, k)
    {
      assert LinkAt(h, base, k);
    }
    forall j, k | 0 <= j < k < |h'.list|
      ensures h'.list[j] + Size(h', h'.list[j]) < h'.list[k]
    {
      assert h.list[j] + Size(h, h.list[j]) < h.list[k];
      if h.list[j] == p {
        OneIndex(h, base, brk, j, t);
        assert t + 1 < k ==> h.list[t + 1] + Size(h, h.list[t + 1]) < h.list[k];
        assert Size(h, h.list[t + 1]) >= 1 by { assert IsBlock(h, base, h.list[t + 1]); }
      }
    }
    MergePartition(h, base, brk, t, b);
  }

  lemma MergePartition(h: Heap, base: int, brk: int, t: nat, b: int)
    requires Partitioned(h, base, brk) && t < |h.list| && b in h.live && h.list[t] != base
    requires h.list[t] + Size(h, h.list[t]) == b
    ensures IsBlock(h, base, h.list[t]) && Partitioned(Merge(h, t, b), base, brk)
  {
    hide Partitioned;
    var p := h.list[t];
    BlockAt(h, base, brk, b);
    BlockAt(h, base, brk, p);
    var h' := Merge(h, t, b);
    forall c
      ensures IsBlock(h', base, c) <==> c != b && IsBlock(h, base, c)
      ensures IsBlock(h', base, c) ==>
        c in h'.mem && Size(h', c) == if c == p then Size(h, p) + Size(h, b) else Size(h, c)
      ensures c in h'.live ==> c !in h'.list && h'.live[c] == Size(h', c)
    {
      BlockAt(h, base, brk, c);
    }
    Coarsen(h, h', base, brk, p, b);
  }

  /** The n units at hp, above all others, are one more block. */
  lemma Extend(h: Heap, h': Heap, base: int, brk: int, hp: int, n: int)
    requires Partitioned(h, base, brk) && brk <= hp && 1 <= n && !IsBlock(h, base, hp)
    requires h'.tag == h.tag + map u | hp <= u < hp + n && InBlock(hp, n, u) :: hp
    requires forall c :: IsBlock(h', base, c) <==> c == hp || IsBlock(h, base, c)
    requires forall c :: IsBlock(h', base, c) ==> c in h'.mem && Size(h', c) == if c == hp then n else Size(h, c)
    requires forall c :: c in h'.live ==> c !in h'.list && h'.live[c] == Size(h', c)
    ensures Partitioned(h', base, hp + n)
  {
    hide IsBlock, Size;
    forall c, u | IsBlock(h', base, c) && InBlock(c, Size(h', c), u)
      ensures u in h'.tag && h'.tag[u] == c
    {
      assert c != hp ==> InBlock(c, Size(h, c), u);
    }
  }

  /** n units from sbrk() at hp, at or above the old break, become a live block. */
  ghost function Grant(h: Heap, hp: int, ptr: int, n: int): Heap {
    Heap(h.mem[hp := Header(ptr, n)], h.list, h.live[hp := n],
         h.tag + map u | hp <= u < hp + n && InBlock(hp, n, u) :: hp)
  }

  lemma GrantKeeps(h: Heap, base: int, brk: int, hp: int, ptr: int, n: int)
    requires Inv(h, base, brk) && brk <= hp && 1 <= n
    ensures Inv(Grant(h, hp, ptr, n), base, hp + n)
  {
    var h' := Grant(h, hp, ptr, n);
    assert hp !in h.live && hp !in h.list by {
      if IsBlock(h, base, hp) { assert InBlock(hp, Size(h, hp), hp); }
    }
    assert forall a :: a != hp ==> Size(h', a) == Size(h, a);
    forall k | 0 <= k < |h'.list|
      ensures LinkAt(h', base, k)
    {
      assert LinkAt(h, base, k);
    }
    GrantPartition(h, base, brk, hp, ptr, n);
  }

  lemma GrantPartition(h: Heap, base: int, brk: int, hp: int, ptr: int, n: int)
    requires Partitioned(h, base, brk) && brk <= hp && 1 <= n && hp !in h.live && hp !in h.list
    ensures Partitioned(Grant(h, hp, ptr, n), base, hp + n)
  {
    hide Partitioned;
    var h' := Grant(h, hp, ptr, n);
    forall c
      ensures IsBlock(h', base, c) <==> c == hp || IsBlock(h, base, c)
      ensures IsBlock(h', base, c) ==> c in h'.mem && Size(h', c) == if c == hp then n else Size(h, c)
      ensures c in h'.live ==> c !in h'.list && h'.live[c] == Size(h', c)
    {
      BlockAt(h, base, brk, c);
    }
    Extend(h, h', base, brk, hp, n);
  }

  // ---------------------------------------------------------------- searching the list

  /** The position after which a live block belongs. */
  ghost predicate Gap(h: Heap, b: int, t: nat) {
    t < |h.list| && h.list[t] < b && (t + 1 < |h.list| ==> b < h.list[t + 1])
  }

  lemma GapExists(h: Heap, base: int, brk: int, b: int) returns (t: nat)
    requires Inv(h, base, brk) && b in h.live
    ensures Gap(h, b, t)
  {
    LiveOffList(h, base, brk, b);
    assert IsBlock(h, base, b) && InBlock(b, Size(h, b), b);
    t := 0;
    while t + 1 < |h.list| && h.list[t + 1] < b
      invariant t < |h.list| && h.list[t] < b
    {
      t := t + 1;
    }
    if t + 1 < |h.list| {
      assert h.list[t + 1] in h.list;
    }
  }

  /** free()'s stopping test: between p and p->ptr, or at the wrap with bp beyond either end. */
  predicate Stops(p: int, q: int, bp: int) {
    (bp > p && bp < q) || (p >= q && (bp > p || bp < q))
  }

  /** The test holds at the gap and at no other position of the list. */
  lemma StopsAtGap(h: Heap, base: int, brk: int, b: int, t: nat, k: nat)
    requires Inv(h, base, brk) && b in h.live && Gap(h, b, t) && k < |h.list|
    ensures LinkAt(h, base, k) && (Stops(h.list[k], h.mem[h.list[k]].ptr, b) <==> k == t)
  {
    assert LinkAt(h, base, k);
    forall j | 0 <= j < |h.list|
      ensures Size(h, h.list[j]) >= 0
    {
      FreeSizes(h, base, brk, j);
    }
    if k < t {
      assert h.list[k] < h.list[k + 1];
      assert k + 1 < t ==> h.list[k + 1] < h.list[t];
    } else if k > t {
      assert t + 1 < k ==> h.list[t + 1] < h.list[k];
      assert 0 < k ==> h.list[0] < h.list[k];
      assert 0 < t ==> h.list[0] < h.list[t];
    }
  }

  // ---------------------------------------------------------------- free()

  /** free()'s first test: the block after the gap, if b touches it, becomes part of b. */
  ghost function Forward(h: Heap, t: nat, b: int): Heap
    requires t < |h.list| && h.list[t] in h.mem && b in h.mem && (t + 1 < |h.list| ==> h.list[t + 1] in h.mem)
  {
    if t + 1 < |h.list| && b + Size(h, b) == h.list[t + 1] then Join(Take(h, t), b, h.list[t + 1]) else h
  }

  lemma ForwardKeeps(h: Heap, base: int, brk: int, b: int, t: nat)
    requires Inv(h, base, brk) && b in h.live && Gap(h, b, t)
    ensures b in h.mem && h.list[t] in h.mem && (t + 1 < |h.list| ==> h.list[t + 1] in h.mem)
    ensures var h1 := Forward(h, t, b);
      && Inv(h1, base, brk) && b in h1.live && t < |h1.list| && h1.list[t] == h.list[t]
      && (t + 1 < |h1.list| ==> b + Size(h1, b) < h1.list[t + 1])
      && Size(h1, h.list[t]) == Size(h, h.list[t]) && Size(h1, b) >= Size(h, b)
      && h1.live - {b} == h.live - {b} && h1.tag.Keys == h.tag.Keys
  {
    hide Linked, Partitioned;
    LiveOffList(h, base, brk, b);
    TestsGap(h, base, brk, b, t);
    if t + 1 < |h.list| {
      var q := h.list[t + 1];
      FreeSizes(h, base, brk, t + 1);
      assert IsBlock(h, base, b) && IsBlock(h, base, q);
      BlocksApart(h, base, brk, b, q);
      if b + Size(h, b) == q {
        TakeKeeps(h, base, brk, t);
        var k := Take(h, t);
        assert forall a :: Size(k, a) == Size(h, a);
        JoinKeeps(k, base, brk, b, q);
        assert t + 2 < |h.list| ==> h.list[t + 1] + Size(h, h.list[t + 1]) < h.list[t + 2];
      }
    }
  }

  ghost function Freed(h: Heap, t: nat, b: int): Heap
    requires t < |h.list| && h.list[t] in h.mem && b in h.mem && (t + 1 < |h.list| ==> h.list[t + 1] in h.mem)
    requires
      t < |Forward(h, t, b).list| && Forward(h, t, b).list[t] in Forward(h, t, b).mem && b in Forward(h, t, b).mem
  {
    if h.list[t] + Size(h, h.list[t]) == b then Merge(Forward(h, t, b), t, b) else Give(Forward(h, t, b), t, b)
  }

  lemma BaseFirst(h: Heap, base: int, brk: int, t: nat)
    requires Inv(h, base, brk) && t < |h.list|
    ensures (h.list[t] == base <==> t == 0) && Size(h, h.list[t]) >= 0 && (t > 0 ==> IsBlock(h, base, h.list[t]))
    ensures t == 0 ==> Size(h, h.list[t]) == 0
  {
    FreeSizes(h, base, brk, t);
    if t > 0 { assert h.list[0] + Size(h, h.list[0]) < h.list[t]; }
  }

  /** free() keeps the invariant, and the list holds a block at least as large as the freed one at or after p. */
  lemma FreedKeeps(h: Heap, base: int, brk: int, b: int, t: nat)
    requires Inv(h, base, brk) && b in h.live && Gap(h, b, t)
    ensures b in h.mem && h.list[t] in h.mem && (t + 1 < |h.list| ==> h.list[t + 1] in h.mem)
    ensures var h1 := Forward(h, t, b); t < |h1.list| && h1.list[t] == h.list[t] && h1.list[t] in h1.mem && b in h1.mem
    ensures var h2 := Freed(h, t, b);
      && Inv(h2, base, brk) && h2.live == h.live - {b} && h2.tag.Keys == h.tag.Keys
      && t < |h2.list| && h2.list[t] == h.list[t]
      && (Size(h2, h.list[t]) >= Size(h, b)
          || (t + 1 < |h2.list| && h2.list[t + 1] == b && Size(h2, b) >= Size(h, b)))
  {
    hide Linked, Ordered, Partitioned, Forward;
    ForwardKeeps(h, base, brk, b, t);
    var h1 := Forward(h, t, b);
    LiveOffList(h1, base, brk, b);
    var p := h.list[t];
    LinkedAt(h1, base, t);
    BaseFirst(h, base, brk, t);
    if p + Size(h, p) == b {
      MergeKeeps(h1, base, brk, t, b);
      assert Size(Merge(h1, t, b), p) == Size(h1, p) + Size(h1, b);
    } else {
      if p != base {
        assert IsBlock(h, base, p) && IsBlock(h, base, b);
        BlocksApart(h, base, brk, p, b);
      }
      GiveKeeps(h1, base, brk, t, b);
      assert Size(Give(h1, t, b), b) == Size(h1, b);
    }
  }

  lemma AboveBase(h: Heap, base: int, brk: int, k: nat)
    requires Inv(h, base, brk) && k < |h.list|
    ensures base <= h.list[k]
  {
    if 0 < k { assert h.list[0] + Size(h, h.list[0]) < h.list[k]; }
  }

  lemma GrantFresh(h: Heap, base: int, brk: int, hp: int, ptr: int, n: int)
    requires Inv(h, base, brk) && brk <= hp && 1 <= n
    ensures hp !in h.live && Grant(h, hp, ptr, n).live - {hp} == h.live
    ensures forall u :: u in Grant(h, hp, ptr, n).tag <==> u in h.tag || InBlock(hp, n, u)
  {
    if hp in h.live {
      assert IsBlock(h, base, hp) && InBlock(hp, Size(h, hp), hp);
    }
    var g := Grant(h, hp, ptr, n);
    assert forall u :: hp <= u < hp + n ==> InBlock(hp, n, u);
  }

  /** Neither a free block nor the cut-off end of one is live. */
  lemma FreeNotLive(h: Heap, base: int, brk: int, k: nat, n: int)
    requires Inv(h, base, brk) && 0 < k < |h.list| && 1 <= n <= Size(h, h.list[k])
    ensures h.list[k] !in h.live && h.list[k] + Size(h, h.list[k]) - n !in h.live
  {
    var p := h.list[k];
    var a := p + Size(h, p) - n;
    assert IsBlock(h, base, p) && InBlock(p, Size(h, p), a);
    if a in h.live {
      assert IsBlock(h, base, a) && InBlock(a, Size(h, a), a);
    }
  }

  lemma LinkedAt(h: Heap, base: int, k: nat)
    requires Linked(h, base) && k < |h.list|
    ensures h.list[k] in h.mem && LinkAt(h, base, k)
  {
  }

  /** Positions around the circular list, and how many steps lead from one to another. */
  function Next(n: nat, k: nat): nat { if k + 1 < n then k + 1 else 0 }
  function Distance(n: nat, k: nat, to: nat): int { if k <= to then to - k else to + n - k }

  /** Some free block has n units. */
  ghost predicate Fits(h: Heap, n: int) {
    exists j :: 0 <= j < |h.list| && Size(h, h.list[j]) >= n
  }

  /** The blocks that a walk starting after position `start` meets before position c are too small for n units. */
  ghost predicate TooSmall(h: Heap, start: nat, c: nat, n: int) {
    var n', s := |h.list|, Next(|h.list|, start);
    forall j: nat :: j < n' && Distance(n', s, j) < Distance(n', s, c) ==> Size(h, h.list[j]) < n
  }

  /** Position fit is where first fit ends: the first block with n units after freep, around the circle. */
  ghost predicate FirstFit(h: Heap, freep: int, fit: nat, n: int) {
    && fit < |h.list| && Size(h, h.list[fit]) >= n
    && exists start: nat :: start < |h.list| && h.list[start] == freep && TooSmall(h, start, fit, n)
  }

  lemma SmallStart(h: Heap, start: nat, n: int)
    requires start < |h.list|
    ensures TooSmall(h, start, Next(|h.list|, start), n)
  {
  }

  lemma NoneAtFirst(h: Heap, base: int, n: int)
    requires h.list == [base] && Size(h, base) == 0 && n >= 1
    ensures !Fits(h, n)
  {
  }

  lemma SmallNext(h: Heap, start: nat, c: nat, n: int)
    requires start < |h.list| && c < |h.list| && c != start && TooSmall(h, start, c, n) && Size(h, h.list[c]) < n
    ensures TooSmall(h, start, Next(|h.list|, c), n)
  {
  }

  /** The walk comes back to where it began only after it has met every block. */
  lemma NoneFits(h: Heap, start: nat, n: int)
    requires start < |h.list| && TooSmall(h, start, start, n) && Size(h, h.list[start]) < n
    ensures !Fits(h, n)
  {
    forall j | 0 <= j < |h.list|
      ensures Size(h, h.list[j]) < n
    {
      if j != start {
        assert Distance(|h.list|, Next(|h.list|, start), j) < Distance(|h.list|, Next(|h.list|, start), start);
      }
    }
  }

  lemma NextIn(h: Heap, base: int, k: nat)
    requires Linked(h, base) && k < |h.list|
    ensures h.list[k] in h.mem && Next(|h.list|, k) < |h.list|
    ensures h.mem[h.list[k]].ptr == h.list[Next(|h.list|, k)] && h.mem[h.list[k]].ptr in h.mem
  {
    assert LinkAt(h, base, k);
  }

  /** A header with room to take from is not base. */
  lemma NotBase(h: Heap, base: int, brk: int, k: nat)
    requires Inv(h, base, brk) && k < |h.list| && h.list[k] in h.mem && Size(h, h.mem[h.list[k]].ptr) >= 1
    ensures k + 1 < |h.list| && h.list[k + 1] == h.mem[h.list[k]].ptr
  {
    assert LinkAt(h, base, k);
  }

  lemma AboveZero(h: Heap, base: int, brk: int, a: int)
    requires Inv(h, base, brk) && a in h.live && 0 < base
    ensures a > 0
  {
    assert IsBlock(h, base, a) && InBlock(a, Size(h, a), a);
  }

  /** n units taken from the free block after position k, all of it or its end. */
  ghost function Cut(h: Heap, k: nat, n: int): Heap
    requires k + 1 < |h.list| && h.list[k] in h.mem && h.list[k + 1] in h.mem
  {
    if Size(h, h.list[k + 1]) == n then Take(h, k) else Split(h, k + 1, n, 0)
  }

  lemma CutKeeps(h: Heap, base: int, brk: int, k: nat, n: int)
    requires Inv(h, base, brk) && 0 < base && k < |h.list| && h.list[k] in h.mem && h.mem[h.list[k]].ptr in h.mem
    requires 1 <= n <= Size(h, h.mem[h.list[k]].ptr)
    ensures k + 1 < |h.list| && h.list[k + 1] == h.mem[h.list[k]].ptr && h.list[k] != 0
    ensures var h2, q := Cut(h, k, n), h.list[k + 1];
      var a := q + Size(h, q) - n;
      && Inv(h2, base, brk) && h.list[k] in h2.list && 0 < a && a !in h.live && h2.live == h.live[a := n]
      && h2.tag.Keys == h.tag.Keys
      && h2.mem ==
           if a == q then SetPtr(h.mem, h.list[k], h.mem[q].ptr)
           else SetSize(h.mem, q, a - q)[a := Header(0, n)]
  {
    hide Linked, Ordered, Partitioned, IsBlock;
    NotBase(h, base, brk, k);
    AboveBase(h, base, brk, k);
    FreeNotLive(h, base, brk, k + 1, n);
    if Size(h, h.list[k + 1]) == n {
      TakeKeeps(h, base, brk, k);
      assert Take(h, k).list[k] == h.list[k];
    } else {
      SplitKeeps(h, base, brk, k + 1, n, 0);
    }
    AboveZero(Cut(h, k, n), base, brk, h.list[k + 1] + Size(h, h.list[k + 1]) - n);
  }

  /** The four assignments of free(), as one change of the headers. */
  ghost function FreeHeaders(mem: map<int, Header>, p: int, b: int): map<int, Header>
    requires p in mem && b in mem && p != b && (b + mem[b].size == mem[p].ptr ==> mem[p].ptr in mem)
  {
    var q := mem[p].ptr;
    var m1 :=
      if b + mem[b].size == q then mem[b := Header(mem[q].ptr, mem[b].size + mem[q].size)]
      else mem[b := Header(q, mem[b].size)];
    if p + m1[p].size == b then m1[p := Header(m1[b].ptr, m1[p].size + m1[b].size)] else m1[p := Header(b, m1[p].size)]
  }

  /** free()'s first test asks about the list: the block that follows the gap, if any, begins where b ends. */
  lemma TestsGap(h: Heap, base: int, brk: int, b: int, t: nat)
    requires Inv(h, base, brk) && b in h.live && Gap(h, b, t)
    ensures b in h.mem && h.list[t] in h.mem && h.list[t] != b
    ensures b + h.mem[b].size == h.mem[h.list[t]].ptr <==> t + 1 < |h.list| && b + Size(h, b) == h.list[t + 1]
    ensures t + 1 < |h.list| ==>
      && h.mem[h.list[t]].ptr == h.list[t + 1] && h.list[t + 1] in h.mem
      && h.list[t + 1] != b && h.list[t + 1] != h.list[t]
  {
    LiveOffList(h, base, brk, b);
    assert LinkAt(h, base, t);
    FreeSizes(h, base, brk, t);
    if t > 0 { assert h.list[0] + Size(h, h.list[0]) < h.list[t]; }
  }

  lemma FreedHeaders(h: Heap, base: int, brk: int, b: int, t: nat)
    requires Inv(h, base, brk) && b in h.live && Gap(h, b, t)
    requires b in h.mem && h.list[t] in h.mem && (t + 1 < |h.list| ==> h.list[t + 1] in h.mem)
    requires var h1 := Forward(h, t, b); t < |h1.list| && h1.list[t] == h.list[t] && h1.list[t] in h1.mem && b in h1.mem
    ensures h.list[t] != b && (b + h.mem[b].size == h.mem[h.list[t]].ptr ==> h.mem[h.list[t]].ptr in h.mem)
    ensures Freed(h, t, b).mem == FreeHeaders(h.mem, h.list[t], b)
  {
    hide Linked, Ordered, Partitioned, Retag, InsertAt, RemoveAt;
    TestsGap(h, base, brk, b, t);
  }

  // ---------------------------------------------------------------- sizes in bytes

  const HEADER: nat := 8

  /** malloc()'s nunits, computed in uint arithmetic. */
  function Nunits(nbytes: nat): nat {
    (nbytes + HEADER - 1) % UINT / HEADER + 1
  }

  /** The argument sbrk() receives for nu units: a uint product read as an int. */
  function SbrkArg(nu: nat): int {
    var bytes := nu * HEADER % UINT;
    if bytes < UINT / 2 then bytes else bytes - UINT
  }

  function Chunk(nu: nat): nat { if nu < 4096 then 4096 else nu }

  /**
   The request is served in full (room for nbytes behind the header, and sbrk() asked for exactly the
   chunk) if and only if neither computation wraps, which is so up to two gigabytes less two headers.
   */
  predicate NoWrap(nbytes: nat) { nbytes <= UINT / 2 - 2 * HEADER }

  lemma AtLeastOne(nbytes: nat)
    ensures Nunits(nbytes) >= 1
  {
  }

  lemma WrapExactly(nbytes: nat)
    requires nbytes < UINT
    ensures NoWrap(nbytes) <==>
      (Nunits(nbytes) - 1) * HEADER >= nbytes && SbrkArg(Chunk(Nunits(nbytes))) == Chunk(Nunits(nbytes)) * HEADER
  {
    if nbytes + HEADER - 1 < UINT {
      assert Nunits(nbytes) == (nbytes + HEADER - 1) / HEADER + 1;
    } else {
      assert Nunits(nbytes) == 1;
    }
  }

  // ---------------------------------------------------------------- umalloc.c

  class Allocator {
    const base: int
    var mem: map<int, Header>
    var freep: int
    var brk: int
    ghost var list: seq<int>
    ghost var live: map<int, int>
    ghost var tag: map<int, int>
    ghost var sbrks: nat

    ghost function H(): Heap
      reads this
    {
      Heap(mem, list, live, tag)
    }

    /** Before the first malloc() freep is null and nothing is allocated. */
    ghost predicate Valid()
      reads this
    {
      && 0 < base < brk
      && (freep == 0 ==> live == map[] && tag == map[] && list == [base] && Size(H(), base) == 0)
      && (freep != 0 ==> freep in list && Inv(H(), base, brk))
    }

    constructor (base: int, brk: int)
      requires 0 < base < brk
      ensures Valid() && live == map[] && tag == map[] && sbrks == 0
    {
      this.base, this.brk, freep := base, brk, 0;
      mem := map[base := Header(0, 0)];
      list, live, tag, sbrks := [base], map[], map[], 0;
    }

    /** sbrk(): fails, or moves the break up, possibly past units someone else took in between. */
    method Sbrk(n: nat) returns (p: int)
      requires 1 <= n && 0 < brk
      modifies this`brk, this`sbrks
      ensures p == -1 || (old(brk) <= p && brk == p + n)
      ensures p == -1 ==> brk == old(brk)
      ensures sbrks == old(sbrks) + 1
    {
      sbrks := sbrks + 1;
      if * {
        return -1;
      }
      var taken :| 0 <= taken;
      p := brk + taken;
      brk := p + n;
    }

    /** free()'s walk around the list from freep: it stops, and stops at the gap the block belongs in. */
    method FindGap(bp: int) returns (p: int, ghost t: nat)
      requires Valid() && freep != 0 && bp in live
      ensures Gap(H(), bp, t) && p == list[t]
    {
      hide Ordered, Partitioned;
      t := GapExists(H(), base, brk, bp);
      p := freep;
      ghost var k: nat :| k < |list| && list[k] == freep;
      StopsAtGap(H(), base, brk, bp, t, k);
      while !(bp > p && bp < mem[p].ptr)
        invariant k < |list| && p == list[k] && p in mem
        invariant LinkAt(H(), base, k) && (Stops(p, mem[p].ptr, bp) <==> k == t)
        decreases if k <= t then t - k else t + |list| - k
      {
        if p >= mem[p].ptr && (bp > p || bp < mem[p].ptr) {
          break;
        }
        p := mem[p].ptr;
        k := if k + 1 < |list| then k + 1 else 0;
        StopsAtGap(H(), base, brk, bp, t, k);
      }
    }

    /** free()'s two tests and the header assignments under them. */
    method Relink(p: int, bp: int)
      requires p in mem && bp in mem && p != bp && (bp + mem[bp].size == mem[p].ptr ==> mem[p].ptr in mem)
      modifies this`mem
      ensures mem == FreeHeaders(old(mem), p, bp)
    {
      if bp + mem[bp].size == mem[p].ptr {
        var q := mem[p].ptr;
        mem := mem[bp := Header(mem[q].ptr, mem[bp].size + mem[q].size)];
      } else {
        mem := mem[bp := Header(mem[p].ptr, mem[bp].size)];
      }
      if p + mem[p].size == bp {
        mem := mem[p := Header(mem[bp].ptr, mem[p].size + mem[bp].size)];
      } else {
        mem := mem[p := Header(bp, mem[p].size)];
      }
    }

    /** free() of a live block: it alone becomes free, merged with free neighbours on either side. */
    method Free(ap: int)
      requires Valid() && ap - 1 in live
      modifies this`mem, this`freep, this`list, this`live, this`tag
      ensures Valid() && freep != 0
      ensures live == old(live) - {ap - 1} && tag.Keys == old(tag.Keys)
      ensures freep in mem && (mem[freep].size >= old(live)[ap - 1]
        || (mem[freep].ptr == ap - 1 && ap - 1 in list && ap - 1 in mem && mem[ap - 1].size >= old(live)[ap - 1]))
    {
      hide Linked, Ordered, Partitioned, Freed, FreeHeaders;
      var bp := ap - 1;
      assert freep != 0;
      ghost var h := H();
      var p;
      ghost var t;
      p, t := FindGap(bp);
      FreedKeeps(h, base, brk, bp, t);
      LiveOffList(h, base, brk, bp);
      FreedHeaders(h, base, brk, bp, t);
      AboveBase(h, base, brk, t);
      Relink(p, bp);
      freep := p;
      ghost var h2 := Freed(h, t, bp);
      list, live, tag := h2.list, h2.live, h2.tag;
      assert H() == h2;
      LinkedAt(h2, base, t);
    }

    /** A block of at least n units is at freep or right after it. */
    ghost predicate Found(n: int)
      reads this
    {
      freep in mem && (mem[freep].size >= n || (mem[freep].ptr in mem && mem[mem[freep].ptr].size >= n))
    }

    /**
     morecore(): a chunk of at least nu units from sbrk() joins the free list.  wild: the chunk's size in
     bytes does not fit the int that sbrk() takes, and it would be asked for something else.
     */
    method Morecore(nu: nat) returns (p: int, wild: bool)
      requires Valid() && freep != 0 && 1 <= nu
      modifies this
      ensures wild <==> SbrkArg(Chunk(nu)) != Chunk(nu) * HEADER
      ensures wild ==> p == 0 && sbrks == old(sbrks)
      ensures !wild ==> sbrks == old(sbrks) + 1
      ensures Valid() && freep != 0 && live == old(live)
      ensures
        p == 0 ==> mem == old(mem) && list == old(list) && tag == old(tag) && freep == old(freep) && brk == old(brk)
      ensures p != 0 ==> p == freep && Found(nu)
      ensures p != 0 ==> old(brk) <= brk - Chunk(nu)
      ensures p != 0 ==> forall u :: u in tag <==> u in old(tag) || InBlock(brk - Chunk(nu), Chunk(nu), u)
    {
      hide Linked, Ordered, Partitioned;
      var n := Chunk(nu);
      if SbrkArg(n) != n * HEADER {
        return 0, true;
      }
      ghost var h, brk0 := H(), brk;
      var hp := Sbrk(n);
      if hp == -1 {
        return 0, false;
      }
      GrantKeeps(h, base, brk0, hp, 0, n);
      GrantFresh(h, base, brk0, hp, 0, n);
      mem := mem[hp := Header(0, n)];
      ghost var g := Grant(h, hp, 0, n);
      live, tag := g.live, g.tag;
      assert H() == g;
      Free(hp + 1);
      return freep, false;
    }

    /** malloc()'s two ways of taking nunits from the block p that follows prevp on the list. */
    method TakeFrom(prevp: int, p0: int, nunits: nat, ghost k: nat) returns (p: int)
      requires Valid() && freep != 0 && k < |list| && list[k] == prevp && prevp in mem && p0 == mem[prevp].ptr
      requires p0 in mem && 1 <= nunits <= mem[p0].size
      modifies this`mem, this`freep, this`list, this`live, this`tag
      ensures Valid() && freep == prevp != 0
      ensures p !in old(live) && live == old(live)[p := nunits] && tag.Keys == old(tag.Keys)
      ensures p == p0 + old(mem)[p0].size - nunits > 0
    {
      hide Inv, Cut;
      ghost var h := H();
      CutKeeps(h, base, brk, k, nunits);
      p := p0;
      if mem[p].size == nunits {
        mem := mem[prevp := Header(mem[p].ptr, mem[prevp].size)];
      } else {
        mem := mem[p := Header(mem[p].ptr, mem[p].size - nunits)];
        p := p + mem[p].size;
        mem := mem[p := Header(0, nunits)];
      }
      freep := prevp;
      ghost var h2 := Cut(h, k, nunits);
      list, live, tag := h2.list, h2.live, h2.tag;
      assert H() == h2;
    }

    /** The empty list malloc() sets up on its first call. */
    method Start()
      requires Valid() && freep == 0
      modifies this`mem, this`freep
      ensures Valid() && freep == base && Size(H(), base) == 0
    {
      mem := mem[base := Header(base, 0)];
      freep := base;
      assert LinkAt(H(), base, 0);
    }

    /**
     malloc()'s walk around the list, from freep until it is back there: it finds the first block with
     nunits units, the one after prevp, exactly if there is such a block.
     */
    method Search(nunits: nat) returns (found: bool, prevp: int, ghost k: nat)
      requires Valid() && freep != 0
      ensures found <==> Fits(H(), nunits)
      ensures found ==> k < |list| && list[k] == prevp && prevp in mem && mem[prevp].ptr in mem
      ensures found ==> Next(|list|, k) < |list| && mem[prevp].ptr == list[Next(|list|, k)]
      ensures found ==> FirstFit(H(), freep, Next(|list|, k), nunits) && mem[mem[prevp].ptr].size >= nunits
    {
      hide Linked, Ordered, Partitioned, TooSmall;
      ghost var start: nat :| start < |list| && list[start] == freep;
      k := start;
      NextIn(H(), base, k);
      SmallStart(H(), start, nunits);
      prevp := freep;
      var p := mem[prevp].ptr;
      while mem[p].size < nunits
        invariant k < |list| && prevp == list[k] && prevp in mem && p == mem[prevp].ptr && p in mem
        invariant
          Next(|list|, k) < |list| && list[Next(|list|, k)] == p && TooSmall(H(), start, Next(|list|, k), nunits)
        decreases Distance(|list|, Next(|list|, k), start)
      {
        if p == freep {
          OneIndex(H(), base, brk, start, Next(|list|, k));
          NoneFits(H(), start, nunits);
          return false, prevp, k;
        }
        SmallNext(H(), start, Next(|list|, k), nunits);
        k := Next(|list|, k);
        NextIn(H(), base, k);
        prevp, p := p, mem[p].ptr;
      }
      return true, prevp, k;
    }

    /**
     malloc(): a block of exactly nunits units that was not live before, every other live block
     untouched.  It is the end of the first block after freep that has nunits units, if there is one, and
     the next search starts at its place (prev is the one before it on the list); only if there is none is
     sbrk() called, once, and null means that it failed, with no block changed.  wild: sbrk() would be asked
     for something else than the chunk.
     */
    method Malloc(nbytes: nat) returns (a: int, wild: bool, ghost prev: nat)
      requires Valid() && nbytes < UINT
      modifies this
      ensures Valid() && freep != 0
      ensures
        wild <==> !Fits(old(H()), Nunits(nbytes)) && SbrkArg(Chunk(Nunits(nbytes))) != Chunk(Nunits(nbytes)) * HEADER
      ensures wild ==> a == 0
      ensures sbrks == old(sbrks) + if Fits(old(H()), Nunits(nbytes)) || wild then 0 else 1
      ensures Fits(old(H()), Nunits(nbytes)) ==>
        var h, fit := old(H()), Next(|old(list)|, prev);
        && FirstFit(h, old(freep), fit, Nunits(nbytes)) && prev < |h.list| && freep == h.list[prev]
        && a - 1 == h.list[fit] + Size(h, h.list[fit]) - Nunits(nbytes)
      ensures a == 0 ==>
        live == old(live) && tag == old(tag) && brk == old(brk) && !Fits(old(H()), Nunits(nbytes))
      ensures a != 0 && !Fits(old(H()), Nunits(nbytes)) ==>
        var n := Chunk(Nunits(nbytes));
        old(brk) <= brk - n && forall u :: u in tag <==> u in old(tag) || InBlock(brk - n, n, u)
      ensures a != 0 ==> a - 1 !in old(live) && live == old(live)[a - 1 := Nunits(nbytes)]
      ensures forall u :: u in old(tag) ==> u in tag
      ensures sbrks == old(sbrks) ==> tag.Keys == old(tag.Keys) && brk == old(brk)
      ensures NoWrap(nbytes) ==> !wild && (a != 0 ==> (live[a - 1] - 1) * HEADER >= nbytes)
    {
      hide Linked, Ordered, Partitioned, Fits, FirstFit, NoWrap, SbrkArg, Nunits, Found;
      WrapExactly(nbytes);
      AtLeastOne(nbytes);
      var nunits := Nunits(nbytes);
      ghost var h := H();
      if freep == 0 {
        NoneAtFirst(h, base, nunits);
        Start();
        NoneAtFirst(H(), base, nunits);
      }
      var found, prevp;
      ghost var k;
      found, prevp, k := Search(nunits);
      prev := k;
      if !found {
        a, wild := Morecore(nunits);
        if a == 0 {
          return;
        }
        FoundFits(nunits);
        found, prevp, k := Search(nunits);
      }
      a := TakeFrom(prevp, mem[prevp].ptr, nunits, k);
      return a + 1, false, prev;
    }

    lemma FoundFits(n: int)
      requires Valid() && freep != 0 && Found(n)
      ensures Fits(H(), n)
    {
      hide Ordered, Partitioned;
      var k: nat :| k < |list| && list[k] == freep;
      NextIn(H(), base, k);
    }
  }
}
