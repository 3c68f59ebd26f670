/**
 The buffer cache of bio.c: a fixed set of buffers on a circular doubly linked list in order of release,
 over a disk that answers at once (memide.c).  Whatever is cached, recycled or still to be written, the
 cache shows a plain store of blocks.
 */
module Bio {

  import opened Params

  type Data = int

  datatype Key = Key(dev: nat, blockno: nat)

  datatype Buf = Buf(key: Key, refcnt: nat, valid: bool, dirty: bool, data: Data)

  // ---------------------------------------------------------------- the list

  /** next and prev of every buffer; the last entry is the list head. */
  datatype Links = Links(next: seq<nat>, prev: seq<nat>)

  function Succ(n: nat, k: nat): nat { if k + 1 < n then k + 1 else 0 }

  ghost predicate LinkAt(l: Links, ring: seq<nat>, k: nat)
    requires k < |ring|
  {
    var a, b := ring[k], ring[Succ(|ring|, k)];
    a < |l.next| && b < |l.prev| && l.next[a] == b && l.prev[b] == a
  }

  /** Following next from ring[0] visits the ring in order and returns; prev runs it backwards. */
  ghost predicate Ring(l: Links, ring: seq<nat>) {
    && |l.next| == |l.prev| && ring != [] && Distinct(ring)
    && (forall k :: 0 <= k < |ring| ==> ring[k] < |l.next|)
    && (forall k :: 0 <= k < |ring| ==> LinkAt(l, ring, k))
  }

  /** b->next->prev = b->prev; b->prev->next = b->next. */
  function Unlink(l: Links, b: nat): Links
    requires b < |l.next| == |l.prev| && l.next[b] < |l.prev| && l.prev[b] < |l.next|
  {
    Links(l.next[l.prev[b] := l.next[b]], l.prev[l.next[b] := l.prev[b]])
  }

  /** b becomes head->next. */
  function PushFront(l: Links, head: nat, b: nat): Links
    requires head < |l.next| == |l.prev| && b < |l.next| && l.next[head] < |l.prev|
  {
    Links(l.next[b := l.next[head]][head := b], l.prev[b := head][l.next[head] := b])
  }

  function InsertSecond(s: seq<nat>, x: nat): (r: seq<nat>)
    requires s != []
    ensures
      |r| == |s| + 1 && forall k :: 0 <= k < |r| ==> r[k] == if k == 0 then s[0] else if k == 1 then x else s[k - 1]
  {
    [s[0], x] + s[1..]
  }

  lemma OneIndex(s: seq<nat>, i: nat, j: nat)
    requires Distinct(s) && i < |s| && j < |s|
    ensures s[i] == s[j] <==> i == j
  {
  }

  lemma RemoveDistinct(s: seq<nat>, k: nat)
    requires Distinct(s) && k < |s|
    ensures Distinct(RemoveAt(s, k))
  {
    var r := RemoveAt(s, k);
    forall i, j | 0 <= i < j < |r|
      ensures r[i] != r[j]
    {
      assert r[i] == s[if i < k then i else i + 1] && r[j] == s[if j < k then j else j + 1];
    }
  }

  lemma InsertDistinct(s: seq<nat>, x: nat)
    requires Distinct(s) && s != [] && x !in s
    ensures Distinct(InsertSecond(s, x))
  {
    var r := InsertSecond(s, x);
    forall i, j | 0 <= i < j < |r|
      ensures r[i] != r[j]
    {
      assert s[if i < 2 then 0 else i - 1] in s && s[if j < 2 then 0 else j - 1] in s;
    }
  }

  lemma UnlinkAt(l: Links, ring: seq<nat>, k: nat, j: nat)
    requires Ring(l, ring) && 0 < k < |ring| && j < |ring| - 1
    requires l.next[ring[k]] < |l.prev| && l.prev[ring[k]] < |l.next|
    ensures LinkAt(Unlink(l, ring[k]), RemoveAt(ring, k), j)
  {
    hide Distinct;
    var n, i := |ring|, if j < k then j else j + 1;
    var r := RemoveAt(ring, k);
    assert LinkAt(l, ring, k) && LinkAt(l, ring, k - 1) && LinkAt(l, ring, i);
    assert r[j] == ring[i];
    if i == k - 1 {
      assert r[Succ(n - 1, j)] == ring[Succ(n, k)];
    } else {
      assert r[Succ(n - 1, j)] == ring[Succ(n, i)];
      OneIndex(ring, i, k - 1);
      OneIndex(ring, Succ(n, i), Succ(n, k));
    }
  }

  lemma UnlinkKeeps(l: Links, ring: seq<nat>, k: nat)
    requires Ring(l, ring) && 0 < k < |ring|
    ensures l.next[ring[k]] < |l.prev| && l.prev[ring[k]] < |l.next| && Ring(Unlink(l, ring[k]), RemoveAt(ring, k))
  {
    hide Distinct;
    assert LinkAt(l, ring, k) && LinkAt(l, ring, k - 1);
    RemoveDistinct(ring, k);
    forall j | 0 <= j < |ring| - 1
      ensures LinkAt(Unlink(l, ring[k]), RemoveAt(ring, k), j)
    {
      UnlinkAt(l, ring, k, j);
    }
  }

  lemma PushAt(l: Links, ring: seq<nat>, b: nat, j: nat)
    requires Ring(l, ring) && b < |l.next| && b !in ring && j <= |ring| && l.next[ring[0]] < |l.prev|
    ensures LinkAt(PushFront(l, ring[0], b), InsertSecond(ring, b), j)
  {
    hide Distinct;
    var n, i := |ring|, if j < 2 then 0 else j - 1;
    assert LinkAt(l, ring, 0) && LinkAt(l, ring, i);
    assert ring[i] in ring && ring[Succ(n, i)] in ring && ring[0] in ring;
    OneIndex(ring, i, 0);
    OneIndex(ring, Succ(n, i), Succ(n, 0));
  }

  lemma PushKeeps(l: Links, ring: seq<nat>, b: nat)
    requires Ring(l, ring) && b < |l.next| && b !in ring
    ensures l.next[ring[0]] < |l.prev| && Ring(PushFront(l, ring[0], b), InsertSecond(ring, b))
  {
    hide Distinct;
    assert LinkAt(l, ring, 0);
    InsertDistinct(ring, b);
    forall j | 0 <= j <= |ring|
      ensures LinkAt(PushFront(l, ring[0], b), InsertSecond(ring, b), j)
    {
      PushAt(l, ring, b, j);
    }
  }

  // ---------------------------------------------------------------- what the cache shows

  /** No two buffers hold the same block of a real device (device 0 marks buffers never used). */
  ghost predicate Unique(bufs: seq<Buf>) {
    forall i, j :: 0 <= i < j < |bufs| && bufs[i].key.dev != 0 ==> bufs[i].key != bufs[j].key
  }

  predicate BufOk(b: Buf, store: map<Key, Data>) {
    (b.valid ==> b.key in store && b.data == store[b.key]) && (b.dirty ==> b.valid)
  }

  /** The disk may lag behind the store only where a dirty buffer has the block. */
  ghost predicate DiskOk(bufs: seq<Buf>, disk: map<Key, Data>, store: map<Key, Data>, k: Key)
    requires k in disk && k in store
  {
    disk[k] == store[k] || exists i :: 0 <= i < |bufs| && bufs[i].key == k && bufs[i].dirty
  }

  ghost predicate Shows(bufs: seq<Buf>, disk: map<Key, Data>, store: map<Key, Data>) {
    && Unique(bufs)
    && (forall i :: 0 <= i < |bufs| ==> BufOk(bufs[i], store))
    && (forall k :: k in disk <==> k in store)
    && (forall k :: k in store ==> k.dev != 0)
    && (forall k :: k in store ==> DiskOk(bufs, disk, store, k))
  }

  /** A buffer that is clean and unused may be given to a block that no buffer holds. */
  lemma Recycle(bufs: seq<Buf>, disk: map<Key, Data>, store: map<Key, Data>, b: nat, k: Key, d: Data)
    requires Shows(bufs, disk, store) && b < |bufs| && !bufs[b].dirty && k.dev != 0
    requires forall i :: 0 <= i < |bufs| ==> bufs[i].key != k
    ensures Shows(bufs[b := Buf(k, 1, false, false, d)], disk, store)
  {
    var bufs' := bufs[b := Buf(k, 1, false, false, d)];
    forall x | x in store
      ensures DiskOk(bufs', disk, store, x)
    {
      assert DiskOk(bufs, disk, store, x);
      if disk[x] != store[x] {
        var i :| 0 <= i < |bufs| && bufs[i].key == x && bufs[i].dirty;
        assert bufs'[i].key == x && bufs'[i].dirty;
      }
    }
  }

  /** Reading a block into the buffer that stands for it. */
  lemma ReadIn(bufs: seq<Buf>, disk: map<Key, Data>, store: map<Key, Data>, b: nat)
    requires Shows(bufs, disk, store) && b < |bufs| && !bufs[b].valid && bufs[b].key in disk
    ensures
      && disk[bufs[b].key] == store[bufs[b].key]
      && Shows(bufs[b := bufs[b].(valid := true, data := disk[bufs[b].key])], disk, store)
  {
    var k := bufs[b].key;
    var bufs' := bufs[b := bufs[b].(valid := true, data := disk[k])];
    assert BufOk(bufs[b], store) && DiskOk(bufs, disk, store, k);
    assert forall i :: 0 <= i < |bufs| && bufs[i].key == k ==> i == b;
    forall x | x in store
      ensures DiskOk(bufs', disk, store, x)
    {
      assert DiskOk(bufs, disk, store, x);
      if disk[x] != store[x] {
        var i :| 0 <= i < |bufs| && bufs[i].key == x && bufs[i].dirty;
        assert bufs'[i].key == x && bufs'[i].dirty;
      }
    }
  }

  /** New contents in a buffer, marked dirty, are new contents of the store. */
  lemma Modify(bufs: seq<Buf>, disk: map<Key, Data>, store: map<Key, Data>, b: nat, d: Data)
    requires Shows(bufs, disk, store) && b < |bufs| && bufs[b].valid
    ensures bufs[b].key in store && Shows(bufs[b := bufs[b].(dirty := true, data := d)], disk, store[bufs[b].key := d])
  {
    var k := bufs[b].key;
    var bufs', store' := bufs[b := bufs[b].(dirty := true, data := d)], store[k := d];
    assert BufOk(bufs[b], store);
    forall i | 0 <= i < |bufs|
      ensures BufOk(bufs'[i], store')
    {
      assert BufOk(bufs[i], store);
      assert i != b ==> bufs[i].key != k;
    }
    assert bufs'[b].key == k && bufs'[b].dirty;
    forall x | x in store'
      ensures DiskOk(bufs', disk, store', x)
    {
      assert DiskOk(bufs, disk, store, x);
      if x != k && disk[x] != store[x] {
        var i :| 0 <= i < |bufs| && bufs[i].key == x && bufs[i].dirty;
        assert bufs'[i].key == x && bufs'[i].dirty;
      }
    }
  }

  /** Writing a dirty buffer out leaves nothing of it to lose. */
  lemma WriteOut(bufs: seq<Buf>, disk: map<Key, Data>, store: map<Key, Data>, b: nat)
    requires Shows(bufs, disk, store) && b < |bufs| && bufs[b].dirty
    ensures Shows(bufs[b := bufs[b].(dirty := false, valid := true)], disk[bufs[b].key := bufs[b].data], store)
  {
    var k := bufs[b].key;
    var bufs', disk' := bufs[b := bufs[b].(dirty := false, valid := true)], disk[k := bufs[b].data];
    assert BufOk(bufs[b], store);
    forall x | x in store
      ensures DiskOk(bufs', disk', store, x)
    {
      assert DiskOk(bufs, disk, store, x);
      if x != k && disk[x] != store[x] {
        var i :| 0 <= i < |bufs| && bufs[i].key == x && bufs[i].dirty;
        assert bufs'[i].key == x && bufs'[i].dirty;
      }
    }
  }

  /** Neither the reference count nor the list is part of what the cache shows. */
  lemma Count(bufs: seq<Buf>, disk: map<Key, Data>, store: map<Key, Data>, b: nat, n: nat)
    requires Shows(bufs, disk, store) && b < |bufs|
    ensures Shows(bufs[b := bufs[b].(refcnt := n)], disk, store)
  {
    var bufs' := bufs[b := bufs[b].(refcnt := n)];
    forall x | x in store
      ensures DiskOk(bufs', disk, store, x)
    {
      assert DiskOk(bufs, disk, store, x);
      if disk[x] != store[x] {
        var i :| 0 <= i < |bufs| && bufs[i].key == x && bufs[i].dirty;
        assert bufs'[i].key == x && bufs'[i].dirty;
      }
    }
  }

  // ---------------------------------------------------------------- bio.c

  /** Nearer the front means released later; buffers never released come last. */
  ghost predicate Recency(ring: seq<nat>, stamp: seq<nat>, clock: nat) {
    && (forall i :: 0 <= i < |ring| ==> ring[i] < |stamp| && stamp[ring[i]] <= clock)
    && (forall i, j :: 1 <= i < j < |ring| ==> stamp[ring[j]] < stamp[ring[i]] || stamp[ring[j]] == 0)
  }

  lemma ReleaseRecency(ring: seq<nat>, stamp: seq<nat>, clock: nat, k: nat)
    requires Distinct(ring) && Recency(ring, stamp, clock) && 0 < k < |ring|
    ensures Recency(InsertSecond(RemoveAt(ring, k), ring[k]), stamp[ring[k] := clock + 1], clock + 1)
  {
    var r, q, st := RemoveAt(ring, k), InsertSecond(RemoveAt(ring, k), ring[k]), stamp[ring[k] := clock + 1];
    forall i | 0 <= i < |q|
      ensures
        && q[i] < |stamp| && st[q[i]] <= clock + 1
        && (i != 1 ==> q[i] == r[if i == 0 then 0 else i - 1] && st[q[i]] == stamp[q[i]] <= clock)
    {
      if i != 1 {
        var m := if i == 0 then 0 else i - 1;
        var m' := if m < k then m else m + 1;
        assert r[m] == ring[m'];
        OneIndex(ring, m', k);
      }
    }
    forall i, j | 1 <= i < j < |q|
      ensures st[q[j]] < st[q[i]] || st[q[j]] == 0
    {
      if i > 1 {
        var i', j' := if i - 1 < k then i - 1 else i, if j - 1 < k then j - 1 else j;
        assert r[i - 1] == ring[i'] && r[j - 1] == ring[j'];
      }
    }
  }

  lemma PushMembers(r: seq<nat>, b: nat)
    requires r != []
    ensures forall x :: x in InsertSecond(r, b) <==> x in r || x == b
  {
    var q := InsertSecond(r, b);
    assert q[1] == b;
    forall i | 0 <= i < |r|
      ensures r[i] in q
    {
      assert q[if i == 0 then 0 else i + 1] == r[i];
    }
  }

  lemma RemoveMembers(r: seq<nat>, k: nat)
    requires k < |r| && Distinct(r)
    ensures forall x :: x in RemoveAt(r, k) <==> x in r && x != r[k]
  {
    var q := RemoveAt(r, k);
    forall i | 0 <= i < |r| && i != k
      ensures r[i] in q
    {
      assert q[if i < k then i else i - 1] == r[i];
    }
    forall j | 0 <= j < |q|
      ensures q[j] in r && q[j] != r[k]
    {
      OneIndex(r, if j < k then j else j + 1, k);
    }
  }

  /** binit()'s loop: every buffer in turn goes to the front of a list that is the head alone at first. */
  method Chain(n: nat) returns (l: Links, ghost r: seq<nat>)
    ensures |l.next| == n + 1 && Ring(l, r) && |r| == n + 1 && r[0] == n
    ensures forall b :: 0 <= b < n ==> b in r
  {
    hide Distinct;
    l := Links(seq(n + 1, i => n), seq(n + 1, i => n));
    r := [n];
    assert LinkAt(l, r, 0);
    assert Distinct(r) by { DistinctOne(n); }
    for b := 0 to n
      invariant |l.next| == n + 1 && Ring(l, r) && |r| == b + 1 && r[0] == n
      invariant forall x :: x in r <==> x == n || 0 <= x < b
    {
      PushKeeps(l, r, b);
      PushMembers(r, b);
      l, r := PushFront(l, n, b), InsertSecond(r, b);
    }
  }

  lemma DistinctOne(x: nat)
    ensures Distinct([x])
  {
  }

  predicate Idle(b: Buf) { b.refcnt == 0 && !b.dirty }

  class Cache {
    const n: nat
    var bufs: seq<Buf>
    var links: Links
    var disk: map<Key, Data>
    ghost var store: map<Key, Data>
    ghost var ring: seq<nat>
    ghost var stamp: seq<nat>
    ghost var clock: nat

    /** The list is the head, number n, and every buffer once. */
    ghost predicate ListOk()
      reads this
    {
      && |bufs| == n && |links.next| == n + 1 && Ring(links, ring) && |ring| == n + 1 && ring[0] == n
      && (forall b :: 0 <= b < n ==> b in ring)
      && Recency(ring, stamp, clock)
    }

    ghost predicate Valid()
      reads this
    {
      ListOk() && Shows(bufs, disk, store)
    }

    ghost predicate Cached(k: Key)
      reads this
    {
      exists b :: 0 <= b < |bufs| && bufs[b].key == k
    }

    ghost predicate Available()
      reads this
    {
      exists b :: 0 <= b < |bufs| && Idle(bufs[b])
    }

    /** binit() */
    constructor (n: nat, disk: map<Key, Data>)
      requires forall k :: k in disk ==> k.dev != 0
      ensures Valid() && this.n == n && store == disk
    {
      this.n, this.disk, store := n, disk, disk;
      bufs := seq(n, i => Buf(Key(0, 0), 0, false, false, 0));
      var l;
      ghost var r;
      l, r := Chain(n);
      links, ring := l, r;
      stamp, clock := seq(n + 1, i => 0), 0;
    }

    /** bget()'s first loop, along next. */
    method Lookup(k: Key) returns (b: nat)
      requires ListOk()
      ensures b <= n && (b < n ==> bufs[b].key == k)
      ensures b == n <==> !Cached(k)
    {
      b := links.next[n];
      ghost var pos := Succ(n + 1, 0);
      assert LinkAt(links, ring, 0);
      while b != n
        invariant 0 <= pos <= n && b == ring[pos]
        invariant forall j :: 1 <= j < (if pos == 0 then n + 1 else pos) ==> ring[j] < n && bufs[ring[j]].key != k
        decreases if pos == 0 then 0 else n + 1 - pos
      {
        OneIndex(ring, pos, 0);
        assert LinkAt(links, ring, pos);
        if bufs[b].key == k {
          return;
        }
        b := links.next[b];
        pos := Succ(n + 1, pos);
      }
      OneIndex(ring, pos, 0);
      forall x | 0 <= x < n
        ensures bufs[x].key != k
      {
        assert x in ring;
        var j :| 0 <= j < |ring| && ring[j] == x;
        OneIndex(ring, j, 0);
      }
    }

    /**
     bget()'s second loop, along prev: the buffer released longest ago among the clean, unused ones, or the
     head if there is none.
     */
    method Oldest() returns (b: nat)
      requires ListOk()
      ensures b <= n && (b < n <==> Available())
      ensures b < n ==> Idle(bufs[b]) && b < |stamp|
      ensures b < n ==>
        forall c :: 0 <= c < n && c != b && Idle(bufs[c]) ==> c < |stamp| && (stamp[b] < stamp[c] || stamp[b] == 0)
    {
      b := links.prev[n];
      ghost var pos := n;
      assert LinkAt(links, ring, n);
      while b != n
        invariant 0 <= pos <= n && b == ring[pos] <= n
        invariant forall i :: pos < i <= n ==> ring[i] < n && !Idle(bufs[ring[i]])
        decreases pos
      {
        OneIndex(ring, pos, 0);
        if bufs[b].refcnt == 0 && !bufs[b].dirty {
          break;
        }
        assert LinkAt(links, ring, pos - 1);
        b := links.prev[b];
        pos := pos - 1;
      }
      OneIndex(ring, pos, 0);
      forall c | 0 <= c < n && c != b && Idle(bufs[c])
        ensures b < n && c < |stamp| && (stamp[b] < stamp[c] || stamp[b] == 0)
      {
        assert c in ring;
        var i :| 0 <= i < |ring| && ring[i] == c;
        OneIndex(ring, i, 0);
      }
    }

    /**
     bget(): the buffer that has the block, or else the oldest clean unused one, given to it.  It fails where
     the source panics: the block is not cached and every buffer is in use or dirty.
     */
    method Bget(k: Key) returns (ok: bool, b: nat)
      requires Valid() && k.dev != 0
      modifies this`bufs
      ensures Valid() && (ok <==> old(Cached(k) || Available()))
      ensures !ok ==> bufs == old(bufs)
      ensures ok ==> b < n && bufs[b].key == k
      ensures ok && old(Cached(k)) ==>
        old(bufs[b].key) == k && bufs == old(bufs)[b := old(bufs[b]).(refcnt := old(bufs[b].refcnt) + 1)]
      ensures ok && !old(Cached(k)) ==>
        old(Idle(bufs[b])) && bufs == old(bufs)[b := Buf(k, 1, false, false, old(bufs[b].data))]
      ensures ok && !old(Cached(k)) ==>
        forall c :: 0 <= c < n && c != b && old(Idle(bufs[c])) ==> stamp[b] < stamp[c] || stamp[b] == 0
    {
      hide Shows, Ring, Distinct, Recency;
      b := Lookup(k);
      if b < n {
        Count(bufs, disk, store, b, bufs[b].refcnt + 1);
        bufs := bufs[b := bufs[b].(refcnt := bufs[b].refcnt + 1)];
        return true, b;
      }
      b := Oldest();
      if b == n {
        return false, b;
      }
      Recycle(bufs, disk, store, b, k, bufs[b].data);
      bufs := bufs[b := Buf(k, 1, false, false, bufs[b].data)];
      return true, b;
    }

    /** iderw(): a dirty buffer goes to the disk, one without contents comes from it. */
    method Iderw(b: nat)
      requires Valid() && b < n && bufs[b].key in store && (bufs[b].dirty || !bufs[b].valid)
      modifies this`bufs, this`disk
      ensures
        && Valid() && bufs[b].valid && !bufs[b].dirty && bufs[b].data == store[bufs[b].key]
        && disk[bufs[b].key] == bufs[b].data
      ensures
        bufs == old(bufs)[b := bufs[b]] && bufs[b].key == old(bufs[b].key) && bufs[b].refcnt == old(bufs[b].refcnt)
      ensures forall k :: k in old(disk) && k != bufs[b].key ==> k in disk && disk[k] == old(disk[k])
    {
      var k := bufs[b].key;
      assert BufOk(bufs[b], store);
      if bufs[b].dirty {
        WriteOut(bufs, disk, store, b);
        disk := disk[k := bufs[b].data];
        bufs := bufs[b := bufs[b].(dirty := false, valid := true)];
      } else {
        ReadIn(bufs, disk, store, b);
        bufs := bufs[b := bufs[b].(valid := true, data := disk[k])];
      }
    }

    /** bread(): whatever is where, the caller gets the block's latest contents, if bget() finds a buffer. */
    method Bread(k: Key) returns (ok: bool, b: nat)
      requires Valid() && k in store
      modifies this`bufs, this`disk
      ensures Valid() && (ok <==> old(Cached(k) || Available()))
      ensures ok ==> b < n && bufs[b].key == k && bufs[b].valid && bufs[b].data == store[k] && bufs[b].refcnt >= 1
      ensures disk == old(disk) && (!ok ==> bufs == old(bufs))
      ensures ok ==> forall c :: 0 <= c < n && c != b ==> bufs[c] == old(bufs[c])
    {
      hide Ring, Distinct, Recency, Unique, DiskOk;
      ok, b := Bget(k);
      if !ok {
        return;
      }
      if !bufs[b].valid {
        assert BufOk(bufs[b], store);
        ReadIn(bufs, disk, store, b);
        Iderw(b);
      } else {
        assert BufOk(bufs[b], store);
      }
      assert disk == old(disk);
    }

    /** A caller's change of b->data followed by log_write(b). */
    method LogWrite(b: nat, d: Data)
      requires Valid() && b < n && bufs[b].valid && bufs[b].refcnt >= 1
      modifies this`bufs, this`store
      ensures Valid() && bufs[b].key in old(store) && store == old(store)[bufs[b].key := d]
      ensures bufs == old(bufs)[b := old(bufs[b]).(dirty := true, data := d)]
    {
      hide Ring, Distinct, Recency, Unique, DiskOk;
      Modify(bufs, disk, store, b, d);
      store := store[bufs[b].key := d];
      bufs := bufs[b := bufs[b].(dirty := true, data := d)];
    }

    /** A caller's change of b->data followed by bwrite(b). */
    method Bwrite(b: nat, d: Data)
      requires Valid() && b < n && bufs[b].valid && bufs[b].refcnt >= 1
      modifies this`bufs, this`store, this`disk
      ensures Valid() && bufs[b].key in old(store) && store == old(store)[bufs[b].key := d]
      ensures bufs[b].key in disk && disk[bufs[b].key] == d && !bufs[b].dirty && bufs[b].key == old(bufs[b].key)
      ensures forall c :: 0 <= c < n && c != b ==> bufs[c] == old(bufs[c])
    {
      hide Ring, Distinct, Recency, Unique, DiskOk;
      LogWrite(b, d);
      Iderw(b);
    }

    /** brelse(): the last user's release moves the buffer to the front of the list. */
    method Brelse(b: nat)
      requires Valid() && b < n && bufs[b].refcnt >= 1
      modifies this`bufs, this`links, this`ring, this`stamp, this`clock
      ensures Valid() && bufs == old(bufs)[b := old(bufs[b]).(refcnt := old(bufs[b].refcnt) - 1)]
      ensures bufs[b].refcnt == 0 ==> ring[1] == b && b < |stamp| && stamp[b] == clock == old(clock) + 1
      ensures bufs[b].refcnt > 0 ==> ring == old(ring) && stamp == old(stamp) && clock == old(clock)
    {
      hide Shows, Distinct, Recency;
      Count(bufs, disk, store, b, bufs[b].refcnt - 1);
      bufs := bufs[b := bufs[b].(refcnt := bufs[b].refcnt - 1)];
      if bufs[b].refcnt == 0 {
        ghost var k := Position(b);
        MoveToFront(b, k);
      }
    }

    lemma Position(b: nat) returns (k: nat)
      requires ListOk() && b < n
      ensures 0 < k < |ring| && ring[k] == b
    {
      assert b in ring;
      k :| 0 <= k < |ring| && ring[k] == b;
    }

    method MoveToFront(b: nat, ghost k: nat)
      requires ListOk() && b < n && 0 < k < |ring| && ring[k] == b
      modifies this`links, this`ring, this`stamp, this`clock
      ensures ListOk() && ring[1] == b && b < |stamp| && stamp[b] == clock == old(clock) + 1
    {
      hide Distinct, Recency;
      ReleaseRecency(ring, stamp, clock, k);
      StampLength(b, k);
      UnlinkKeeps(links, ring, k);
      RemoveMembers(ring, k);
      ghost var r := RemoveAt(ring, k);
      links := Unlink(links, b);
      PushKeeps(links, r, b);
      PushMembers(r, b);
      links := PushFront(links, n, b);
      ring := InsertSecond(r, b);
      stamp, clock := stamp[b := clock + 1], clock + 1;
    }

    lemma StampLength(b: nat, k: nat)
      requires ListOk() && 0 < k < |ring| && ring[k] == b
      ensures b < |stamp|
    {
    }
  }
}
