/**
 The redo log of log.c: what every disk image reached inside commit() and
 recover_from_log() recovers to, for every transaction and every crash point.

 A block is its BSIZE/sizeof(int) words.  A single-block write is atomic (the contract of
 the synchronous iderw in memide.c), so a crash leaves the disk as it was between two writes.
 */
module CrashLog {

  import opened Params

  const WORDS: nat := 128

  type Block = b: seq<int> | |b| == WORDS witness seq(WORDS, _ => 0)
  type Disk = seq<Block>

  /** log.start and log.size, as read from the superblock. */
  datatype Layout = Layout(start: nat, size: nat)

  /** The blocks of a transaction (log.lh.block[0..n]) and what the cache holds for each. */
  datatype Tx = Tx(blocks: seq<int>, data: seq<Block>)

  ghost predicate Fits(d: Disk, g: Layout) {
    1 <= g.size && g.start + g.size <= |d|
  }

  /** A home location: a disk block outside the log area. */
  predicate Home(d: Disk, g: Layout, b: int) {
    0 <= b < |d| && !(g.start <= b < g.start + g.size)
  }

  ghost predicate Recordable(d: Disk, g: Layout, blocks: seq<int>) {
    && |blocks| <= LOGSIZE && |blocks| <= g.size - 1
    && forall i :: 0 <= i < |blocks| ==> Home(d, g, blocks[i])
  }

  ghost predicate TxOk(d: Disk, g: Layout, tx: Tx) {
    Recordable(d, g, tx.blocks) && Distinct(tx.blocks) && |tx.data| == |tx.blocks|
  }

  /** Two disks that agree on every home location. */
  ghost predicate SameHome(d: Disk, e: Disk, g: Layout) {
    |d| == |e| && forall b :: Home(d, g, b) ==> d[b] == e[b]
  }

  // ---------------------------------------------------------------- header block

  /** The on-disk header is usable: a count that fits and home block numbers. */
  ghost predicate HeadOk(d: Disk, g: Layout) {
    && Fits(d, g)
    && 0 <= d[g.start][0] <= LOGSIZE
    && Recordable(d, g, d[g.start][1..1 + d[g.start][0]])
  }

  ghost function HeadBlocks(d: Disk, g: Layout): seq<int>
    requires HeadOk(d, g)
  {
    d[g.start][1..1 + d[g.start][0]]
  }

  /** write_head() rewrites the count and the first n entries and leaves the rest of the block. */
  ghost function HeadBlock(b: Block, blocks: seq<int>): Block
    requires |blocks| <= LOGSIZE
  {
    [|blocks|] + blocks + b[1 + |blocks|..]
  }

  ghost function WithHead(d: Disk, g: Layout, blocks: seq<int>): Disk
    requires Fits(d, g) && |blocks| <= LOGSIZE
  {
    d[g.start := HeadBlock(d[g.start], blocks)]
  }

  // ---------------------------------------------------------------- images

  /** The disk after write_log() has copied the first k blocks into the log. */
  ghost function Logged(d: Disk, g: Layout, data: seq<Block>, k: nat): (r: Disk)
    requires Fits(d, g) && k <= |data| <= g.size - 1
    ensures |r| == |d|
  {
    if k == 0 then d else Logged(d, g, data, k - 1)[g.start + k := data[k - 1]]
  }

  /** The disk after install_trans() has copied the first k logged blocks home. */
  ghost function Installed(d: Disk, g: Layout, blocks: seq<int>, k: nat): (r: Disk)
    requires Fits(d, g) && Recordable(d, g, blocks) && k <= |blocks|
    ensures |r| == |d|
  {
    if k == 0 then d
    else
      var e := Installed(d, g, blocks, k - 1);
      e[blocks[k - 1] := e[g.start + k]]
  }

  lemma LoggedStart(d: Disk, g: Layout, data: seq<Block>)
    requires Fits(d, g) && |data| <= g.size - 1
    ensures Logged(d, g, data, 0) == d
  {
  }

  lemma LoggedNext(d: Disk, g: Layout, data: seq<Block>, k: nat)
    requires Fits(d, g) && k < |data| <= g.size - 1
    ensures |Logged(d, g, data, k)| == |d|
    ensures Logged(d, g, data, k + 1) == Logged(d, g, data, k)[g.start + k + 1 := data[k]]
  {
  }

  lemma InstalledStart(d: Disk, g: Layout, blocks: seq<int>)
    requires Fits(d, g) && Recordable(d, g, blocks)
    ensures Installed(d, g, blocks, 0) == d
  {
  }

  lemma InstalledNext(d: Disk, g: Layout, blocks: seq<int>, k: nat)
    requires Fits(d, g) && Recordable(d, g, blocks) && k < |blocks|
    ensures |Installed(d, g, blocks, k)| == |d|
    ensures var e := Installed(d, g, blocks, k); Installed(d, g, blocks, k + 1) == e[blocks[k] := e[g.start + k + 1]]
  {
  }

  /** What recover_from_log() makes of a disk. */
  ghost function Recover(d: Disk, g: Layout): (r: Disk)
    requires HeadOk(d, g)
    ensures |r| == |d|
  {
    WithHead(Installed(d, g, HeadBlocks(d, g), |HeadBlocks(d, g)|), g, [])
  }

  ghost function CommitWrites(tx: Tx): nat { 2 * |tx.blocks| + 2 }

  /** The disk after the first k writes of commit(). */
  ghost function CommitImage(d: Disk, g: Layout, tx: Tx, k: nat): (r: Disk)
    requires Fits(d, g) && TxOk(d, g, tx) && k <= CommitWrites(tx)
    ensures |r| == |d|
  {
    var n := |tx.blocks|;
    if k <= n then Logged(d, g, tx.data, k)
    else
      var committed := WithHead(Logged(d, g, tx.data, n), g, tx.blocks);
      if k <= 2 * n + 1 then Installed(committed, g, tx.blocks, k - n - 1)
      else WithHead(Installed(committed, g, tx.blocks, n), g, [])
  }

  ghost function RecoveryWrites(d: Disk, g: Layout): nat
    requires HeadOk(d, g)
  {
    |HeadBlocks(d, g)| + 1
  }

  /** The disk after the first k writes of recover_from_log(). */
  ghost function RecoveryImage(d: Disk, g: Layout, k: nat): (r: Disk)
    requires HeadOk(d, g) && k <= RecoveryWrites(d, g)
    ensures |r| == |d|
  {
    if k <= |HeadBlocks(d, g)| then Installed(d, g, HeadBlocks(d, g), k) else Recover(d, g)
  }

  /** The transaction's meaning, independent of the log: every block gets its data. */
  ghost function Apply(d: Disk, tx: Tx): (r: Disk)
    requires |tx.data| == |tx.blocks|
    requires forall i :: 0 <= i < |tx.blocks| ==> 0 <= tx.blocks[i] < |d|
    ensures |r| == |d|
    decreases |tx.blocks|
  {
    if tx.blocks == [] then d
    else
      var n := |tx.blocks| - 1;
      Apply(d, Tx(tx.blocks[..n], tx.data[..n]))[tx.blocks[n] := tx.data[n]]
  }

  // ---------------------------------------------------------------- lemmas about the images

  lemma {:induction false} ApplyAt(d: Disk, tx: Tx)
    requires |tx.data| == |tx.blocks| && Distinct(tx.blocks)
    requires forall i :: 0 <= i < |tx.blocks| ==> 0 <= tx.blocks[i] < |d|
    ensures forall i :: 0 <= i < |tx.blocks| ==> Apply(d, tx)[tx.blocks[i]] == tx.data[i]
    ensures forall b :: 0 <= b < |d| && b !in tx.blocks ==> Apply(d, tx)[b] == d[b]
    decreases |tx.blocks|
  {
    if tx.blocks != [] {
      var n := |tx.blocks| - 1;
      ApplyAt(d, Tx(tx.blocks[..n], tx.data[..n]));
    }
  }

  lemma {:induction false} LoggedAt(d: Disk, g: Layout, data: seq<Block>, k: nat)
    requires Fits(d, g) && k <= |data| <= g.size - 1
    ensures forall b :: 0 <= b < |d| ==>
      Logged(d, g, data, k)[b] == if g.start < b <= g.start + k then data[b - g.start - 1] else d[b]
  {
    if k > 0 { LoggedAt(d, g, data, k - 1); }
  }

  /** install_trans() changes no block of the log area, so it always copies the logged contents. */
  lemma {:induction false} InstalledAt(d: Disk, g: Layout, blocks: seq<int>, k: nat)
    requires Fits(d, g) && Recordable(d, g, blocks) && k <= |blocks|
    ensures var r := Installed(d, g, blocks, k);
      && (forall b :: 0 <= b < |d| && b !in blocks[..k] ==> r[b] == d[b])
      && (forall b :: g.start <= b < g.start + g.size ==> r[b] == d[b])
  {
    if k > 0 {
      InstalledAt(d, g, blocks, k - 1);
      assert blocks[..k] == blocks[..k - 1] + [blocks[k - 1]];
    }
  }

  lemma {:induction false} InstalledDistinct(d: Disk, g: Layout, blocks: seq<int>, k: nat)
    requires Fits(d, g) && Recordable(d, g, blocks) && Distinct(blocks) && k <= |blocks|
    ensures forall i :: 0 <= i < k ==> Installed(d, g, blocks, k)[blocks[i]] == d[g.start + 1 + i]
  {
    if k > 0 {
      InstalledDistinct(d, g, blocks, k - 1);
      InstalledAt(d, g, blocks, k - 1);
    }
  }

  /** Replaying the log over a partly replayed disk gives what one replay gives. */
  lemma {:induction false} ReplayAbsorbs(d: Disk, g: Layout, blocks: seq<int>, j: nat, k: nat)
    requires Fits(d, g) && Recordable(d, g, blocks) && k <= |blocks| && j <= |blocks|
    ensures Recordable(Installed(d, g, blocks, j), g, blocks)
    ensures forall b :: 0 <= b < |d| && (b in blocks[..k] || b !in blocks[..j]) ==>
      Installed(Installed(d, g, blocks, j), g, blocks, k)[b] == Installed(d, g, blocks, k)[b]
  {
    var e := Installed(d, g, blocks, j);
    InstalledAt(d, g, blocks, j);
    if k > 0 {
      ReplayAbsorbs(d, g, blocks, j, k - 1);
      InstalledAt(d, g, blocks, k - 1);
      InstalledAt(e, g, blocks, k - 1);
      assert blocks[..k] == blocks[..k - 1] + [blocks[k - 1]];
    }
  }

  lemma {:induction false} HeadReads(d: Disk, g: Layout, blocks: seq<int>)
    requires Fits(d, g) && Recordable(d, g, blocks)
    ensures HeadOk(WithHead(d, g, blocks), g) && HeadBlocks(WithHead(d, g, blocks), g) == blocks
  {
    var e := WithHead(d, g, blocks);
    assert e[g.start][1..1 + |blocks|] == blocks;
  }

  // ---------------------------------------------------------------- crash safety

  /** Logging a transaction, writing its header and installing it applies it to the home blocks. */
  lemma {:induction false} CommittedIsApplied(d: Disk, g: Layout, tx: Tx)
    requires Fits(d, g) && TxOk(d, g, tx)
    ensures var committed := WithHead(Logged(d, g, tx.data, |tx.blocks|), g, tx.blocks);
      SameHome(Installed(committed, g, tx.blocks, |tx.blocks|), Apply(d, tx), g)
  {
    var n := |tx.blocks|;
    var committed := WithHead(Logged(d, g, tx.data, n), g, tx.blocks);
    var r, s := Installed(committed, g, tx.blocks, n), Apply(d, tx);
    assert forall i :: 0 <= i < n ==> r[tx.blocks[i]] == tx.data[i] by {
      InstalledDistinct(committed, g, tx.blocks, n);
      LoggedAt(d, g, tx.data, n);
    }
    assert forall b :: Home(d, g, b) && b !in tx.blocks ==> r[b] == d[b] by {
      InstalledAt(committed, g, tx.blocks, n);
      LoggedAt(d, g, tx.data, n);
      assert tx.blocks[..n] == tx.blocks;
    }
    ApplyAt(d, tx);
    forall b | Home(d, g, b)
      ensures r[b] == s[b]
    {
      if b in tx.blocks {
        var i :| 0 <= i < n && tx.blocks[i] == b;
      }
    }
  }

  /** Before the header write the old, empty header is still in place. */
  lemma {:induction false} CrashBeforeHeader(d: Disk, g: Layout, tx: Tx, k: nat)
    requires HeadOk(d, g) && HeadBlocks(d, g) == []
    requires TxOk(d, g, tx) && k <= |tx.blocks|
    ensures HeadOk(CommitImage(d, g, tx, k), g)
    ensures SameHome(Recover(CommitImage(d, g, tx, k), g), d, g)
  {
    LoggedAt(d, g, tx.data, k);
    var image := CommitImage(d, g, tx, k);
    assert image[g.start] == d[g.start];
    assert HeadBlocks(image, g) == [];
    assert Installed(image, g, [], 0) == image;
  }

  /** Stopping recovery after any of its writes loses nothing: the next recovery ends at the same disk. */
  lemma {:induction false} CrashDuringRecovery(d: Disk, g: Layout, k: nat)
    requires HeadOk(d, g) && k <= RecoveryWrites(d, g)
    ensures HeadOk(RecoveryImage(d, g, k), g)
    ensures Recover(RecoveryImage(d, g, k), g) == Recover(d, g)
  {
    var blocks := HeadBlocks(d, g);
    var n := |blocks|;
    assert blocks[..n] == blocks;
    InstalledAt(d, g, blocks, n);
    if k <= n {
      var part := Installed(d, g, blocks, k);
      InstalledAt(d, g, blocks, k);
      assert HeadBlocks(part, g) == blocks;
      ReplayAbsorbs(d, g, blocks, k, n);
      assert Installed(part, g, blocks, n) == Installed(d, g, blocks, n);
    } else {
      HeadReads(Installed(d, g, blocks, n), g, []);
    }
  }

  /** After it the header names the whole transaction and recovery replays all of it. */
  lemma {:induction false} CrashWhileInstalling(d: Disk, g: Layout, tx: Tx, k: nat)
    requires Fits(d, g) && TxOk(d, g, tx) && |tx.blocks| < k <= 2 * |tx.blocks| + 1
    ensures HeadOk(CommitImage(d, g, tx, k), g)
    ensures SameHome(Recover(CommitImage(d, g, tx, k), g), Apply(d, tx), g)
  {
    hide HeadOk, HeadBlocks, HeadBlock, Apply, Distinct;
    var n := |tx.blocks|;
    var logged := Logged(d, g, tx.data, n);
    var committed := WithHead(logged, g, tx.blocks);
    HeadReads(logged, g, tx.blocks);
    CrashDuringRecovery(committed, g, k - n - 1);
    CommittedIsApplied(d, g, tx);
  }

  /**
   Atomicity.  Stop commit() after any number k of its writes: recovery then yields the old
   home blocks if the header was not yet written and all the new ones if it was.
   */
  lemma {:induction false} CrashDuringCommit(d: Disk, g: Layout, tx: Tx, k: nat)
    requires HeadOk(d, g) && HeadBlocks(d, g) == []
    requires TxOk(d, g, tx) && k <= CommitWrites(tx)
    ensures HeadOk(CommitImage(d, g, tx, k), g)
    ensures SameHome(Recover(CommitImage(d, g, tx, k), g), if k <= |tx.blocks| then d else Apply(d, tx), g)
  {
    var n := |tx.blocks|;
    if k <= n {
      CrashBeforeHeader(d, g, tx, k);
    } else if k <= 2 * n + 1 {
      CrashWhileInstalling(d, g, tx, k);
    } else {
      var full := Installed(WithHead(Logged(d, g, tx.data, n), g, tx.blocks), g, tx.blocks, n);
      CommittedIsApplied(d, g, tx);
      HeadReads(full, g, []);
      assert Installed(WithHead(full, g, []), g, [], 0) == WithHead(full, g, []);
    }
  }

  // ---------------------------------------------------------------- whole runs

  /**
   One transaction's fate: it completes, or the machine stops after `at` writes of commit()
   and then again after retries[0], retries[1], ... writes of successive recoveries, before a
   recovery finally runs to its end.
   */
  datatype Event = Completed(tx: Tx) | Crashed(tx: Tx, at: nat, retries: seq<nat>)

  ghost function AfterRetries(d: Disk, g: Layout, retries: seq<nat>): (r: Disk)
    requires HeadOk(d, g)
    ensures HeadOk(r, g) && |r| == |d| && Recover(r, g) == Recover(d, g)
    decreases |retries|
  {
    if retries == [] then d
    else
      var k := Min(retries[0], RecoveryWrites(d, g));
      CrashDuringRecovery(d, g, k);
      AfterRetries(RecoveryImage(d, g, k), g, retries[1..])
  }

  ghost function EventDisk(d: Disk, g: Layout, e: Event): (r: Disk)
    requires HeadOk(d, g) && HeadBlocks(d, g) == [] && TxOk(d, g, e.tx)
    ensures |r| == |d|
  {
    match e
    case Completed(tx) => CommitImage(d, g, tx, CommitWrites(tx))
    case Crashed(tx, at, retries) =>
      var k := Min(at, CommitWrites(tx));
      CrashDuringCommit(d, g, tx, k);
      Recover(AfterRetries(CommitImage(d, g, tx, k), g, retries), g)
  }

  /** The event made its transaction durable: the header write happened. */
  predicate Durable(e: Event) {
    e.Completed? || e.at > |e.tx.blocks|
  }

  lemma {:induction false} EventIsAtomic(d: Disk, g: Layout, e: Event)
    requires HeadOk(d, g) && HeadBlocks(d, g) == [] && TxOk(d, g, e.tx)
    ensures var r := EventDisk(d, g, e);
      && HeadOk(r, g) && HeadBlocks(r, g) == []
      && SameHome(r, if Durable(e) then Apply(d, e.tx) else d, g)
  {
    match e
    case Completed(tx) =>
      var full := CommitImage(d, g, tx, CommitWrites(tx));
      CrashDuringCommit(d, g, tx, CommitWrites(tx));
      HeadReads(
        Installed(WithHead(Logged(d, g, tx.data, |tx.blocks|), g, tx.blocks), g, tx.blocks, |tx.blocks|), g, []);
      assert Installed(full, g, [], 0) == full;
    case Crashed(tx, at, retries) =>
      var k := Min(at, CommitWrites(tx));
      CrashDuringCommit(d, g, tx, k);
      var image := AfterRetries(CommitImage(d, g, tx, k), g, retries);
      var blocks := HeadBlocks(image, g);
      HeadReads(Installed(image, g, blocks, |blocks|), g, []);
  }

  ghost predicate RunOk(d: Disk, g: Layout, events: seq<Event>) {
    forall i :: 0 <= i < |events| ==> TxOk(d, g, events[i].tx)
  }

  lemma {:induction false} TxOkSameSize(d: Disk, e: Disk, g: Layout, events: seq<Event>)
    requires |d| == |e| && RunOk(d, g, events)
    ensures RunOk(e, g, events)
  {
    forall i | 0 <= i < |events|
      ensures TxOk(e, g, events[i].tx)
    {
      assert TxOk(d, g, events[i].tx);
    }
  }

  ghost function RunDisk(d: Disk, g: Layout, events: seq<Event>): (r: Disk)
    requires HeadOk(d, g) && HeadBlocks(d, g) == [] && RunOk(d, g, events)
    ensures HeadOk(r, g) && HeadBlocks(r, g) == [] && |r| == |d|
    decreases |events|
  {
    if events == [] then d
    else
      EventIsAtomic(d, g, events[0]);
      TxOkSameSize(d, EventDisk(d, g, events[0]), g, events[1..]);
      RunDisk(EventDisk(d, g, events[0]), g, events[1..])
  }

  /** The reference: a disk with no log on which the durable transactions happen, one after another. */
  ghost function RunSpec(d: Disk, g: Layout, events: seq<Event>): (r: Disk)
    requires RunOk(d, g, events)
    ensures |r| == |d|
    decreases |events|
  {
    if events == [] then d
    else
      var e := if Durable(events[0]) then Apply(d, events[0].tx) else d;
      TxOkSameSize(d, e, g, events[1..]);
      RunSpec(e, g, events[1..])
  }

  lemma {:induction false} ApplySameHome(d: Disk, e: Disk, g: Layout, tx: Tx)
    requires SameHome(d, e, g) && TxOk(d, g, tx)
    ensures TxOk(e, g, tx) && SameHome(Apply(d, tx), Apply(e, tx), g)
  {
    ApplyAt(d, tx);
    ApplyAt(e, tx);
    forall b | Home(d, g, b)
      ensures Apply(d, tx)[b] == Apply(e, tx)[b]
    {
      if b in tx.blocks {
        var i :| 0 <= i < |tx.blocks| && tx.blocks[i] == b;
      }
    }
  }

  lemma {:induction false} RunSpecSameHome(d: Disk, e: Disk, g: Layout, events: seq<Event>)
    requires SameHome(d, e, g) && RunOk(d, g, events)
    ensures RunOk(e, g, events) && SameHome(RunSpec(d, g, events), RunSpec(e, g, events), g)
    decreases |events|
  {
    TxOkSameSize(d, e, g, events);
    if events != [] {
      ApplySameHome(d, e, g, events[0].tx);
      var d' := if Durable(events[0]) then Apply(d, events[0].tx) else d;
      var e' := if Durable(events[0]) then Apply(e, events[0].tx) else e;
      TxOkSameSize(d, d', g, events[1..]);
      RunSpecSameHome(d', e', g, events[1..]);
    }
  }

  /**
   Crash safety over whole runs: however often and wherever the machine stops, in commits and in
   recoveries, the home blocks are those of the durable transactions applied in order.
   */
  lemma {:induction false} CrashSafety(d: Disk, g: Layout, events: seq<Event>)
    requires HeadOk(d, g) && HeadBlocks(d, g) == [] && RunOk(d, g, events)
    ensures SameHome(RunDisk(d, g, events), RunSpec(d, g, events), g)
    decreases |events|
  {
    if events != [] {
      var d' := EventDisk(d, g, events[0]);
      EventIsAtomic(d, g, events[0]);
      TxOkSameSize(d, d', g, events[1..]);
      CrashSafety(d', g, events[1..]);
      RunSpecSameHome(d', if Durable(events[0]) then Apply(d, events[0].tx) else d, g, events[1..]);
    }
  }

  // ---------------------------------------------------------------- log.c

  ghost function Contents(dirty: map<int, Block>, blocks: seq<int>): (data: seq<Block>)
    requires forall i :: 0 <= i < |blocks| ==> blocks[i] in dirty
    ensures |data| == |blocks| && forall i :: 0 <= i < |blocks| ==> data[i] == dirty[blocks[i]]
  {
    seq(|blocks|, i requires 0 <= i < |blocks| => dirty[blocks[i]])
  }

  /** Between commits: nothing in the on-disk log, and exactly the recorded blocks are pinned. */
  ghost predicate Collecting(d: Disk, g: Layout, blocks: seq<int>, dirty: map<int, Block>) {
    && HeadOk(d, g) && HeadBlocks(d, g) == []
    && Recordable(d, g, blocks) && Distinct(blocks)
    && forall b :: b in dirty <==> b in blocks
  }

  /** `images` grew from `before` by exactly the images of write_log(). */
  ghost predicate LogTrace(before: seq<Disk>, images: seq<Disk>, d: Disk, g: Layout, data: seq<Block>)
    requires Fits(d, g) && |data| <= g.size - 1
  {
    && |images| == |before| + |data| && before <= images
    && forall k :: 1 <= k <= |data| ==> images[|before| + k - 1] == Logged(d, g, data, k)
  }

  /** `images` grew from `before` by exactly the images of install_trans(). */
  ghost predicate InstallTrace(before: seq<Disk>, images: seq<Disk>, d: Disk, g: Layout, blocks: seq<int>)
    requires Fits(d, g) && Recordable(d, g, blocks)
  {
    && |images| == |before| + |blocks| && before <= images
    && forall k :: 1 <= k <= |blocks| ==> images[|before| + k - 1] == Installed(d, g, blocks, k)
  }

  /** `images` grew from `before` by exactly the images of a commit. */
  ghost predicate CommitTrace(before: seq<Disk>, images: seq<Disk>, d: Disk, g: Layout, tx: Tx)
    requires Fits(d, g) && TxOk(d, g, tx)
  {
    && |images| == |before| + CommitWrites(tx) && before <= images
    && forall k :: 1 <= k <= CommitWrites(tx) ==> images[|before| + k - 1] == CommitImage(d, g, tx, k)
  }

  /**
   The in-memory log over the buffer cache.  `dirty` holds the buffers pinned by B_DIRTY with
   their contents; every other cached block equals the disk.  `images` records the disk after each
   write: these are the states a crash can leave behind.
   */
  class Log {
    const g: Layout
    const block: array<int>
    var n: nat
    var outstanding: int
    var disk: Disk
    var dirty: map<int, Block>
    ghost var images: seq<Disk>

    /** The state initlog() starts recovery from. */
    constructor (g: Layout, disk: Disk)
      requires Fits(disk, g)
      ensures Wf() && this.g == g && this.disk == disk && dirty == map[] && images == [] && fresh(block)
      ensures outstanding == 0 && n == 0
    {
      this.g, this.disk, dirty, outstanding, n, images := g, disk, map[], 0, 0, [];
      block := new int[LOGSIZE];
    }

    ghost predicate Wf()
      reads this
    {
      Fits(disk, g) && block.Length == LOGSIZE && n <= LOGSIZE
    }

    ghost function Blocks(): seq<int>
      requires n <= block.Length
      reads this, block
    {
      block[..n]
    }

    ghost predicate Valid()
      reads this, block
    {
      Wf() && Collecting(disk, g, Blocks(), dirty)
    }

    /** The transaction being collected. */
    ghost function Pending(): Tx
      requires Valid()
      reads this, block
    {
      Tx(Blocks(), Contents(dirty, Blocks()))
    }

    function Bread(b: int): Block
      requires 0 <= b < |disk|
      reads this
    {
      if b in dirty then dirty[b] else disk[b]
    }

    /** bwrite(): the buffer reaches the disk and loses B_DIRTY. */
    method Bwrite(b: int, data: Block)
      requires 0 <= b < |disk|
      modifies this`disk, this`dirty, this`images
      ensures disk == old(disk)[b := data] && dirty == old(dirty) - {b}
      ensures images == old(images) + [disk]
    {
      disk := disk[b := data];
      dirty := dirty - {b};
      images := images + [disk];
    }

    /**
     The caller's change of a buffer followed by log_write().  Refused exactly in the two cases in
     which log.c panics, before absorption is even considered.  Otherwise the pending transaction
     now also gives b its data, in the same slot if b was already recorded.
     */
    method LogWrite(b: int, data: Block) returns (ok: bool)
      requires Valid() && Home(disk, g, b)
      modifies this`n, this`dirty, block
      ensures Valid()
      ensures ok <==> old(n) < LOGSIZE && old(n) < g.size - 1 && outstanding >= 1
      ensures !ok ==> Blocks() == old(Blocks()) && dirty == old(dirty)
      ensures ok ==> Blocks() == if b in old(Blocks()) then old(Blocks()) else old(Blocks()) + [b]
      ensures ok ==> dirty == old(dirty)[b := data]
      ensures ok ==> Apply(disk, Pending()) == Apply(disk, old(Pending()))[b := data]
    {
      hide Collecting, Apply, Contents, Distinct;
      if n >= LOGSIZE || n >= g.size - 1 {
        return false;
      }
      if outstanding < 1 {
        return false;
      }
      ghost var was := Blocks();
      var i := 0;
      while i < n
        invariant 0 <= i <= n
        invariant b !in block[..i]
      {
        if block[i] == b {
          break;
        }
        i := i + 1;
      }
      block[i] := b;
      if i == n {
        n := n + 1;
      }
      assert Blocks() == Record(was, b);
      RecordMeaning(disk, g, was, dirty, b, data);
      dirty := dirty[b := data];
      return true;
    }

    method WriteLog(ghost data: seq<Block>)
      requires Wf() && n <= g.size - 1
      requires |data| == n
      requires forall i :: 0 <= i < n ==> Home(disk, g, block[i]) && data[i] == Bread(block[i])
      requires forall b :: b in dirty ==> Home(disk, g, b)
      modifies this`disk, this`dirty, this`images
      ensures |disk| == old(|disk|) && dirty == old(dirty)
      ensures disk == Logged(old(disk), g, data, n)
      ensures LogTrace(old(images), images, old(disk), g, data)
    {
      hide Logged;
      LoggedStart(disk, g, data);
      var tail := 0;
      while tail < n
        invariant 0 <= tail <= n && |disk| == old(|disk|)
        invariant disk == Logged(old(disk), g, data, tail) && dirty == old(dirty)
        invariant |images| == old(|images|) + tail && old(images) <= images
        invariant forall k :: 1 <= k <= tail ==> images[old(|images|) + k - 1] == Logged(old(disk), g, data, k)
      {
        LoggedAt(old(disk), g, data, tail);
        LoggedNext(old(disk), g, data, tail);
        var from := Bread(block[tail]);
        Bwrite(g.start + tail + 1, from);
        tail := tail + 1;
      }
    }

    method WriteHead()
      requires Wf() && forall b :: b in dirty ==> Home(disk, g, b)
      modifies this`disk, this`dirty, this`images
      ensures disk == WithHead(old(disk), g, Blocks()) && dirty == old(dirty)
      ensures images == old(images) + [disk]
    {
      var hb: seq<int> := Bread(g.start);
      hb := hb[0 := n];
      var i := 0;
      while i < n
        invariant 0 <= i <= n && |hb| == WORDS
        invariant hb == [n] + block[..i] + old(disk)[g.start][1 + i..]
      {
        hb := hb[1 + i := block[i]];
        i := i + 1;
      }
      Bwrite(g.start, hb);
    }

    method InstallTrans()
      requires Wf() && Recordable(disk, g, Blocks())
      requires forall b :: b in dirty ==> Home(disk, g, b)
      modifies this`disk, this`dirty, this`images
      ensures disk == Installed(old(disk), g, Blocks(), n) && |disk| == old(|disk|)
      ensures forall b :: b in dirty <==> b in old(dirty) && b !in Blocks()
      ensures InstallTrace(old(images), images, old(disk), g, Blocks())
    {
      hide Installed;
      InstalledStart(disk, g, Blocks());
      var tail := 0;
      while tail < n
        invariant 0 <= tail <= n && |disk| == old(|disk|)
        invariant disk == Installed(old(disk), g, Blocks(), tail)
        invariant forall b :: b in dirty <==> b in old(dirty) && b !in Blocks()[..tail]
        invariant |images| == old(|images|) + tail && old(images) <= images
        invariant forall k :: 1 <= k <= tail ==> images[old(|images|) + k - 1] == Installed(old(disk), g, Blocks(), k)
      {
        InstalledNext(old(disk), g, Blocks(), tail);
        var lbuf := Bread(g.start + tail + 1);
        Bwrite(block[tail], lbuf);
        assert Blocks()[..tail + 1] == Blocks()[..tail] + [block[tail]];
        tail := tail + 1;
      }
      assert Blocks()[..n] == Blocks();
    }

    method ReadHead()
      requires Wf() && HeadOk(disk, g) && g.start !in dirty
      modifies this`n, block
      ensures n <= LOGSIZE && Blocks() == HeadBlocks(disk, g)
    {
      var lh := Bread(g.start);
      n := lh[0];
      var i := 0;
      while i < n
        invariant 0 <= i <= n == lh[0]
        invariant block[..i] == lh[1..1 + i]
      {
        block[i] := lh[1 + i];
        i := i + 1;
      }
    }

    /** commit() of a transaction that is not empty: its four phases. */
    method WriteAll(ghost tx: Tx)
      requires Wf() && n > 0 && tx.blocks == Blocks() && TxOk(disk, g, tx)
      requires forall i :: 0 <= i < n ==> block[i] in dirty && tx.data[i] == dirty[block[i]]
      requires forall b :: b in dirty <==> b in tx.blocks
      modifies this`n, this`disk, this`dirty, this`images
      ensures Wf() && n == 0 && (forall b :: b !in dirty) && |disk| == old(|disk|)
      ensures CommitTrace(old(images), images, old(disk), g, tx) && images != [] && disk == images[|images| - 1]
    {
      hide Logged, Installed, CommitImage, LogTrace, InstallTrace, CommitTrace, HeadBlock, Distinct;
      ghost var d, before := disk, images;
      WriteLog(tx.data);
      ghost var logged := images;
      WriteHead();
      ghost var headed := images;
      assert Blocks() == tx.blocks;
      InstallTrans();
      ghost var installed := images;
      assert Blocks() == tx.blocks;
      n := 0;
      WriteHead();
      assert Blocks() == [];
      CommitTraceFrom(before, logged, headed, installed, images, d, g, tx);
    }

    /**
     commit(): the images it leaves are exactly those of CommitImage, so CrashDuringCommit speaks of
     each of them, and at the end every block reads on disk as the cache had it.
     */
    method Commit()
      requires Valid()
      modifies this`n, this`disk, this`dirty, this`images
      ensures Valid() && n == 0
      ensures old(n) == 0 ==> disk == old(disk) && images == old(images)
      ensures old(n) > 0 ==>
        CommitTrace(old(images), images, old(disk), g, old(Pending())) && disk == images[|images| - 1]
      ensures SameHome(disk, View(old(disk), old(dirty)), g)
    {
      hide Collecting, Apply, CommitImage, CommitTrace, SameHome, View, Contents, TxOk, Recordable;
      ghost var tx, d := Pending(), disk;
      CollectingTx(d, g, tx.blocks, dirty);
      if n > 0 {
        WriteAll(tx);
        LastImage(old(images), images, d, g, tx);
      } else {
        NothingDirty(d, g, dirty);
      }
      assert n == 0 && Blocks() == [];
      CommitOutcome(d, g, tx.blocks, old(dirty), disk, dirty);
    }

    /** recover_from_log(), run at boot with a cold cache. */
    method RecoverFromLog()
      requires Wf() && HeadOk(disk, g) && dirty == map[]
      modifies this`n, this`disk, this`dirty, this`images, block
      ensures Valid() && n == 0
      ensures disk == Recover(old(disk), g)
      ensures var d := old(disk);
        && |images| == old(|images|) + RecoveryWrites(d, g) && old(images) <= images
        && forall k :: 1 <= k <= RecoveryWrites(d, g) ==> images[old(|images|) + k - 1] == RecoveryImage(d, g, k)
    {
      ReadHead();
      ghost var blocks := Blocks();
      InstallTrans();
      HeadReads(disk, g, []);
      n := 0;
      WriteHead();
    }
  }

  /** The pending transaction is one that commit() can write. */
  lemma CollectingTx(d: Disk, g: Layout, blocks: seq<int>, dirty: map<int, Block>)
    requires Collecting(d, g, blocks, dirty)
    ensures Fits(d, g) && (forall b :: b in dirty <==> b in blocks) && |blocks| <= LOGSIZE
    ensures TxOk(d, g, Tx(blocks, Contents(dirty, blocks)))
    ensures forall i :: 0 <= i < |blocks| ==> blocks[i] in dirty && Contents(dirty, blocks)[i] == dirty[blocks[i]]
  {
    var data := Contents(dirty, blocks);
    forall i | 0 <= i < |blocks|
      ensures blocks[i] in dirty && data[i] == dirty[blocks[i]]
    {
      assert blocks[i] in blocks;
    }
  }

  lemma NothingDirty(d: Disk, g: Layout, dirty: map<int, Block>)
    requires Collecting(d, g, [], dirty)
    ensures forall b :: b !in dirty
  {
  }

  lemma LastImage(before: seq<Disk>, images: seq<Disk>, d: Disk, g: Layout, tx: Tx)
    requires Fits(d, g) && TxOk(d, g, tx) && CommitTrace(before, images, d, g, tx)
    ensures images != [] && images[|images| - 1] == CommitImage(d, g, tx, CommitWrites(tx))
  {
  }

  /** What a reader sees through the cache. */
  ghost function View(d: Disk, dirty: map<int, Block>): Disk {
    seq(|d|, b requires 0 <= b < |d| => if b in dirty then dirty[b] else d[b])
  }

  /** What the cache shows is the disk with the pending transaction applied. */
  lemma {:induction false} CacheIsApplied(d: Disk, g: Layout, blocks: seq<int>, dirty: map<int, Block>)
    requires Collecting(d, g, blocks, dirty)
    ensures Apply(d, Tx(blocks, Contents(dirty, blocks))) == View(d, dirty)
  {
    var tx := Tx(blocks, Contents(dirty, blocks));
    ApplyAt(d, tx);
    forall b | 0 <= b < |d|
      ensures Apply(d, tx)[b] == View(d, dirty)[b]
    {
      if b in dirty {
        var i :| 0 <= i < |tx.blocks| && tx.blocks[i] == b;
      }
    }
  }

  /** Log absorption: a block already recorded keeps its slot. */
  ghost function Record(blocks: seq<int>, b: int): seq<int> {
    if b in blocks then blocks else blocks + [b]
  }

  lemma {:induction false} RecordKeeps(d: Disk, g: Layout, blocks: seq<int>, dirty: map<int, Block>, b: int,
                                       data: Block)
    requires Collecting(d, g, blocks, dirty) && Home(d, g, b)
    requires |blocks| < LOGSIZE && |blocks| < g.size - 1
    ensures Collecting(d, g, Record(blocks, b), dirty[b := data])
  {
    var more := Record(blocks, b);
    assert Recordable(d, g, more) && Distinct(more);
    assert forall c :: c in more <==> c in blocks || c == b;
  }

  /** Recording a write changes the transaction's meaning at that block and nowhere else. */
  lemma {:induction false} RecordMeaning(d: Disk, g: Layout, blocks: seq<int>, dirty: map<int, Block>, b: int,
                                         data: Block)
    requires Collecting(d, g, blocks, dirty) && Home(d, g, b)
    requires |blocks| < LOGSIZE && |blocks| < g.size - 1
    ensures Collecting(d, g, Record(blocks, b), dirty[b := data])
    ensures Apply(d, Tx(Record(blocks, b), Contents(dirty[b := data], Record(blocks, b))))
         == Apply(d, Tx(blocks, Contents(dirty, blocks)))[b := data]
  {
    RecordKeeps(d, g, blocks, dirty, b, data);
    CacheIsApplied(d, g, blocks, dirty);
    CacheIsApplied(d, g, Record(blocks, b), dirty[b := data]);
    assert View(d, dirty[b := data]) == View(d, dirty)[b := data];
  }

  /** A finished commit leaves an empty log and, at every home block, what the cache had. */
  lemma {:induction false} CommitOutcome(d: Disk, g: Layout, blocks: seq<int>, dirty: map<int, Block>, end: Disk,
                                         after: map<int, Block>)
    requires Collecting(d, g, blocks, dirty) && forall b :: b !in after
    requires var tx := Tx(blocks, Contents(dirty, blocks));
      end == if blocks == [] then d else CommitImage(d, g, tx, CommitWrites(tx))
    ensures Collecting(end, g, [], after) && SameHome(end, View(d, dirty), g)
  {
    CacheIsApplied(d, g, blocks, dirty);
    if blocks != [] {
      EventIsAtomic(d, g, Completed(Tx(blocks, Contents(dirty, blocks))));
    }
  }

  lemma {:induction false} CommitTraceFrom(before: seq<Disk>, logged: seq<Disk>, headed: seq<Disk>,
                                           installed: seq<Disk>, images: seq<Disk>,
                        d: Disk, g: Layout, tx: Tx)
    requires Fits(d, g) && TxOk(d, g, tx) && LogTrace(before, logged, d, g, tx.data)
    requires headed == logged + [WithHead(Logged(d, g, tx.data, |tx.data|), g, tx.blocks)]
    requires InstallTrace(headed, installed, headed[|headed| - 1], g, tx.blocks)
    requires images == installed + [WithHead(Installed(headed[|headed| - 1], g, tx.blocks, |tx.blocks|), g, [])]
    ensures CommitTrace(before, images, d, g, tx)
  {
    var n := |tx.blocks|;
    forall k | 1 <= k <= CommitWrites(tx)
      ensures images[|before| + k - 1] == CommitImage(d, g, tx, k)
    {
      if k <= n {
        assert images[|before| + k - 1] == logged[|before| + k - 1];
      } else if n + 1 < k <= 2 * n + 1 {
        assert images[|before| + k - 1] == installed[|headed| + (k - n - 1) - 1];
      }
    }
  }
}
