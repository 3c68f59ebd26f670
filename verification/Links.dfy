/**
 Directories and link counts: dirlookup(), dirlink(), namex() of fs.c and link, unlink and create of
 sysfile.c, each system call one step.  In every run that makes no name in a removed directory, an inode's
 nlink is the number of entries that name it in linked directories, its own "." aside, and linked
 directories form a tree through "..".
 */
module Links {

  import opened Params

  const ROOT: nat := 1

  datatype Kind = File | Dir | Device

  /** inum 0 marks a free slot. */
  datatype Dirent = Dirent(name: string, inum: nat)

  datatype Inode = Inode(kind: Kind, nlink: nat, entries: seq<Dirent>)

  type Tree = map<nat, Inode>

  predicate Linked(t: Tree, d: nat) { d in t && t[d].kind == Dir && t[d].nlink > 0 }

  /** Entry k of the linked directory d names x, and is not d's own ".". */
  predicate Refers(t: Tree, d: nat, k: nat, x: nat) {
    && Linked(t, d) && k < |t[d].entries| && x != 0 && t[d].entries[k].inum == x
    && !(d == x && t[d].entries[k].name == ".")
  }

  function Refs(t: Tree, x: nat): set<(nat, nat)> {
    set d, k | d in t && 0 <= k < |t[d].entries| && Refers(t, d, k, x) :: (d, k)
  }

  /** An entry other than "." and "..". */
  predicate Proper(t: Tree, d: nat, k: nat, x: nat) { Refers(t, d, k, x) && k >= 2 }

  predicate CountOk(t: Tree, x: nat)
    requires x in t
  {
    t[x].nlink == |Refs(t, x)|
  }

  /** Entries name existing inodes; names are unique; "." and ".." come first and only there. */
  ghost predicate DirOk(t: Tree, d: nat)
    requires d in t
  {
    var es := t[d].entries;
    Linked(t, d) ==>
      && |es| >= 2 && es[0] == Dirent(".", d) && es[1].name == ".." && es[1].inum in t && es[1].inum != 0
      && (forall k :: 2 <= k < |es| && es[k].inum != 0 ==> es[k].inum in t && es[k].name != "." && es[k].name != "..")
      && (forall j, k :: 0 <= j < k < |es| && es[j].inum != 0 && es[k].inum != 0 ==> es[j].name != es[k].name)
  }

  predicate EmptyDir(t: Tree, x: nat) { x in t && forall k :: 2 <= k < |t[x].entries| ==> t[x].entries[k].inum == 0 }

  predicate HasDots(t: Tree, d: nat) {
    && d in t && |t[d].entries| >= 2
    && t[d].entries[0] == Dirent(".", d) && t[d].entries[1].name == ".." && t[d].entries[1].inum != 0
  }

  /** Also a removed directory, still somebody's working directory, has its "." and "..", and nothing else. */
  predicate DotsOk(t: Tree, d: nat)
    requires d in t
  {
    t[d].kind == Dir ==> HasDots(t, d) && (t[d].nlink == 0 ==> EmptyDir(t, d))
  }

  /** A linked directory is named by one proper entry, in the directory its ".." names; the root by none and itself. */
  ghost predicate ParentOk(t: Tree, x: nat)
    requires x in t
  {
    Linked(t, x) && |t[x].entries| >= 2 ==>
      && Linked(t, t[x].entries[1].inum)
      && (x == ROOT ==> t[x].entries[1].inum == ROOT && forall d: nat, k: nat :: !Proper(t, d, k, x))
      && (x != ROOT ==> exists k: nat :: Proper(t, t[x].entries[1].inum, k, x))
      && (forall d: nat, k: nat :: Proper(t, d, k, x) ==> d == t[x].entries[1].inum)
      && (forall d: nat, j: nat, k: nat :: Proper(t, d, j, x) && Proper(t, d, k, x) ==> j == k)
  }

  /** Where ".." leads from x, and where n times ".." does. */
  function Parent(t: Tree, x: nat): nat { if x in t && |t[x].entries| >= 2 then t[x].entries[1].inum else 0 }

  function Up(t: Tree, x: nat, n: nat): nat
    decreases n
  {
    if n == 0 then x else Up(t, Parent(t, x), n - 1)
  }

  /** A linked directory hangs off the root. */
  ghost predicate Rooted(t: Tree, x: nat) { Linked(t, x) ==> exists n: nat :: Up(t, x, n) == ROOT }

  ghost predicate Inv(t: Tree) {
    && Linked(t, ROOT) && 0 !in t
    && (forall x {:trigger CountOk(t, x)} :: x in t ==> CountOk(t, x))
    && (forall d {:trigger DirOk(t, d)} :: d in t ==> DirOk(t, d))
    && (forall x {:trigger ParentOk(t, x)} :: x in t ==> ParentOk(t, x))
    && (forall x {:trigger Rooted(t, x)} :: x in t ==> Rooted(t, x))
    && (forall d {:trigger DotsOk(t, d)} :: d in t ==> DotsOk(t, d))
  }

  /** The image mkfs starts from: the root with its two entries. */
  lemma InitOk()
    ensures Inv(map[ROOT := Inode(Dir, 1, [Dirent(".", ROOT), Dirent("..", ROOT)])])
  {
    var t: Tree := map[ROOT := Inode(Dir, 1, [Dirent(".", ROOT), Dirent("..", ROOT)])];
    assert Refs(t, ROOT) == {(ROOT, 1)};
    assert Up(t, ROOT, 0) == ROOT;
  }

  ghost predicate InodeOk(t: Tree, x: nat)
    requires x in t
  {
    CountOk(t, x) && DirOk(t, x) && ParentOk(t, x) && Rooted(t, x) && DotsOk(t, x)
  }

  lemma InvAt(t: Tree, x: nat)
    requires Inv(t)
    ensures Linked(t, ROOT) && 0 !in t && (x in t ==> CountOk(t, x))
  {
  }

  lemma InvFrom(t: Tree)
    requires Linked(t, ROOT) && 0 !in t && forall x {:trigger InodeOk(t, x)} :: x in t ==> InodeOk(t, x)
    ensures Inv(t)
  {
    forall x | x in t
      ensures CountOk(t, x) && DirOk(t, x) && ParentOk(t, x) && Rooted(t, x) && DotsOk(t, x)
    {
      assert InodeOk(t, x);
    }
  }

  // ---------------------------------------------------------------- counting references

  lemma InRefs(t: Tree, x: nat, d: nat, k: nat)
    ensures (d, k) in Refs(t, x) <==> Refers(t, d, k, x)
  {
  }

  lemma RefsSame(t: Tree, t': Tree, x: nat)
    requires forall d: nat, k: nat :: Refers(t', d, k, x) <==> Refers(t, d, k, x)
    ensures |Refs(t', x)| == |Refs(t, x)|
  {
    assert Refs(t', x) == Refs(t, x) by {
      forall p: (nat, nat)
        ensures p in Refs(t', x) <==> p in Refs(t, x)
      {
        InRefs(t, x, p.0, p.1);
        InRefs(t', x, p.0, p.1);
      }
    }
  }

  lemma RefsAdd(t: Tree, t': Tree, x: nat, e: nat, j: nat)
    requires forall d: nat, k: nat :: Refers(t', d, k, x) <==> Refers(t, d, k, x) || (d, k) == (e, j)
    requires !Refers(t, e, j, x)
    ensures |Refs(t', x)| == |Refs(t, x)| + 1
  {
    InRefs(t, x, e, j);
    assert Refs(t', x) == Refs(t, x) + {(e, j)} by {
      forall p: (nat, nat)
        ensures p in Refs(t', x) <==> p in Refs(t, x) + {(e, j)}
      {
        InRefs(t, x, p.0, p.1);
        InRefs(t', x, p.0, p.1);
      }
    }
  }

  // ---------------------------------------------------------------- what the system calls do

  function Put(es: seq<Dirent>, k: nat, e: Dirent): (r: seq<Dirent>)
    requires k <= |es|
    ensures
      |r| == (if k < |es| then |es| else |es| + 1) && r[k] == e && forall j :: 0 <= j < |es| && j != k ==> r[j] == es[j]
  {
    if k < |es| then es[k := e] else es + [e]
  }

  /** A slot dirlink() may fill under the name: free, or the next after the last, with the name not in use. */
  predicate Vacant(t: Tree, d: nat, k: nat, name: string) {
    && d in t && t[d].kind == Dir && 2 <= k <= |t[d].entries| && (k < |t[d].entries| ==> t[d].entries[k].inum == 0)
    && name != "." && name != ".."
    && forall j :: 0 <= j < |t[d].entries| && t[d].entries[j].inum != 0 ==> t[d].entries[j].name != name
  }

  /** And the directory is linked. */
  predicate Room(t: Tree, d: nat, k: nat, name: string) { Linked(t, d) && Vacant(t, d, k, name) }

  function LinkFile(t: Tree, d: nat, k: nat, name: string, x: nat): Tree
    requires d in t && x in t && k <= |t[d].entries|
  {
    t[x := t[x].(nlink := t[x].nlink + 1)][d := t[d].(entries := Put(t[d].entries, k, Dirent(name, x)))]
  }

  function NewFile(t: Tree, d: nat, k: nat, name: string, x: nat, kind: Kind): Tree
    requires d in t && k <= |t[d].entries|
  {
    t[x := Inode(kind, 1, [])][d := t[d].(entries := Put(t[d].entries, k, Dirent(name, x)))]
  }

  function NewDir(t: Tree, d: nat, k: nat, name: string, x: nat): Tree
    requires d in t && k <= |t[d].entries|
  {
    t[x := Inode(Dir, 1, [Dirent(".", x), Dirent("..", d)])]
     [d := t[d].(nlink := t[d].nlink + 1, entries := Put(t[d].entries, k, Dirent(name, x)))]
  }

  function UnlinkFile(t: Tree, d: nat, k: nat, x: nat): Tree
    requires d in t && x in t && k < |t[d].entries| && t[x].nlink >= 1
  {
    t[d := t[d].(entries := t[d].entries[k := Dirent("", 0)])][x := t[x].(nlink := t[x].nlink - 1)]
  }

  function UnlinkDir(t: Tree, d: nat, k: nat, x: nat): Tree
    requires d in t && x in t && k < |t[d].entries| && t[x].nlink >= 1 && t[d].nlink >= 1
  {
    t[d := t[d].(nlink := t[d].nlink - 1, entries := t[d].entries[k := Dirent("", 0)])]
     [x := t[x].(nlink := t[x].nlink - 1)]
  }

  /** Inode y as a step leaves it that puts e in slot k of d: entries, kind, and by how much nlink grew. */
  ghost predicate Changed(t: Tree, t': Tree, d: nat, k: nat, e: Dirent, y: nat, more: int) {
    && d in t && y in t && y in t' && 2 <= k <= |t[d].entries| && t'[y].kind == t[y].kind
    && t'[y].nlink == t[y].nlink + more
    && |t'[y].entries| >= |t[y].entries|
    && (|t[y].entries| >= 2 ==> t'[y].entries[0] == t[y].entries[0] && t'[y].entries[1] == t[y].entries[1])
    && t'[y].entries == if y == d then Put(t[d].entries, k, e) else t[y].entries
  }

  lemma LinkChanges(t: Tree, d: nat, k: nat, name: string, x: nat)
    requires Room(t, d, k, name) && x in t && t[x].kind != Dir
    ensures var t', e := LinkFile(t, d, k, name, x), Dirent(name, x);
      && t'.Keys == t.Keys && (forall y: nat :: Linked(t', y) <==> Linked(t, y))
      && forall y {:trigger y in t} :: y in t ==> Changed(t, t', d, k, e, y, if y == x then 1 else 0)
  {
  }

  lemma NewFileChanges(t: Tree, d: nat, k: nat, name: string, x: nat, kind: Kind)
    requires Room(t, d, k, name) && x !in t && kind != Dir
    ensures var t', e := NewFile(t, d, k, name, x, kind), Dirent(name, x);
      && t'.Keys == t.Keys + {x} && t'[x] == Inode(kind, 1, []) && (forall y: nat :: Linked(t', y) <==> Linked(t, y))
      && forall y {:trigger y in t} :: y in t ==> Changed(t, t', d, k, e, y, 0)
  {
  }

  lemma NewDirChanges(t: Tree, d: nat, k: nat, name: string, x: nat)
    requires Room(t, d, k, name) && x !in t
    ensures var t', e := NewDir(t, d, k, name, x), Dirent(name, x);
      && t'.Keys == t.Keys + {x} && t'[x] == Inode(Dir, 1, [Dirent(".", x), Dirent("..", d)])
      && (forall y: nat :: Linked(t', y) <==> Linked(t, y) || y == x)
      && forall y {:trigger y in t} :: y in t ==> Changed(t, t', d, k, e, y, if y == d then 1 else 0)
  {
  }

  lemma UnlinkChanges(t: Tree, d: nat, k: nat, x: nat)
    requires Proper(t, d, k, x) && x in t && t[x].kind != Dir && t[x].nlink >= 1
    ensures var t', e := UnlinkFile(t, d, k, x), Dirent("", 0);
      && t'.Keys == t.Keys && (forall y: nat :: Linked(t', y) <==> Linked(t, y))
      && forall y {:trigger y in t} :: y in t ==> Changed(t, t', d, k, e, y, if y == x then -1 else 0)
  {
  }

  // ---------------------------------------------------------------- the way to the root

  /** From linked directories other than gone, ".." leads where it led, never to gone. */
  ghost predicate SameUp(t: Tree, t': Tree, gone: nat) {
    forall y: nat :: Linked(t, y) && y != gone ==>
      Parent(t', y) == Parent(t, y) && Parent(t, y) != gone && Linked(t, Parent(t, y))
  }

  lemma {:induction false} UpSame(t: Tree, t': Tree, gone: nat, x: nat, n: nat)
    requires SameUp(t, t', gone) && Linked(t, x) && x != gone
    ensures Up(t', x, n) == Up(t, x, n)
    decreases n
  {
    if n > 0 {
      UpSame(t, t', gone, Parent(t, x), n - 1);
    }
  }

  lemma RootedKept(t: Tree, t': Tree, gone: nat, x: nat)
    requires Inv(t) && SameUp(t, t', gone) && x in t && x != gone && (Linked(t', x) ==> Linked(t, x))
    ensures Rooted(t', x)
  {
    assert Rooted(t, x);
    if Linked(t', x) {
      var n: nat :| Up(t, x, n) == ROOT;
      UpSame(t, t', gone, x, n);
    }
  }

  lemma LinkedParent(t: Tree, y: nat)
    requires Inv(t) && Linked(t, y)
    ensures |t[y].entries| >= 2 && t[y].entries[1].inum in t && Linked(t, t[y].entries[1].inum)
  {
    assert DirOk(t, y) && ParentOk(t, y);
  }

  /** Changing a slot other than the first two, and no kind, moves no directory. */
  lemma SlotSameUp(t: Tree, t': Tree)
    requires Inv(t)
    requires forall y: nat :: y in t ==>
      y in t' && |t'[y].entries| >= |t[y].entries| && (|t[y].entries| >= 2 ==> t'[y].entries[1] == t[y].entries[1])
    ensures SameUp(t, t', 0)
  {
    forall y: nat | Linked(t, y)
      ensures Parent(t', y) == Parent(t, y) && Parent(t, y) != 0 && Linked(t, Parent(t, y))
    {
      LinkedParent(t, y);
    }
  }

  /** No directory is its own ancestor but the root: one that comes back to itself never meets the root. */
  lemma {:induction false} NoCycle(t: Tree, x: nat, n: nat)
    requires Inv(t) && Linked(t, x) && n > 0 && Up(t, x, n) == x
    ensures x == ROOT
  {
    assert Rooted(t, x);
    var m: nat :| Up(t, x, m) == ROOT;
    RoundAgain(t, x, n, m);
    AtRoot(t, n * m - m);
    UpPlus(t, x, m, n * m - m);
  }

  lemma {:induction false} UpPlus(t: Tree, x: nat, m: nat, n: nat)
    ensures Up(t, x, m + n) == Up(t, Up(t, x, m), n)
    decreases m
  {
    if m > 0 {
      UpPlus(t, Parent(t, x), m - 1, n);
    }
  }

  lemma {:induction false} RoundAgain(t: Tree, x: nat, n: nat, m: nat)
    requires Up(t, x, n) == x && n > 0
    ensures n * m >= m && Up(t, x, n * m) == x
    decreases m
  {
    if m > 0 {
      RoundAgain(t, x, n, m - 1);
      assert n * m == n + n * (m - 1);
      UpPlus(t, x, n, n * (m - 1));
    }
  }

  lemma {:induction false} AtRoot(t: Tree, n: nat)
    requires Inv(t)
    ensures Up(t, ROOT, n) == ROOT
  {
    assert DirOk(t, ROOT) && ParentOk(t, ROOT);
    if n > 0 {
      AtRoot(t, n - 1);
    }
  }

  // ---------------------------------------------------------------- adding a name for a file

  /** One more entry (d, k) naming x, a file; nothing else refers differently. */
  ghost predicate Adds(t: Tree, t': Tree, d: nat, k: nat, x: nat) {
    forall e: nat, j: nat, y: nat :: Refers(t', e, j, y) <==> Refers(t, e, j, y) || (e, j, y) == (d, k, x)
  }

  lemma LinkRefers(t: Tree, d: nat, k: nat, name: string, x: nat)
    requires Inv(t) && Room(t, d, k, name) && x in t && t[x].kind != Dir
    ensures Adds(t, LinkFile(t, d, k, name, x), d, k, x) && !Refers(t, d, k, x)
  {
  }

  lemma NewFileRefers(t: Tree, d: nat, k: nat, name: string, x: nat, kind: Kind)
    requires Inv(t) && Room(t, d, k, name) && x !in t && x != 0 && kind != Dir
    ensures Adds(t, NewFile(t, d, k, name, x, kind), d, k, x) && !Refers(t, d, k, x)
  {
  }

  lemma UnlinkRefers(t: Tree, d: nat, k: nat, x: nat)
    requires Inv(t) && Proper(t, d, k, x) && x in t && t[x].kind != Dir && t[x].nlink >= 1
    ensures Adds(UnlinkFile(t, d, k, x), t, d, k, x) && !Refers(UnlinkFile(t, d, k, x), d, k, x)
  {
  }

  /** A step that only adds or takes away a name (d, k) of a file x keeps everything about directories. */
  lemma FileParents(t: Tree, t': Tree, d: nat, k: nat, x: nat, y: nat)
    requires Inv(t) && y in t && y in t' && t'[y].kind == t[y].kind && (Linked(t, y) ==> y != x)
    requires Adds(t, t', d, k, x) || Adds(t', t, d, k, x)
    requires forall e: nat :: Linked(t', e) <==> Linked(t, e)
    requires Linked(t, y) ==> |t[y].entries| >= 2 && |t'[y].entries| >= 2 && t'[y].entries[1] == t[y].entries[1]
    ensures ParentOk(t', y)
  {
    assert ParentOk(t, y);
    if Linked(t, y) {
      forall e: nat, j: nat
        ensures Proper(t', e, j, y) <==> Proper(t, e, j, y)
      {
        assert Refers(t', e, j, y) <==> Refers(t, e, j, y);
      }
      if y != ROOT {
        var j: nat :| Proper(t, t[y].entries[1].inum, j, y);
        assert Proper(t', t[y].entries[1].inum, j, y);
      }
    }
  }

  /** One more name is one more reference. */
  lemma AddCounts(t: Tree, t': Tree, d: nat, k: nat, x: nat, y: nat)
    requires Adds(t, t', d, k, x) && !Refers(t, d, k, x)
    ensures |Refs(t', y)| == |Refs(t, y)| + if y == x then 1 else 0
  {
    hide Refers;
    if y == x {
      assert forall e: nat, j: nat :: Refers(t', e, j, x) <==> Refers(t, e, j, x) || (e, j) == (d, k);
      RefsAdd(t, t', x, d, k);
    } else {
      RefsSame(t, t', y);
    }
  }

  /** Filling a slot with a new name, or freeing one, keeps a directory in order. */
  lemma SlotDirOk(t: Tree, t': Tree, d: nat, k: nat, e: Dirent, y: nat)
    requires Inv(t) && d in t && y in t && y in t' && (forall z :: z in t ==> z in t') && 2 <= k <= |t[d].entries|
    requires Linked(t', y) ==> Linked(t, y)
    requires y != d ==> t'[y].entries == t[y].entries
    requires y == d ==> t'[d].entries == Put(t[d].entries, k, e)
    requires e.inum == 0 || (e.inum in t' && Room(t, d, k, e.name))
    ensures DirOk(t', y)
  {
    assert DirOk(t, y);
  }

  lemma LinkKeeps(t: Tree, d: nat, k: nat, name: string, x: nat)
    requires Inv(t) && Room(t, d, k, name) && x in t && t[x].kind != Dir
    ensures Inv(LinkFile(t, d, k, name, x))
  {
    hide LinkFile, Put, Inv, Refers, Refs, DirOk, ParentOk, SameUp, Rooted, DotsOk;
    var t' := LinkFile(t, d, k, name, x);
    LinkRefers(t, d, k, name, x);
    LinkChanges(t, d, k, name, x);
    SlotSameUp(t, t');
    forall y | y in t'
      ensures InodeOk(t', y)
    {
      InvAt(t, y);
      RootedKept(t, t', 0, y);
      DotsKept(t, t', y);
      AddCounts(t, t', d, k, x, y);
      SlotDirOk(t, t', d, k, Dirent(name, x), y);
      if Linked(t, y) { TwoEntries(t, y); }
      FileParents(t, t', d, k, x, y);
    }
    InvAt(t, ROOT);
    InvFrom(t');
  }

  lemma DotsKept(t: Tree, t': Tree, y: nat)
    requires Inv(t) && y in t && y in t' && t'[y].kind == t[y].kind && |t'[y].entries| >= |t[y].entries|
    requires |t[y].entries| >= 2 ==> t'[y].entries[0] == t[y].entries[0] && t'[y].entries[1] == t[y].entries[1]
    requires t'[y].kind == Dir && t'[y].nlink == 0 ==>
      t'[y].entries == t[y].entries && (t[y].nlink == 0 || EmptyDir(t, y))
    ensures DotsOk(t', y)
  {
    assert DotsOk(t, y);
  }

  lemma TwoEntries(t: Tree, y: nat)
    requires Inv(t) && y in t && Linked(t, y)
    ensures |t[y].entries| >= 2
  {
    assert DirOk(t, y);
  }

  /** An inode number not in use is named nowhere. */
  lemma Unnamed(t: Tree, x: nat)
    requires Inv(t) && x !in t
    ensures Refs(t, x) == {} && forall d: nat, k: nat :: !Refers(t, d, k, x)
  {
    forall d: nat, k: nat
      ensures !Refers(t, d, k, x)
    {
      if d in t { assert DirOk(t, d); }
    }
    forall p: (nat, nat)
      ensures p !in Refs(t, x)
    {
      InRefs(t, x, p.0, p.1);
    }
  }

  lemma NewFileKeeps(t: Tree, d: nat, k: nat, name: string, x: nat, kind: Kind)
    requires Inv(t) && Room(t, d, k, name) && x !in t && x != 0 && kind != Dir
    ensures Inv(NewFile(t, d, k, name, x, kind))
  {
    hide NewFile, Put, Inv, Refers, Refs, DirOk, ParentOk, SameUp, Rooted, DotsOk;
    var t' := NewFile(t, d, k, name, x, kind);
    NewFileRefers(t, d, k, name, x, kind);
    Unnamed(t, x);
    AddCounts(t, t', d, k, x, x);
    NewFileChanges(t, d, k, name, x, kind);
    SlotSameUp(t, t');
    forall y | y in t
      ensures InodeOk(t', y)
    {
      InvAt(t, y);
      RootedKept(t, t', 0, y);
      DotsKept(t, t', y);
      AddCounts(t, t', d, k, x, y);
      SlotDirOk(t, t', d, k, Dirent(name, x), y);
      if Linked(t, y) { TwoEntries(t, y); }
      FileParents(t, t', d, k, x, y);
    }
    FileOk(t', x);
    InvAt(t, ROOT);
    InvFrom(t');
  }

  lemma FileOk(t: Tree, x: nat)
    requires x in t && t[x].kind != Dir
    ensures DirOk(t, x) && ParentOk(t, x) && Rooted(t, x) && DotsOk(t, x)
  {
  }

  /** A name in use is counted. */
  lemma NamedIsLinked(t: Tree, d: nat, k: nat, x: nat)
    requires Inv(t) && Refers(t, d, k, x)
    ensures x in t && t[x].nlink >= 1
  {
    assert DirOk(t, d);
    assert CountOk(t, x);
    InRefs(t, x, d, k);
  }

  lemma UnlinkFileKeeps(t: Tree, d: nat, k: nat, x: nat)
    requires Inv(t) && Proper(t, d, k, x) && x in t && t[x].kind != Dir
    ensures t[x].nlink >= 1 && Inv(UnlinkFile(t, d, k, x))
  {
    hide UnlinkFile, Put, Inv, Refs, DirOk, ParentOk, SameUp, Rooted, DotsOk;
    NamedIsLinked(t, d, k, x);
    var t' := UnlinkFile(t, d, k, x);
    UnlinkRefers(t, d, k, x);
    UnlinkChanges(t, d, k, x);
    SlotSameUp(t, t');
    forall y | y in t'
      ensures InodeOk(t', y)
    {
      InvAt(t, y);
      RootedKept(t, t', 0, y);
      DotsKept(t, t', y);
      AddCounts(t', t, d, k, x, y);
      SlotDirOk(t, t', d, k, Dirent("", 0), y);
      if Linked(t, y) { TwoEntries(t, y); }
      FileParents(t, t', d, k, x, y);
    }
    InvAt(t, ROOT);
    InvFrom(t');
  }

  // ---------------------------------------------------------------- adding and removing a directory

  /** The entry (d, k) naming the directory x, and x's "..", come or go together. */
  ghost predicate AddsDir(t: Tree, t': Tree, d: nat, k: nat, x: nat) {
    forall e: nat, j: nat, y: nat ::
      Refers(t', e, j, y) <==> Refers(t, e, j, y) || (e, j, y) == (d, k, x) || (e, j, y) == (x, 1, d)
  }

  lemma AddDirCounts(t: Tree, t': Tree, d: nat, k: nat, x: nat, y: nat)
    requires AddsDir(t, t', d, k, x) && x != d && !Refers(t, d, k, x) && !Refers(t, x, 1, d)
    ensures |Refs(t', y)| == |Refs(t, y)| + if y == x || y == d then 1 else 0
  {
    hide Refers;
    if y == x {
      assert forall e: nat, j: nat :: Refers(t', e, j, x) <==> Refers(t, e, j, x) || (e, j) == (d, k);
      RefsAdd(t, t', x, d, k);
    } else if y == d {
      assert forall e: nat, j: nat :: Refers(t', e, j, d) <==> Refers(t, e, j, d) || (e, j) == (x, 1);
      RefsAdd(t, t', d, x, 1);
    } else {
      RefsSame(t, t', y);
    }
  }

  lemma NewDirRefers(t: Tree, d: nat, k: nat, name: string, x: nat)
    requires Inv(t) && Room(t, d, k, name) && x !in t && x != 0
    ensures AddsDir(t, NewDir(t, d, k, name, x), d, k, x) && !Refers(t, d, k, x) && !Refers(t, x, 1, d)
  {
    var t' := NewDir(t, d, k, name, x);
    forall e: nat, j: nat, y: nat
      ensures Refers(t', e, j, y) <==> Refers(t, e, j, y) || (e, j, y) == (d, k, x) || (e, j, y) == (x, 1, d)
    {
      if e == x {
        assert |t'[x].entries| == 2;
      }
    }
  }

  /** For a directory y other than x the proper entries are the same. */
  lemma DirParents(t: Tree, t': Tree, d: nat, k: nat, x: nat, y: nat)
    requires Inv(t) && y in t && y in t' && y != x && t'[y].kind == t[y].kind && (Linked(t', y) ==> Linked(t, y))
    requires AddsDir(t, t', d, k, x) || AddsDir(t', t, d, k, x)
    requires Linked(t, y) ==>
      && |t[y].entries| >= 2 && |t'[y].entries| >= 2 && t'[y].entries[1] == t[y].entries[1]
      && Linked(t', t[y].entries[1].inum)
    ensures ParentOk(t', y)
  {
    assert ParentOk(t, y);
    if Linked(t', y) {
      forall e: nat, j: nat
        ensures Proper(t', e, j, y) <==> Proper(t, e, j, y)
      {
        assert (e, j, y) != (d, k, x);
        assert j >= 2 ==> (Refers(t', e, j, y) <==> Refers(t, e, j, y));
      }
      if y != ROOT {
        var j: nat :| Proper(t, t[y].entries[1].inum, j, y);
        assert Proper(t', t[y].entries[1].inum, j, y);
      }
    }
  }

  lemma NewDirOwnParent(t: Tree, d: nat, k: nat, name: string, x: nat)
    requires Inv(t) && Room(t, d, k, name) && x !in t && x != 0
    ensures var t' := NewDir(t, d, k, name, x); DirOk(t', x) && ParentOk(t', x) && DotsOk(t', x)
  {
    var t' := NewDir(t, d, k, name, x);
    NewDirRefers(t, d, k, name, x);
    Unnamed(t, x);
    forall e: nat, j: nat
      ensures Refers(t', e, j, x) <==> (e, j) == (d, k)
    {
      assert !Refers(t, e, j, x);
      assert Refers(t', e, j, x) <==> Refers(t, e, j, x) || (e, j, x) == (d, k, x) || (e, j, x) == (x, 1, d);
    }
    assert Proper(t', d, k, x);
  }

  /** A new directory is one step further from the root than its parent. */
  lemma NewDirRooted(t: Tree, d: nat, k: nat, name: string, x: nat)
    requires Inv(t) && Room(t, d, k, name) && x !in t && x != 0 && SameUp(t, NewDir(t, d, k, name, x), 0)
    ensures Rooted(NewDir(t, d, k, name, x), x)
  {
    hide SameUp;
    var t' := NewDir(t, d, k, name, x);
    assert Rooted(t, d);
    var n: nat :| Up(t, d, n) == ROOT;
    UpSame(t, t', 0, d, n);
    assert Up(t', x, n + 1) == Up(t', d, n);
  }

  lemma NewDirKeeps(t: Tree, d: nat, k: nat, name: string, x: nat)
    requires Inv(t) && Room(t, d, k, name) && x !in t && x != 0
    ensures Inv(NewDir(t, d, k, name, x))
  {
    hide NewDir, Put, Inv, Refers, Refs, DirOk, ParentOk, SameUp, Rooted, DotsOk;
    var t' := NewDir(t, d, k, name, x);
    NewDirRefers(t, d, k, name, x);
    Unnamed(t, x);
    AddDirCounts(t, t', d, k, x, x);
    NewDirOwnParent(t, d, k, name, x);
    NewDirChanges(t, d, k, name, x);
    SlotSameUp(t, t');
    NewDirRooted(t, d, k, name, x);
    forall y | y in t
      ensures InodeOk(t', y)
    {
      InvAt(t, y);
      RootedKept(t, t', 0, y);
      DotsKept(t, t', y);
      AddDirCounts(t, t', d, k, x, y);
      SlotDirOk(t, t', d, k, Dirent(name, x), y);
      if Linked(t, y) { LinkedParent(t, y); }
      DirParents(t, t', d, k, x, y);
    }
    InvAt(t, ROOT);
    InvFrom(t');
  }

  /** An empty directory is named once, in its parent, and is nobody's parent. */
  lemma EmptyDirOnce(t: Tree, d: nat, k: nat, x: nat)
    requires Inv(t) && Proper(t, d, k, x) && Linked(t, x) && EmptyDir(t, x)
    ensures x != ROOT && x != d && |t[x].entries| >= 2 && t[x].entries[1].inum == d && t[x].nlink == 1
    ensures forall y: nat :: Linked(t, y) && y != x ==> |t[y].entries| >= 2 && t[y].entries[1].inum != x
  {
    assert DirOk(t, x) && ParentOk(t, x) && CountOk(t, x);
    assert x != d;
    forall y: nat | Linked(t, y) && y != x
      ensures |t[y].entries| >= 2 && t[y].entries[1].inum != x
    {
      LinkedParent(t, y);
      assert ParentOk(t, y);
      if y != ROOT {
        var j: nat :| Proper(t, t[y].entries[1].inum, j, y);
      }
    }
    forall e: nat, j: nat
      ensures Refers(t, e, j, x) <==> (e, j) == (d, k)
    {
      if Refers(t, e, j, x) {
        assert DirOk(t, e);
        assert j >= 2 ==> Proper(t, e, j, x);
      }
    }
    OneRef(t, x, d, k);
  }

  lemma OneRef(t: Tree, x: nat, d: nat, k: nat)
    requires forall e: nat, j: nat :: Refers(t, e, j, x) <==> (e, j) == (d, k)
    ensures Refs(t, x) == {(d, k)}
  {
    forall p: (nat, nat)
      ensures p in Refs(t, x) <==> p == (d, k)
    {
      InRefs(t, x, p.0, p.1);
    }
  }

  /** The parent of a directory is linked twice over: it stays linked when the directory goes. */
  lemma ParentStays(t: Tree, d: nat, k: nat, x: nat)
    requires Inv(t) && Proper(t, d, k, x) && Linked(t, x) && EmptyDir(t, x)
    ensures t[d].nlink >= 2
  {
    EmptyDirOnce(t, d, k, x);
    assert DirOk(t, d) && ParentOk(t, d) && CountOk(t, d) && DirOk(t, x);
    assert Refers(t, x, 1, d);
    InRefs(t, d, x, 1);
    if d == ROOT {
      assert Refers(t, ROOT, 1, ROOT);
      InRefs(t, d, ROOT, 1);
      TwoRefs(Refs(t, d), (x, 1), (ROOT, 1));
    } else {
      var j: nat :| Proper(t, t[d].entries[1].inum, j, d);
      InRefs(t, d, t[d].entries[1].inum, j);
      TwoRefs(Refs(t, d), (x, 1), (t[d].entries[1].inum, j));
    }
  }

  lemma TwoRefs(s: set<(nat, nat)>, p: (nat, nat), q: (nat, nat))
    requires p in s && q in s && p != q
    ensures |s| >= 2
  {
    assert {p, q} <= s;
    assert s == {p, q} + (s - {p, q});
  }

  lemma UnlinkDirRefers(t: Tree, d: nat, k: nat, x: nat)
    requires Inv(t) && Proper(t, d, k, x) && Linked(t, x) && EmptyDir(t, x)
    ensures t[x].nlink >= 1 && t[d].nlink >= 1
    ensures var t' := UnlinkDir(t, d, k, x); AddsDir(t', t, d, k, x) && !Refers(t', d, k, x) && !Refers(t', x, 1, d)
    ensures forall e: nat :: Linked(UnlinkDir(t, d, k, x), e) <==> Linked(t, e) && e != x
  {
    EmptyDirOnce(t, d, k, x);
    ParentStays(t, d, k, x);
    assert DirOk(t, x);
    var t' := UnlinkDir(t, d, k, x);
    forall e: nat, j: nat, y: nat
      ensures Refers(t, e, j, y) <==> Refers(t', e, j, y) || (e, j, y) == (d, k, x) || (e, j, y) == (x, 1, d)
    {
    }
  }

  lemma UnlinkDirSameUp(t: Tree, d: nat, k: nat, x: nat)
    requires Inv(t) && Proper(t, d, k, x) && Linked(t, x) && EmptyDir(t, x) && t[x].nlink >= 1 && t[d].nlink >= 1
    ensures SameUp(t, UnlinkDir(t, d, k, x), x)
  {
    EmptyDirOnce(t, d, k, x);
    forall y: nat | Linked(t, y) && y != x
      ensures Parent(UnlinkDir(t, d, k, x), y) == Parent(t, y) && Parent(t, y) != x && Linked(t, Parent(t, y))
    {
      LinkedParent(t, y);
    }
  }

  lemma UnlinkDirKeeps(t: Tree, d: nat, k: nat, x: nat)
    requires Inv(t) && Proper(t, d, k, x) && Linked(t, x) && EmptyDir(t, x)
    ensures t[x].nlink >= 1 && t[d].nlink >= 1 && Inv(UnlinkDir(t, d, k, x))
  {
    hide Inv, Refs, DirOk, ParentOk, SameUp, Rooted, DotsOk;
    UnlinkDirRefers(t, d, k, x);
    EmptyDirOnce(t, d, k, x);
    var t' := UnlinkDir(t, d, k, x);
    UnlinkDirSameUp(t, d, k, x);
    forall y | y in t'
      ensures InodeOk(t', y)
    {
      InvAt(t, y);
      AddDirCounts(t', t, d, k, x, y);
      SlotDirOk(t, t', d, k, Dirent("", 0), y);
      DotsKept(t, t', y);
      if y == x {
        Unlinked(t', x);
      } else {
        RootedKept(t, t', x, y);
        if Linked(t, y) { LinkedParent(t, y); }
        DirParents(t, t', d, k, x, y);
      }
    }
    InvAt(t, ROOT);
    InvFrom(t');
  }

  lemma Unlinked(t: Tree, x: nat)
    requires x in t && !Linked(t, x)
    ensures ParentOk(t, x) && Rooted(t, x)
  {
  }

  /** iput() of the last reference to an inode without links removes it. */
  lemma DropKeeps(t: Tree, x: nat)
    requires Inv(t) && x in t && t[x].nlink == 0
    ensures Inv(t - {x})
  {
    var t' := t - {x};
    assert CountOk(t, x);
    assert Refs(t, x) == {};
    forall e: nat, j: nat, y: nat
      ensures Refers(t', e, j, y) <==> Refers(t, e, j, y)
    {
    }
    forall e: nat, j: nat
      ensures !Refers(t, e, j, x)
    {
      InRefs(t, x, e, j);
    }
    DropSameUp(t, x);
    forall y | y in t'
      ensures CountOk(t', y) && DirOk(t', y) && ParentOk(t', y) && Rooted(t', y) && DotsOk(t', y)
    {
      assert CountOk(t, y) && DirOk(t, y);
      RefsSame(t, t', y);
      DotsKept(t, t', y);
      DropDir(t, x, y);
      RootedKept(t, t', x, y);
    }
  }

  lemma DropSameUp(t: Tree, x: nat)
    requires Inv(t) && x in t && t[x].nlink == 0
    ensures SameUp(t, t - {x}, x)
  {
    forall y: nat | Linked(t, y) && y != x
      ensures Parent(t - {x}, y) == Parent(t, y) && Parent(t, y) != x && Linked(t, Parent(t, y))
    {
      LinkedParent(t, y);
    }
  }

  lemma DropDir(t: Tree, x: nat, y: nat)
    requires Inv(t) && x in t && t[x].nlink == 0 && y in t && y != x
    requires forall e: nat, j: nat :: !Refers(t, e, j, x)
    ensures DirOk(t - {x}, y) && ParentOk(t - {x}, y)
  {
    var t' := t - {x};
    assert DirOk(t, y) && ParentOk(t, y);
    if Linked(t, y) {
      LinkedParent(t, y);
      forall j | 2 <= j < |t[y].entries| && t[y].entries[j].inum != 0
        ensures t[y].entries[j].inum in t'
      {
        assert !Refers(t, y, j, x);
      }
      forall e: nat, j: nat
        ensures Proper(t', e, j, y) <==> Proper(t, e, j, y)
      {
      }
      if y != ROOT {
        var j: nat :| Proper(t, t[y].entries[1].inum, j, y);
        assert Proper(t', t[y].entries[1].inum, j, y);
      }
    }
  }

  // ---------------------------------------------------------------- names in a removed directory

  /** What create() makes of slot k of d. */
  function Created(t: Tree, d: nat, k: nat, name: string, x: nat, kind: Kind): Tree
    requires d in t && k <= |t[d].entries|
  {
    if kind == Dir then NewDir(t, d, k, name, x) else NewFile(t, d, k, name, x, kind)
  }

  /** The tree as create() leaves it to dirlink(). */
  function Prepared(t: Tree, d: nat, kind: Kind, x: nat): Tree
    requires d in t
  {
    if kind == Dir then t[x := Inode(Dir, 1, [Dirent(".", x), Dirent("..", d)])][d := t[d].(nlink := t[d].nlink + 1)]
    else t[x := Inode(kind, 1, [])]
  }

  lemma PreparedCreated(t: Tree, d: nat, k: nat, name: string, kind: Kind, x: nat)
    requires d in t && x != d && x != 0 && Vacant(Prepared(t, d, kind, x), d, k, name)
    ensures Vacant(t, d, k, name)
    ensures var p := Prepared(t, d, kind, x);
      Created(t, d, k, name, x, kind) == p[d := p[d].(entries := Put(p[d].entries, k, Dirent(name, x)))]
  {
  }

  /** Nobody names a removed inode. */
  lemma RemovedUnnamed(t: Tree, d: nat, e: nat, j: nat)
    requires Inv(t) && d in t && t[d].nlink == 0
    ensures !Refers(t, e, j, d)
  {
    assert CountOk(t, d);
    InRefs(t, d, e, j);
  }

  /**
   create() and link() do not look at the directory's own link count: they keep the counts and the tree
   right if and only if the directory is still linked.
   */
  lemma CreateExactly(t: Tree, d: nat, k: nat, name: string, x: nat, kind: Kind)
    requires Inv(t) && Vacant(t, d, k, name) && x !in t && x != 0
    ensures Inv(Created(t, d, k, name, x, kind)) <==> Linked(t, d)
  {
    hide Inv;
    if Linked(t, d) {
      if kind == Dir { NewDirKeeps(t, d, k, name, x); } else { NewFileKeeps(t, d, k, name, x, kind); }
    } else if kind == Dir {
      OrphanDir(t, d, k, name, x);
    } else {
      Orphan(t, d, k, name, x, kind);
      UncountedBreaks(NewFile(t, d, k, name, x, kind), x);
    }
  }

  lemma LinkExactly(t: Tree, d: nat, k: nat, name: string, x: nat)
    requires Inv(t) && Vacant(t, d, k, name) && x in t && t[x].kind != Dir
    ensures Inv(LinkFile(t, d, k, name, x)) <==> Linked(t, d)
  {
    if Linked(t, d) {
      LinkKeeps(t, d, k, name, x);
    } else {
      var t' := LinkFile(t, d, k, name, x);
      assert forall e: nat, j: nat :: Refers(t', e, j, x) <==> Refers(t, e, j, x);
      RefsSame(t, t', x);
      assert CountOk(t, x);
      UncountedBreaks(t', x);
    }
  }

  lemma UncountedBreaks(t: Tree, x: nat)
    requires x in t && !CountOk(t, x)
    ensures !Inv(t)
  {
  }

  /**
   A file made in a removed directory counts one link that no linked directory has.  When the last user of
   the directory lets go, iput() frees the directory, and the file stays, with its link and without a name.
   */
  lemma Orphan(t: Tree, d: nat, k: nat, name: string, x: nat, kind: Kind)
    requires Inv(t) && Vacant(t, d, k, name) && t[d].nlink == 0 && x !in t && x != 0 && kind != Dir
    ensures var t' := NewFile(t, d, k, name, x, kind);
      && !CountOk(t', x) && t'[d].nlink == 0
      && x in t' - {d} && (t' - {d})[x].nlink == 1 && Refs(t' - {d}, x) == {}
  {
    var t' := NewFile(t, d, k, name, x, kind);
    Unnamed(t, x);
    forall e: nat, j: nat
      ensures !Refers(t', e, j, x) && !Refers(t' - {d}, e, j, x)
    {
      assert !Refers(t, e, j, x);
    }
    NoRefs(t', x);
    NoRefs(t' - {d}, x);
  }

  lemma NoRefs(t: Tree, x: nat)
    requires forall e: nat, j: nat :: !Refers(t, e, j, x)
    ensures Refs(t, x) == {}
  {
    forall p: (nat, nat)
      ensures p !in Refs(t, x)
    {
      InRefs(t, x, p.0, p.1);
    }
  }

  /**
   A directory made in a removed directory gives that one a link again, through its "..": neither is ever
   freed, and no directory names the upper one.
   */
  lemma OrphanDir(t: Tree, d: nat, k: nat, name: string, x: nat)
    requires Inv(t) && Vacant(t, d, k, name) && t[d].nlink == 0 && x !in t && x != 0
    ensures var t' := NewDir(t, d, k, name, x);
      && t'[d].nlink == 1 && t'[x].nlink == 1 && (forall e: nat, j: nat :: !Proper(t', e, j, d)) && !Inv(t')
  {
    var t' := NewDir(t, d, k, name, x);
    assert DotsOk(t, d) && d != ROOT;
    forall e: nat, j: nat
      ensures !Proper(t', e, j, d)
    {
      RemovedUnnamed(t, d, e, j);
    }
    assert Linked(t', d) && !ParentOk(t', d);
  }

  /** There are such directories: one made, then removed while in use. */
  lemma RemovedReachable() returns (t: Tree, d: nat)
    ensures Inv(t) && d in t && t[d].nlink == 0 && Vacant(t, d, 2, "f")
  {
    var t0: Tree := map[ROOT := Inode(Dir, 1, [Dirent(".", ROOT), Dirent("..", ROOT)])];
    InitOk();
    d := 2;
    var t1 := NewDir(t0, ROOT, 2, "d", d);
    NewDirKeeps(t0, ROOT, 2, "d", d);
    UnlinkDirKeeps(t1, ROOT, 2, d);
    t := UnlinkDir(t1, ROOT, 2, d);
  }

  // ---------------------------------------------------------------- fs.c and sysfile.c

  predicate Existing(t: Tree, x: nat) { x in t && t[x].nlink > 0 && x != 0 }

  /** Enough for a walk: linked directories are in order and lead to inodes with links. */
  ghost predicate Walkable(t: Tree) {
    && (forall d {:trigger DirOk(t, d)} :: d in t ==> DirOk(t, d))
    && (forall d: nat, k: nat, x: nat :: Refers(t, d, k, x) ==> Existing(t, x))
  }

  lemma InvWalkable(t: Tree)
    requires Inv(t)
    ensures Walkable(t) && 0 !in t
  {
    forall d: nat, k: nat, x: nat | Refers(t, d, k, x)
      ensures Existing(t, x)
    {
      NamedIsLinked(t, d, k, x);
    }
  }

  /** Raising a file's nlink, as link does first, disturbs no walk. */
  lemma BumpWalkable(t: Tree, x: nat)
    requires Inv(t) && x in t && t[x].kind != Dir
    ensures Walkable(t[x := t[x].(nlink := t[x].nlink + 1)])
  {
    var t' := t[x := t[x].(nlink := t[x].nlink + 1)];
    forall d | d in t'
      ensures DirOk(t', d)
    {
      assert DirOk(t, d);
    }
    forall d: nat, k: nat, y: nat | Refers(t', d, k, y)
      ensures Existing(t', y)
    {
      assert Refers(t, d, k, y);
      NamedIsLinked(t, d, k, y);
    }
  }

  // ---------------------------------------------------------------- what a path names

  /** The directory d has a live entry for name, and it names x. */
  ghost predicate Holds(t: Tree, d: nat, name: string, x: nat) {
    d in t && t[d].kind == Dir && x != 0 && exists k :: 0 <= k < |t[d].entries| && t[d].entries[k] == Dirent(name, x)
  }

  function Last(path: seq<string>): string
    requires path != []
  {
    path[|path| - 1]
  }

  /** c is where a walk along the path passes: each inode is held by the one before under the next name. */
  ghost predicate Chain(t: Tree, path: seq<string>, c: seq<nat>) {
    |c| == |path| + 1 && forall i :: 0 <= i < |path| ==> Holds(t, c[i], path[i], c[i + 1])
  }

  /** From start the path names x. */
  ghost predicate Leads(t: Tree, start: nat, path: seq<string>, x: nat) {
    exists c :: Chain(t, path, c) && c[0] == start && c[|path|] == x
  }

  /** The path has a last name, and what comes before it names the directory d. */
  ghost predicate LeadsToParent(t: Tree, start: nat, path: seq<string>, d: nat) {
    path != [] && d in t && t[d].kind == Dir && Leads(t, start, path[..|path| - 1], d)
  }

  ghost predicate InUse(t: Tree, d: nat, name: string) { exists x: nat :: Holds(t, d, name, x) }

  lemma LeadsNowhere(t: Tree, start: nat)
    ensures Leads(t, start, [], start) && forall y: nat :: Leads(t, start, [], y) ==> y == start
  {
    assert Chain(t, [], [start]);
  }

  /** One name further. */
  lemma LeadsOn(t: Tree, start: nat, path: seq<string>, i: nat, x: nat, y: nat)
    requires i < |path| && Leads(t, start, path[..i], x) && Holds(t, x, path[i], y)
    ensures Leads(t, start, path[..i + 1], y)
  {
    var c :| Chain(t, path[..i], c) && c[0] == start && c[i] == x;
    var c' := c + [y];
    assert Chain(t, path[..i + 1], c') by {
      forall j | 0 <= j < i + 1
        ensures Holds(t, c'[j], path[..i + 1][j], c'[j + 1])
      {
        if j < i { assert path[..i][j] == path[..i + 1][j]; }
      }
    }
    assert c'[0] == start && c'[|path[..i + 1]|] == y;
  }

  /** A walk along the whole path passes position i and finds the next name there. */
  lemma LeadsThrough(t: Tree, start: nat, path: seq<string>, m: nat, i: nat, y: nat) returns (x: nat, z: nat)
    requires i < m <= |path| && Leads(t, start, path[..m], y)
    ensures Leads(t, start, path[..i], x) && Holds(t, x, path[i], z) && (i + 1 == m ==> z == y)
  {
    var c :| Chain(t, path[..m], c) && c[0] == start && c[m] == y;
    x, z := c[i], c[i + 1];
    assert path[..m][i] == path[i];
    assert Chain(t, path[..i], c[..i + 1]) by {
      forall j | 0 <= j < i
        ensures Holds(t, c[..i + 1][j], path[..i][j], c[..i + 1][j + 1])
      {
        assert path[..m][j] == path[..i][j];
      }
    }
    assert c[..i + 1][0] == start && c[..i + 1][|path[..i]|] == x;
  }

  /** Only x can be reached by the first i names. */
  ghost predicate OnlyLeads(t: Tree, start: nat, path: seq<string>, i: nat, x: nat)
    requires i <= |path|
  {
    Leads(t, start, path[..i], x) && forall y: nat :: Leads(t, start, path[..i], y) ==> y == x
  }

  /** Names in a linked directory are unique, so a step of the walk is too. */
  lemma OneStep(t: Tree, start: nat, path: seq<string>, i: nat, x: nat, k: nat)
    requires Walkable(t) && i < |path| && OnlyLeads(t, start, path, i, x) && Linked(t, x)
    requires k < |t[x].entries| && t[x].entries[k].inum != 0 && t[x].entries[k].name == path[i]
    ensures OnlyLeads(t, start, path, i + 1, t[x].entries[k].inum)
  {
    var z := t[x].entries[k].inum;
    assert DirOk(t, x);
    assert t[x].entries[k] == Dirent(path[i], z) && Holds(t, x, path[i], z);
    LeadsOn(t, start, path, i, x, z);
    var on := path[..i + 1];
    forall y: nat | Leads(t, start, on, y)
      ensures y == z
    {
      var x', z' := LeadsThrough(t, start, path, i + 1, i, y);
    }
  }

  lemma EntryExists(t: Tree, d: nat, k: nat)
    requires Walkable(t) && Linked(t, d) && k < |t[d].entries| && t[d].entries[k].inum != 0
    ensures Existing(t, t[d].entries[k].inum)
  {
    assert t[d].entries[k].inum != d ==> Refers(t, d, k, t[d].entries[k].inum);
  }

  /** Where the walk stops early, the path names nothing. */
  lemma DeadEnd(t: Tree, start: nat, path: seq<string>, i: nat, x: nat, m: nat)
    requires i < m <= |path| && OnlyLeads(t, start, path, i, x) && !InUse(t, x, path[i])
    ensures forall y: nat :: !Leads(t, start, path[..m], y)
  {
    forall y: nat
      ensures !Leads(t, start, path[..m], y)
    {
      if Leads(t, start, path[..m], y) {
        var x', z' := LeadsThrough(t, start, path, m, i, y);
        assert InUse(t, x, path[i]);
      }
    }
  }

  lemma WalkableDir(t: Tree, d: nat)
    requires Walkable(t) && d in t
    ensures DirOk(t, d)
  {
  }

  lemma UseOfName(t: Tree, d: nat, name: string)
    requires d in t && t[d].kind == Dir
    ensures InUse(t, d, name) <==>
      exists j :: 0 <= j < |t[d].entries| && t[d].entries[j].inum != 0 && t[d].entries[j].name == name
  {
    if j :| 0 <= j < |t[d].entries| && t[d].entries[j].inum != 0 && t[d].entries[j].name == name {
      assert t[d].entries[j] == Dirent(name, t[d].entries[j].inum) && Holds(t, d, name, t[d].entries[j].inum);
    }
  }

  lemma OneEntry(t: Tree, d: nat, k: nat)
    requires Linked(t, d) && DirOk(t, d) && k < |t[d].entries| && t[d].entries[k].inum != 0
    ensures forall x: nat :: Holds(t, d, t[d].entries[k].name, x) <==> x == t[d].entries[k].inum
  {
    assert t[d].entries[k] == Dirent(t[d].entries[k].name, t[d].entries[k].inum);
  }

  /** A path depends on kinds and entries only. */
  lemma LeadsSame(t: Tree, t': Tree, start: nat, path: seq<string>, x: nat)
    requires forall d: nat :: d in t <==> d in t'
    requires forall d: nat :: d in t ==> t'[d].kind == t[d].kind && t'[d].entries == t[d].entries
    ensures Leads(t', start, path, x) <==> Leads(t, start, path, x)
  {
    assert forall d: nat, name, y: nat :: Holds(t', d, name, y) <==> Holds(t, d, name, y);
    if Leads(t, start, path, x) {
      var c :| Chain(t, path, c) && c[0] == start && c[|path|] == x;
      assert Chain(t', path, c);
    }
    if Leads(t', start, path, x) {
      var c :| Chain(t', path, c) && c[0] == start && c[|path|] == x;
      assert Chain(t, path, c);
    }
  }

  lemma BumpLeads(t: Tree, x: nat, to: nat, path: seq<string>)
    requires x in t
    ensures forall d: nat ::
      LeadsToParent(t[x := t[x].(nlink := t[x].nlink + 1)], to, path, d) <==> LeadsToParent(t, to, path, d)
  {
    forall d: nat
      ensures LeadsToParent(t[x := t[x].(nlink := t[x].nlink + 1)], to, path, d) <==> LeadsToParent(t, to, path, d)
    {
      if path != [] { LeadsSame(t, t[x := t[x].(nlink := t[x].nlink + 1)], to, path[..|path| - 1], d); }
    }
  }

  // ---------------------------------------------------------------- when the system calls succeed

  /** The old path names something that is not a directory, and the new one a free name in a directory. */
  ghost predicate CanLink(t: Tree, from: nat, oldPath: seq<string>, to: nat, newPath: seq<string>) {
    && newPath != []
    && (exists x: nat :: Leads(t, from, oldPath, x) && x in t && t[x].kind != Dir)
    && (exists d: nat :: LeadsToParent(t, to, newPath, d) && !InUse(t, d, Last(newPath)))
  }

  /** The path names, under a name other than "." and "..", a file or an empty directory. */
  ghost predicate CanUnlink(t: Tree, from: nat, path: seq<string>) {
    && path != [] && Last(path) != "." && Last(path) != ".."
    && exists d: nat, x: nat :: LeadsToParent(t, from, path, d) && Removable(t, d, Last(path), x)
  }

  ghost predicate Removable(t: Tree, d: nat, name: string, x: nat) {
    Holds(t, d, name, x) && x in t && (t[x].kind == Dir ==> EmptyDir(t, x))
  }

  /** The path is a free name in a directory; and the path is the name of the file y. */
  ghost predicate CanCreate(t: Tree, from: nat, path: seq<string>) {
    path != [] && exists d: nat :: LeadsToParent(t, from, path, d) && !InUse(t, d, Last(path))
  }

  ghost predicate NamesFile(t: Tree, from: nat, path: seq<string>, y: nat) {
    && path != [] && y in t && t[y].kind == File
    && exists d: nat :: LeadsToParent(t, from, path, d) && Holds(t, d, Last(path), y)
  }

  /** Slot k of d is a new name for the file x, counted. */
  predicate Links(t: Tree, t': Tree, d: nat, k: nat, name: string, x: nat) {
    x in t && t[x].kind != Dir && Vacant(t, d, k, name) && t' == LinkFile(t, d, k, name, x)
  }

  /** The entry for name in slot k of d is gone, and with it one link of x, and of d if x is a directory. */
  predicate Unlinks(t: Tree, t': Tree, d: nat, k: nat, name: string, x: nat) {
    && Proper(t, d, k, x) && x in t && t[x].nlink >= 1 && t[d].entries[k].name == name
    && if t[x].kind == Dir then EmptyDir(t, x) && t' == UnlinkDir(t, d, k, x) else t' == UnlinkFile(t, d, k, x)
  }

  /** Slot k of d names the new inode x. */
  predicate Creates(t: Tree, t': Tree, d: nat, k: nat, name: string, x: nat, kind: Kind) {
    Vacant(t, d, k, name) && t' == Created(t, d, k, name, x, kind)
  }

  /**
   Where a call may start: in a linked directory, or in a removed working directory with a single name that
   is not one of its two entries.
   */
  predicate CanStart(t: Tree, from: nat, path: seq<string>) {
    || Linked(t, from)
    || (from in t && t[from].kind == Dir && |path| == 1 && path[0] != "." && path[0] != "..")
  }

  lemma DotsAt(t: Tree, d: nat)
    requires Inv(t) && d in t
    ensures DotsOk(t, d)
  {
  }

  lemma RemovedHolds(t: Tree, d: nat, name: string)
    requires d in t && t[d].kind == Dir && !Linked(t, d) && DotsOk(t, d) && name != "." && name != ".."
    ensures !InUse(t, d, name)
  {
  }

  class FileTree {
    var t: Tree

    constructor ()
      ensures Inv(t) && t == map[ROOT := Inode(Dir, 1, [Dirent(".", ROOT), Dirent("..", ROOT)])]
    {
      t := map[ROOT := Inode(Dir, 1, [Dirent(".", ROOT), Dirent("..", ROOT)])];
      new;
      InitOk();
    }

    /** dirlookup(): the slot of the entry with the name, or the number of slots. */
    method DirLookup(d: nat, name: string) returns (k: nat)
      requires d in t
      ensures k <= |t[d].entries|
      ensures k < |t[d].entries| ==> t[d].entries[k].inum != 0 && t[d].entries[k].name == name
      ensures k == |t[d].entries| ==>
        forall j :: 0 <= j < |t[d].entries| && t[d].entries[j].inum != 0 ==> t[d].entries[j].name != name
    {
      k := 0;
      while k < |t[d].entries|
        invariant k <= |t[d].entries|
        invariant forall j :: 0 <= j < k && t[d].entries[j].inum != 0 ==> t[d].entries[j].name != name
      {
        if t[d].entries[k].inum != 0 && t[d].entries[k].name == name {
          return;
        }
        k := k + 1;
      }
    }

    /** dirlink() into a directory, removed or not: refused exactly when the name is in use. */
    method DirLink(d: nat, name: string, x: nat) returns (ok: bool, k: nat)
      requires d in t && t[d].kind == Dir && HasDots(t, d) && d != 0
      modifies this
      ensures ok <==>
        forall j :: 0 <= j < |old(t)[d].entries| && old(t)[d].entries[j].inum != 0 ==>
          old(t)[d].entries[j].name != name
      ensures !ok ==> t == old(t)
      ensures ok ==>
        && Vacant(old(t), d, k, name)
        && t == old(t)[d := old(t)[d].(entries := Put(old(t)[d].entries, k, Dirent(name, x)))]
    {
      k := DirLookup(d, name);
      if k < |t[d].entries| {
        return false, k;
      }
      k := 0;
      while k < |t[d].entries| && t[d].entries[k].inum != 0
        invariant k <= |t[d].entries| && forall j :: 0 <= j < k ==> t[d].entries[j].inum != 0
      {
        k := k + 1;
      }
      t := t[d := t[d].(entries := Put(t[d].entries, k, Dirent(name, x)))];
      return true, k;
    }

    method IsDirEmpty(x: nat) returns (empty: bool)
      requires x in t
      ensures empty <==> EmptyDir(t, x)
    {
      var k := 2;
      while k < |t[x].entries|
        invariant 2 <= k && forall j :: 2 <= j < k && j < |t[x].entries| ==> t[x].entries[j].inum == 0
      {
        if t[x].entries[k].inum != 0 {
          return false;
        }
        k := k + 1;
      }
      return true;
    }

    /**
     namex(): the inode the path names, if and only if it names one; as nameiparent() the directory before the
     last name.
     */
    method Namex(start: nat, path: seq<string>, parent: bool) returns (r: Option<nat>)
      requires Walkable(t) && start != 0 && (Linked(t, start) || (parent && CanStart(t, start, path)))
      ensures !parent ==> forall x: nat :: r == Some(x) <==> Leads(t, start, path, x)
      ensures parent ==> forall d: nat :: r == Some(d) <==> LeadsToParent(t, start, path, d)
      ensures r.Some? ==> Existing(t, r.value) || (r.value == start && !Linked(t, start))
    {
      hide Leads, Walkable;
      var x, i := start, 0;
      ghost var stop := if parent then |path| - 1 else |path|;
      assert path[..|path|] == path;
      assert path[..0] == [];
      LeadsNowhere(t, start);
      while i < |path|
        invariant
          && 0 <= i <= |path| && (parent && path != [] ==> i <= stop) && OnlyLeads(t, start, path, i, x)
          && (Existing(t, x) || (x == start && i == 0 && !Linked(t, start)))
      {
        if t[x].kind != Dir {
          if i < stop { DeadEnd(t, start, path, i, x, stop); }
          return None;
        }
        if parent && i + 1 == |path| {
          return Some(x);
        }
        var k := DirLookup(x, path[i]);
        if k == |t[x].entries| {
          DeadEnd(t, start, path, i, x, stop);
          return None;
        }
        OneStep(t, start, path, i, x, k);
        EntryExists(t, x, k);
        x := t[x].entries[k].inum;
        i := i + 1;
      }
      if parent {
        return None;
      }
      return Some(x);
    }

    /** link: one more name for a file; a failed call leaves the link count as it was. */
    method Link(from: nat, oldPath: seq<string>, to: nat, newPath: seq<string>)
        returns (ok: bool, ghost d: nat, ghost k: nat, ghost x: nat)
      requires Inv(t) && Linked(t, from) && CanStart(t, to, newPath)
      modifies this
      ensures Inv(t) <==> !ok || Linked(old(t), d)
      ensures !ok ==> t == old(t)
      ensures ok <==> CanLink(old(t), from, oldPath, to, newPath)
      ensures ok ==> newPath != [] && Links(old(t), t, d, k, Last(newPath), x)
      ensures ok ==> Leads(old(t), from, oldPath, x) && LeadsToParent(old(t), to, newPath, d)
      ensures ok && Linked(old(t), to) ==> Linked(old(t), d)
    {
      hide Leads, Walkable, Inv;
      ghost var t0 := t;
      InvWalkable(t);
      var f := Namex(from, oldPath, false);
      if f.None? || t[f.value].kind == Dir {
        return false, 0, 0, 0;
      }
      var ip := f.value;
      x := ip;
      BumpWalkable(t, x);
      BumpLeads(t, x, to, newPath);
      t := t[ip := t[ip].(nlink := t[ip].nlink + 1)];
      var p := Namex(to, newPath, true);
      if p.Some? {
        var dp, name, slot := p.value, Last(newPath), 0;
        DotsAt(t0, dp);
        UseOfName(t0, dp, name);
        ok, slot := DirLink(dp, name, ip);
        d, k := dp, slot;
        if ok {
          assert Vacant(t0, d, k, name) && t == LinkFile(t0, d, k, name, x);
          LinkExactly(t0, d, k, name, x);
          assert Links(t0, t, d, k, name, x);
          assert Leads(t0, from, oldPath, x) && LeadsToParent(t0, to, newPath, d) && !InUse(t0, d, name);
          return;
        }
      }
      t := t[ip := t[ip].(nlink := t[ip].nlink - 1)];
      assert t == t0;
      return false, 0, 0, 0;
    }

    /** unlink's last part: the entry is erased, and the link counts follow. */
    method RemoveEntry(dp: nat, slot: nat, ip: nat)
      requires Inv(t) && Proper(t, dp, slot, ip) && ip in t && (t[ip].kind == Dir ==> EmptyDir(t, ip))
      modifies this
      ensures Inv(t) && Unlinks(old(t), t, dp, slot, old(t)[dp].entries[slot].name, ip)
    {
      hide Inv;
      ghost var t0 := t;
      NamedIsLinked(t, dp, slot, ip);
      t := t[dp := t[dp].(entries := t[dp].entries[slot := Dirent("", 0)])];
      if t[ip].kind == Dir {
        UnlinkDirKeeps(t0, dp, slot, ip);
        EmptyDirOnce(t0, dp, slot, ip);
        t := t[dp := t[dp].(nlink := t[dp].nlink - 1)];
        t := t[ip := t[ip].(nlink := t[ip].nlink - 1)];
        assert t == UnlinkDir(t0, dp, slot, ip);
      } else {
        UnlinkFileKeeps(t0, dp, slot, ip);
        t := t[ip := t[ip].(nlink := t[ip].nlink - 1)];
        assert t == UnlinkFile(t0, dp, slot, ip);
      }
    }

    /** unlink: the name goes, and with an empty directory also its claim on its parent. */
    method Unlink(from: nat, path: seq<string>) returns (ok: bool, ghost d: nat, ghost k: nat, ghost x: nat)
      requires Inv(t) && CanStart(t, from, path)
      modifies this
      ensures Inv(t)
      ensures !ok ==> t == old(t)
      ensures ok <==> CanUnlink(old(t), from, path)
      ensures ok ==> path != [] && Unlinks(old(t), t, d, k, Last(path), x) && LeadsToParent(old(t), from, path, d)
    {
      hide Leads, Walkable, Inv;
      ghost var t0 := t;
      InvWalkable(t);
      var p := Namex(from, path, true);
      if p.None? {
        return false, 0, 0, 0;
      }
      var dp, name := p.value, Last(path);
      if name == "." || name == ".." {
        return false, 0, 0, 0;
      }
      var slot := DirLookup(dp, name);
      WalkableDir(t, dp);
      UseOfName(t, dp, name);
      DotsAt(t, dp);
      if !Linked(t, dp) { RemovedHolds(t, dp, name); }
      if slot == |t[dp].entries| {
        return false, 0, 0, 0;
      }
      var ip := t[dp].entries[slot].inum;
      d, k, x := dp, slot, ip;
      assert Proper(t, d, k, x);
      OneEntry(t, d, k);
      NamedIsLinked(t, d, k, x);
      if t[ip].kind == Dir {
        var empty := IsDirEmpty(ip);
        if !empty {
          return false, 0, 0, 0;
        }
      }
      RemoveEntry(dp, slot, ip);
      assert Unlinks(t0, t, d, k, name, x);
      assert Removable(t0, d, name, x);
      return true, d, k, x;
    }

    /** create()'s last part, in a directory where the name is free: it does not ask whether that is still linked. */
    method MakeEntry(dp: nat, name: string, kind: Kind, x: nat) returns (slot: nat)
      requires Inv(t) && dp in t && t[dp].kind == Dir && !InUse(t, dp, name) && x !in t && x != 0
      modifies this
      ensures Creates(old(t), t, dp, slot, name, x, kind)
      ensures Inv(t) <==> Linked(old(t), dp)
    {
      hide Inv, Put, InUse, EmptyDir, Created, Vacant;
      ghost var t0 := t;
      UseOfName(t, dp, name);
      DotsAt(t, dp);
      InvAt(t, dp);
      t := t[x := Inode(kind, 1, [])];
      if kind == Dir {
        t := t[dp := t[dp].(nlink := t[dp].nlink + 1)];
        t := t[x := Inode(Dir, 1, [Dirent(".", x), Dirent("..", dp)])];
      }
      assert t == Prepared(t0, dp, kind, x);
      var ok;
      ok, slot := DirLink(dp, name, x);
      PreparedCreated(t0, dp, slot, name, kind, x);
      CreateExactly(t0, dp, slot, name, x, kind);
    }

    /** create(): x is the inode ialloc() found; an existing name yields only a file asked for as a file. */
    method Create(from: nat, path: seq<string>, kind: Kind, x: nat) returns (r: Option<nat>, ghost d: nat, ghost k: nat)
      requires Inv(t) && CanStart(t, from, path) && x !in t && x != 0
      modifies this
      ensures Inv(t) <==> r != Some(x) || Linked(old(t), d)
      ensures r == Some(x) && Linked(old(t), from) ==> Linked(old(t), d)
      ensures r.None? || r.value != x ==> t == old(t)
      ensures
        r.Some? && r.value != x ==> kind == File && r.value in t && t[r.value].kind == File && t[r.value].nlink > 0
      ensures r == Some(x) <==> CanCreate(old(t), from, path)
      ensures forall y: nat :: y != x ==> (r == Some(y) <==> kind == File && NamesFile(old(t), from, path, y))
      ensures r == Some(x) ==>
        path != [] && Creates(old(t), t, d, k, Last(path), x, kind) && LeadsToParent(old(t), from, path, d)
    {
      hide Leads, Walkable, Inv;
      ghost var t0 := t;
      InvWalkable(t);
      var p := Namex(from, path, true);
      if p.None? {
        return None, 0, 0;
      }
      var dp, name := p.value, Last(path);
      WalkableDir(t, dp);
      UseOfName(t, dp, name);
      DotsAt(t, dp);
      if !Linked(t, dp) { RemovedHolds(t, dp, name); }
      var slot := DirLookup(dp, name);
      if slot < |t[dp].entries| {
        var y := t[dp].entries[slot].inum;
        OneEntry(t, dp, slot);
        EntryExists(t, dp, slot);
        if kind == File && t[y].kind == File {
          return Some(y), 0, 0;
        }
        return None, 0, 0;
      }
      slot := MakeEntry(dp, name, kind, x);
      d, k := dp, slot;
      return Some(x), d, k;
    }

    /** iput() of the last reference: an inode without links disappears. */
    method Iput(x: nat)
      requires Inv(t) && x in t
      modifies this
      ensures Inv(t) && t == if old(t)[x].nlink == 0 then old(t) - {x} else old(t)
    {
      if t[x].nlink == 0 {
        DropKeeps(t, x);
        t := t - {x};
      }
    }
  }
}
