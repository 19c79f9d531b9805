/** The directory tree on disk (kernel/fs.c, kernel/sysfile.c): inodes with their link
    counts and directory entries, and what create, link and unlink make of them. */
module DirTree {
  import opened Common

  datatype Kind = Free | Dir | File | Dev

  /** A name of at most DIRSIZ characters, "." and ".." apart. */
  datatype Name = Dot | DotDot | Plain(text: string)

  datatype Dirent = Dirent(inum: nat, name: Name)

  datatype Inode = Inode(kind: Kind, nlink: nat, entries: seq<Dirent>)

  const ROOTINO: nat := 1
  const EMPTY: Dirent := Dirent(0, Plain(""))

  /** A directory that some path from the root still reaches. */
  predicate Linked(ip: Inode) {
    ip.kind == Dir && ip.nlink > 0
  }

  // ---- Counting entries

  /** Whether an entry counts towards the links of inode i. */
  predicate Names(e: Dirent, i: nat) {
    e.inum == i && i != 0 && e.name != Dot
  }

  function CountIn(entries: seq<Dirent>, i: nat): (n: nat) {
    if entries == [] then 0
    else CountIn(entries[..|entries| - 1], i) + One(Names(entries[|entries| - 1], i))
  }

  function Share(ip: Inode, i: nat): (n: nat) {
    if Linked(ip) then CountIn(ip.entries, i) else 0
  }

  /** The in-use entries naming inode i, other than ".", in linked directories. */
  function Count(s: seq<Inode>, i: nat): (n: nat) {
    if s == [] then 0
    else Count(s[..|s| - 1], i) + Share(s[|s| - 1], i)
  }

  lemma {:induction false} CountInPut(entries: seq<Dirent>, k: nat, e: Dirent, i: nat)
    requires k < |entries|
    ensures CountIn(entries[k := e], i) + One(Names(entries[k], i)) == CountIn(entries, i) + One(Names(e, i))
  {
    var n := |entries| - 1;
    if k < n {
      CountInPut(entries[..n], k, e, i);
      assert entries[k := e][..n] == entries[..n][k := e];
    } else {
      assert entries[k := e][..n] == entries[..n];
    }
  }

  lemma {:induction false} CountPut(s: seq<Inode>, d: nat, ip: Inode, i: nat)
    requires d < |s|
    ensures Count(s[d := ip], i) + Share(s[d], i) == Count(s, i) + Share(ip, i)
  {
    var n := |s| - 1;
    if d < n {
      CountPut(s[..n], d, ip, i);
      assert s[d := ip][..n] == s[..n][d := ip];
    } else {
      assert s[d := ip][..n] == s[..n];
    }
  }

  lemma {:induction false} CountInZero(entries: seq<Dirent>, i: nat)
    requires forall k :: 0 <= k < |entries| ==> !Names(entries[k], i)
    ensures CountIn(entries, i) == 0
  {
    if entries != [] {
      CountInZero(entries[..|entries| - 1], i);
    }
  }

  lemma {:induction false} CountZero(s: seq<Inode>, i: nat)
    requires forall d, k :: 0 <= d < |s| && Linked(s[d]) && 0 <= k < |s[d].entries| ==> !Names(s[d].entries[k], i)
    ensures Count(s, i) == 0
  {
    if s != [] {
      var n := |s| - 1;
      forall d, k | 0 <= d < n && Linked(s[..n][d]) && 0 <= k < |s[..n][d].entries|
        ensures !Names(s[..n][d].entries[k], i) {
        assert s[..n][d] == s[d];
      }
      CountZero(s[..n], i);
      if Linked(s[n]) {
        CountInZero(s[n].entries, i);
      }
    }
  }

  lemma {:induction false} CountPositive(s: seq<Inode>, i: nat, d: nat, k: nat)
    requires d < |s| && Linked(s[d]) && k < |s[d].entries| && Names(s[d].entries[k], i)
    ensures Count(s, i) >= 1
  {
    CountPut(s, d, s[d].(entries := s[d].entries[k := EMPTY]), i);
    CountInPut(s[d].entries, k, EMPTY, i);
  }

  // ---- The invariant

  /** A directory starts with "." and ".."; its entries have distinct names. */
  ghost predicate DirOk(es: seq<Dirent>, d: nat) {
    && |es| >= 2 && es[0] == Dirent(d, Dot) && es[1].name == DotDot && es[1].inum != 0
    && (forall k, l :: 0 <= k < l < |es| && es[k].inum != 0 && es[l].inum != 0 ==> es[k].name != es[l].name)
  }

  /** Entry k of directory d, after "." and "..", is in use. */
  predicate InUse(s: seq<Inode>, d: nat, k: nat) {
    d < |s| && s[d].kind == Dir && 2 <= k < |s[d].entries| && s[d].entries[k].inum != 0
  }

  ghost predicate ChildOk(s: seq<Inode>, depth: seq<nat>, d: nat, c: nat) {
    c < |s| && d < |s| == |depth| && Linked(s[c]) && |s[c].entries| >= 2 && s[c].entries[1].inum == d &&
      depth[c] == depth[d] + 1
  }

  ghost predicate OnlyEntry(es: seq<Dirent>, c: nat, k: nat) {
    forall l :: 2 <= l < |es| && es[l].inum == c ==> l == k
  }

  /** An entry in use is in a linked directory and names an allocated inode; if that is
      a directory, it is the only entry naming it, and its ".." leads back. */
  ghost predicate EntryOk(s: seq<Inode>, depth: seq<nat>, d: nat, k: nat)
    requires InUse(s, d, k)
  {
    var c := s[d].entries[k].inum;
    && Linked(s[d]) && c < |s| == |depth| && s[c].kind != Free
    && (s[c].kind == Dir ==> ChildOk(s, depth, d, c) && OnlyEntry(s[d].entries, c, k))
  }

  ghost predicate Lists(es: seq<Dirent>, c: nat) {
    exists k :: 2 <= k < |es| && es[k].inum == c
  }

  /** The ".." of a linked directory other than the root names a linked directory that lists it. */
  ghost predicate ParentOk(s: seq<Inode>, c: nat) {
    && c < |s| && |s[c].entries| >= 2
    && var p := s[c].entries[1].inum;
    p < |s| && Linked(s[p]) && Lists(s[p].entries, c)
  }

  ghost predicate RootOk(s: seq<Inode>, depth: seq<nat>) {
    && ROOTINO < |s| == |depth| && Linked(s[ROOTINO]) && depth[ROOTINO] == 0
    && |s[ROOTINO].entries| >= 2 && s[ROOTINO].entries[1] == Dirent(ROOTINO, DotDot)
  }

  /** The directories form a tree. */
  ghost predicate Tree(s: seq<Inode>, depth: seq<nat>) {
    && RootOk(s, depth)
    && (forall d :: 0 <= d < |s| && s[d].kind == Dir ==> d != 0 && DirOk(s[d].entries, d))
    && (forall d, k :: InUse(s, d, k) ==> EntryOk(s, depth, d, k))
    && (forall c :: 0 <= c < |s| && Linked(s[c]) && c != ROOTINO ==> ParentOk(s, c))
  }

  /** Every link count is the number of entries, plus the links sys_link has yet to enter. */
  ghost predicate Counted(s: seq<Inode>, pending: seq<nat>) {
    && |pending| == |s|
    && (forall i :: 0 < i < |s| ==> s[i].nlink == Count(s, i) + pending[i])
    && (forall i :: 0 < i < |s| && pending[i] > 0 ==> s[i].kind == File || s[i].kind == Dev)
    && (forall i :: 0 < i < |s| && s[i].kind == Free ==> s[i].nlink == 0)
  }

  ghost predicate Inv(s: seq<Inode>, depth: seq<nat>, pending: seq<nat>) {
    Tree(s, depth) && Counted(s, pending)
  }

  // ---- Allocating, linking

  function Put(es: seq<Dirent>, k: nat, e: Dirent): (r: seq<Dirent>)
    requires k <= |es|
  {
    if k < |es| then es[k := e] else es + [e]
  }

  /** A place for a new entry: an unused one or the end. */
  predicate Room(es: seq<Dirent>, k: nat) {
    k <= |es| && (k < |es| ==> es[k].inum == 0)
  }

  predicate Absent(es: seq<Dirent>, name: Name) {
    forall k :: 0 <= k < |es| && es[k].inum != 0 ==> es[k].name != name
  }

  lemma CountInNew(es: seq<Dirent>, k: nat, e: Dirent, i: nat)
    requires Room(es, k)
    ensures CountIn(Put(es, k, e), i) == CountIn(es, i) + One(Names(e, i))
  {
    if k < |es| {
      CountInPut(es, k, e, i);
    } else {
      assert Put(es, k, e)[..k] == es;
    }
  }

  /** An allocated inode without links: what ialloc and `nlink = 1` leave, its one link yet to be entered. */
  lemma AllocKeeps(s: seq<Inode>, depth: seq<nat>, pending: seq<nat>, c: nat, kind: Kind)
    requires Inv(s, depth, pending) && 0 < c < |s| && s[c].kind == Free && (kind == File || kind == Dev)
    ensures Inv(s[c := Inode(kind, 1, [])], depth, pending[c := 1])
  {
    var s' := s[c := Inode(kind, 1, [])];
    forall i | 0 < i < |s| ensures Count(s', i) == Count(s, i) {
      CountPut(s, c, s'[c], i);
    }
    forall d, k | InUse(s', d, k) ensures EntryOk(s', depth, d, k) {
      assert InUse(s, d, k) && EntryOk(s, depth, d, k);
    }
    forall d | 0 <= d < |s| && Linked(s'[d]) && d != ROOTINO ensures ParentOk(s', d) {
      assert ParentOk(s, d);
    }
  }

  lemma PutDirOk(es: seq<Dirent>, d: nat, k: nat, e: Dirent)
    requires d != 0 && DirOk(es, d) && Room(es, k) && Absent(es, e.name)
    ensures k >= 2 && e.name != Dot && e.name != DotDot && DirOk(Put(es, k, e), d)
    ensures forall l :: 0 <= l < |es| && es[l].inum != 0 ==> Put(es, k, e)[l] == es[l]
  {
    assert es[0].inum != 0 && es[1].inum != 0;
  }

  lemma PutLists(es: seq<Dirent>, k: nat, e: Dirent, f: nat)
    requires Room(es, k) && f != 0
    ensures Lists(es, f) ==> Lists(Put(es, k, e), f)
  {
    if Lists(es, f) {
      var l :| 2 <= l < |es| && es[l].inum == f;
      assert Put(es, k, e)[l].inum == f;
    }
  }

  /** A new entry for an inode that is not a directory. */
  lemma EnterTree(s: seq<Inode>, depth: seq<nat>, d: nat, k: nat, c: nat, name: Name)
    requires Tree(s, depth) && d < |s| && Linked(s[d]) && Room(s[d].entries, k) && Absent(s[d].entries, name)
    requires 0 < c < |s| && (s[c].kind == File || s[c].kind == Dev)
    ensures Tree(s[d := s[d].(entries := Put(s[d].entries, k, Dirent(c, name)))], depth)
  {
    var es' := Put(s[d].entries, k, Dirent(c, name));
    var s' := s[d := s[d].(entries := es')];
    PutDirOk(s[d].entries, d, k, Dirent(c, name));
    forall f, l | InUse(s', f, l) ensures EntryOk(s', depth, f, l) {
      if f != d || l != k {
        assert InUse(s, f, l) && EntryOk(s, depth, f, l);
      }
    }
    forall f | 0 <= f < |s| && Linked(s'[f]) && f != ROOTINO ensures ParentOk(s', f) {
      assert ParentOk(s, f);
      PutLists(s[d].entries, k, Dirent(c, name), f);
    }
  }

  lemma EnterCounts(s: seq<Inode>, d: nat, k: nat, c: nat, name: Name)
    requires d < |s| && Linked(s[d]) && Room(s[d].entries, k) && 0 < c && name != Dot
    ensures forall i :: 0 < i < |s| ==>
      Count(s[d := s[d].(entries := Put(s[d].entries, k, Dirent(c, name)))], i) == Count(s, i) + One(i == c)
  {
    var e := Dirent(c, name);
    var s' := s[d := s[d].(entries := Put(s[d].entries, k, e))];
    forall i | 0 < i < |s| ensures Count(s', i) == Count(s, i) + One(i == c) {
      CountPut(s, d, s'[d], i);
      CountInNew(s[d].entries, k, e, i);
    }
  }

  lemma EnterCounted(s: seq<Inode>, s': seq<Inode>, pending: seq<nat>, d: nat, c: nat)
    requires Counted(s, pending) && |s'| == |s| && 0 < c < |s| && pending[c] > 0
    requires forall i :: 0 <= i < |s| ==> s'[i].nlink == s[i].nlink && s'[i].kind == s[i].kind
    requires forall i :: 0 < i < |s| ==> Count(s', i) == Count(s, i) + One(i == c)
    ensures Counted(s', pending[c := pending[c] - 1])
  {
  }

  /** dirlink of a file into a linked directory. */
  lemma EnterKeeps(s: seq<Inode>, depth: seq<nat>, pending: seq<nat>, d: nat, k: nat, c: nat, name: Name)
    requires Inv(s, depth, pending) && d < |s| && Linked(s[d]) && Room(s[d].entries, k) && Absent(s[d].entries, name)
    requires 0 < c < |s| && pending[c] > 0
    ensures Inv(s[d := s[d].(entries := Put(s[d].entries, k, Dirent(c, name)))], depth, pending[c := pending[c] - 1])
  {
    var e := Dirent(c, name);
    var s' := s[d := s[d].(entries := Put(s[d].entries, k, e))];
    EnterTree(s, depth, d, k, c, name);
    PutDirOk(s[d].entries, d, k, e);
    EnterCounts(s, d, k, c, name);
    EnterCounted(s, s', pending, d, c);
  }

  /** The directory create makes in directory d. */
  function NewDir(c: nat, d: nat): (ip: Inode) {
    Inode(Dir, 1, [Dirent(c, Dot), Dirent(d, DotDot)])
  }

  function Mkdir(s: seq<Inode>, d: nat, k: nat, c: nat, name: Name): (r: seq<Inode>)
    requires d < |s| && c < |s| && k <= |s[d].entries|
  {
    s[c := NewDir(c, d)][d := Inode(s[d].kind, s[d].nlink + 1, Put(s[d].entries, k, Dirent(c, name)))]
  }

  lemma MkdirEntry(s: seq<Inode>, depth: seq<nat>, d: nat, k: nat, c: nat, name: Name, f: nat, l: nat)
    requires Tree(s, depth) && d < |s| && Linked(s[d]) && Room(s[d].entries, k) && Absent(s[d].entries, name)
    requires 0 < c < |s| && s[c].kind == Free && InUse(Mkdir(s, d, k, c, name), f, l)
    ensures EntryOk(Mkdir(s, d, k, c, name), depth[c := depth[d] + 1], f, l)
  {
    PutDirOk(s[d].entries, d, k, Dirent(c, name));
    if f == d && l == k {
      forall m | 2 <= m < |s[d].entries| && s[d].entries[m].inum != 0 ensures s[d].entries[m].inum != c {
        assert InUse(s, d, m) && EntryOk(s, depth, d, m);
      }
    } else {
      assert InUse(s, f, l) && EntryOk(s, depth, f, l);
    }
  }

  lemma MkdirParent(s: seq<Inode>, depth: seq<nat>, d: nat, k: nat, c: nat, name: Name, f: nat)
    requires Tree(s, depth) && d < |s| && Linked(s[d]) && Room(s[d].entries, k) && Absent(s[d].entries, name)
    requires 0 < c < |s| && s[c].kind == Free && f < |s| && Linked(Mkdir(s, d, k, c, name)[f]) && f != ROOTINO
    ensures ParentOk(Mkdir(s, d, k, c, name), f)
  {
    var s' := Mkdir(s, d, k, c, name);
    if f == c {
      assert s'[d].entries[k].inum == c;
    } else {
      assert ParentOk(s, f);
      PutLists(s[d].entries, k, Dirent(c, name), f);
    }
  }

  lemma MkdirTree(s: seq<Inode>, depth: seq<nat>, d: nat, k: nat, c: nat, name: Name)
    requires Tree(s, depth) && d < |s| && Linked(s[d]) && Room(s[d].entries, k) && Absent(s[d].entries, name)
    requires 0 < c < |s| && s[c].kind == Free
    ensures Tree(Mkdir(s, d, k, c, name), depth[c := depth[d] + 1])
  {
    var e := Dirent(c, name);
    var s', depth' := Mkdir(s, d, k, c, name), depth[c := depth[d] + 1];
    PutDirOk(s[d].entries, d, k, e);
    forall f, l | InUse(s', f, l) ensures EntryOk(s', depth', f, l) {
      MkdirEntry(s, depth, d, k, c, name, f, l);
    }
    forall f | 0 <= f < |s| && Linked(s'[f]) && f != ROOTINO ensures ParentOk(s', f) {
      MkdirParent(s, depth, d, k, c, name, f);
    }
  }

  lemma NewDirCount(c: nat, d: nat, i: nat)
    requires i != 0
    ensures CountIn(NewDir(c, d).entries, i) == One(i == d)
  {
    var es := NewDir(c, d).entries;
    assert es[..1] == [Dirent(c, Dot)] && [Dirent(c, Dot)][..0] == [];
    assert CountIn([Dirent(c, Dot)], i) == 0;
  }

  /** create of a directory. */
  lemma MkdirKeeps(s: seq<Inode>, depth: seq<nat>, pending: seq<nat>, d: nat, k: nat, c: nat, name: Name)
    requires Inv(s, depth, pending) && d < |s| && Linked(s[d]) && Room(s[d].entries, k) && Absent(s[d].entries, name)
    requires 0 < c < |s| && s[c].kind == Free
    ensures Inv(Mkdir(s, d, k, c, name), depth[c := depth[d] + 1], pending)
  {
    var e := Dirent(c, name);
    var s', s1 := Mkdir(s, d, k, c, name), s[c := NewDir(c, d)];
    MkdirTree(s, depth, d, k, c, name);
    PutDirOk(s[d].entries, d, k, e);
    forall i | 0 < i < |s| ensures Count(s', i) == Count(s, i) + One(i == c) + One(i == d) {
      NewDirCount(c, d, i);
      CountPut(s, c, NewDir(c, d), i);
      CountPut(s1, d, s'[d], i);
      CountInNew(s[d].entries, k, e, i);
    }
  }

  // ---- Unlinking

  function Unlinked(s: seq<Inode>, d: nat, k: nat): (r: seq<Inode>)
    requires d < |s| && k < |s[d].entries| && s[d].entries[k].inum < |s|
    requires s[s[d].entries[k].inum].nlink >= 1 && s[d].nlink >= 1 && s[d].entries[k].inum != d
  {
    var c := s[d].entries[k].inum;
    var parent := Inode(s[d].kind, if s[c].kind == Dir then s[d].nlink - 1 else s[d].nlink, s[d].entries[k := EMPTY]);
    s[d := parent][c := Inode(s[c].kind, s[c].nlink - 1, s[c].entries)]
  }

  /** isdirempty: no entry after "." and ".." is in use. */
  predicate DirEmpty(es: seq<Dirent>) {
    forall k :: 2 <= k < |es| ==> es[k].inum == 0
  }

  /** Clearing an entry takes one from the count of the inode it named. */
  lemma ClearCount(s: seq<Inode>, d: nat, k: nat, i: nat)
    requires d < |s| && Linked(s[d]) && k < |s[d].entries| && i != 0
    ensures Count(s[d := s[d].(entries := s[d].entries[k := EMPTY])], i) + One(Names(s[d].entries[k], i)) == Count(s, i)
  {
    CountPut(s, d, s[d].(entries := s[d].entries[k := EMPTY]), i);
    CountInPut(s[d].entries, k, EMPTY, i);
  }

  /** No other entry names the child of an entry, if the child is an empty directory. */
  lemma OtherEntry(s: seq<Inode>, depth: seq<nat>, d: nat, k: nat, f: nat, l: nat)
    requires Tree(s, depth) && InUse(s, d, k) && f < |s| && Linked(s[f]) && l < |s[f].entries| && (f != d || l != k)
    requires s[d].entries[k].inum < |s| && s[s[d].entries[k].inum].kind == Dir &&
      DirEmpty(s[s[d].entries[k].inum].entries)
    ensures !Names(s[f].entries[l], s[d].entries[k].inum)
  {
    var c := s[d].entries[k].inum;
    assert EntryOk(s, depth, d, k) && DirOk(s[f].entries, f);
    if l == 1 {
      if f == ROOTINO {
        assert depth[c] > 0;
      } else {
        assert ParentOk(s, f);
      }
    } else if l >= 2 {
      assert InUse(s, f, l) ==> EntryOk(s, depth, f, l);
    }
  }

  /** A directory that is empty is counted once, by its entry in its parent. */
  lemma EmptyDirCount(s: seq<Inode>, depth: seq<nat>, d: nat, k: nat)
    requires Tree(s, depth) && InUse(s, d, k)
    requires s[d].entries[k].inum < |s| && s[s[d].entries[k].inum].kind == Dir &&
      DirEmpty(s[s[d].entries[k].inum].entries)
    ensures Linked(s[d]) && s[d].entries[k].name != Dot && Count(s, s[d].entries[k].inum) == 1
  {
    var c := s[d].entries[k].inum;
    assert EntryOk(s, depth, d, k) && DirOk(s[d].entries, d);
    var s1 := s[d := s[d].(entries := s[d].entries[k := EMPTY])];
    ClearCount(s, d, k, c);
    forall f, l | 0 <= f < |s1| && Linked(s1[f]) && 0 <= l < |s1[f].entries| ensures !Names(s1[f].entries[l], c) {
      if f != d || l != k {
        OtherEntry(s, depth, d, k, f, l);
      }
    }
    CountZero(s1, c);
  }

  /** What unlink needs of its entry: a file, or an empty directory. */
  predicate MayUnlink(s: seq<Inode>, d: nat, k: nat) {
    && InUse(s, d, k) && s[d].entries[k].inum < |s|
    && (s[s[d].entries[k].inum].kind == Dir ==> DirEmpty(s[s[d].entries[k].inum].entries))
  }

  /** The parent of a directory is counted by that directory's ".." and once more. */
  lemma ParentCount(s: seq<Inode>, depth: seq<nat>, d: nat, k: nat)
    requires Tree(s, depth) && InUse(s, d, k) && s[d].entries[k].inum < |s| && s[s[d].entries[k].inum].kind == Dir
    ensures Count(s, d) >= 2
  {
    var c := s[d].entries[k].inum;
    assert EntryOk(s, depth, d, k) && DirOk(s[d].entries, d) && DirOk(s[c].entries, c);
    assert Names(s[c].entries[1], d);
    var s1 := s[c := s[c].(entries := s[c].entries[1 := EMPTY])];
    ClearCount(s, c, 1, d);
    if d == ROOTINO {
      CountPositive(s1, d, d, 1);
    } else {
      assert ParentOk(s, d);
      var p := s[d].entries[1].inum;
      var l :| 2 <= l < |s[p].entries| && s[p].entries[l].inum == d;
      assert InUse(s, p, l) && DirOk(s[p].entries, p);
      CountPositive(s1, d, p, l);
    }
  }

  /** The directory and the inode that unlink changes are different and both have a link. */
  lemma UnlinkCan(s: seq<Inode>, depth: seq<nat>, pending: seq<nat>, d: nat, k: nat)
    requires Inv(s, depth, pending) && MayUnlink(s, d, k)
    ensures Linked(s[d]) && s[d].entries[k].inum != d && s[s[d].entries[k].inum].nlink >= 1
    ensures s[s[d].entries[k].inum].kind == Dir ==> s[s[d].entries[k].inum].nlink == 1 && s[d].nlink >= 2
  {
    var c := s[d].entries[k].inum;
    assert EntryOk(s, depth, d, k) && DirOk(s[d].entries, d);
    CountPositive(s, c, d, k);
    if s[c].kind == Dir {
      EmptyDirCount(s, depth, d, k);
      ParentCount(s, depth, d, k);
    }
  }

  lemma UnlinkEntry(s: seq<Inode>, depth: seq<nat>, pending: seq<nat>, d: nat, k: nat, f: nat, l: nat)
    requires Inv(s, depth, pending) && MayUnlink(s, d, k) && s[d].entries[k].inum != d
    requires Linked(s[d]) && s[s[d].entries[k].inum].nlink >= 1 &&
      (s[s[d].entries[k].inum].kind == Dir ==> s[d].nlink >= 2)
    requires InUse(Unlinked(s, d, k), f, l)
    ensures EntryOk(Unlinked(s, d, k), depth, f, l)
  {
    var c := s[d].entries[k].inum;
    assert EntryOk(s, depth, d, k);
    assert InUse(s, f, l) && EntryOk(s, depth, f, l);
    if s[c].kind == Dir {
      OtherEntry(s, depth, d, k, f, l);
      assert DirOk(s[f].entries, f);
    }
  }

  /** Whoever is still linked keeps its parent. */
  lemma UnlinkParent(s: seq<Inode>, depth: seq<nat>, d: nat, k: nat, f: nat)
    requires Tree(s, depth) && MayUnlink(s, d, k) && s[d].entries[k].inum != d
    requires Linked(s[d]) && s[s[d].entries[k].inum].nlink >= 1
    requires s[s[d].entries[k].inum].kind == Dir ==> s[s[d].entries[k].inum].nlink == 1 && s[d].nlink >= 2
    requires f < |s| && Linked(Unlinked(s, d, k)[f]) && f != ROOTINO
    ensures ParentOk(Unlinked(s, d, k), f)
  {
    var s' := Unlinked(s, d, k);
    assert EntryOk(s, depth, d, k) && ParentOk(s, f);
    var p := s[f].entries[1].inum;
    var l :| 2 <= l < |s[p].entries| && s[p].entries[l].inum == f;
    assert InUse(s, p, l) && EntryOk(s, depth, p, l);
    assert s'[p].entries[l].inum == f;
  }

  lemma UnlinkTree(s: seq<Inode>, depth: seq<nat>, pending: seq<nat>, d: nat, k: nat)
    requires Inv(s, depth, pending) && MayUnlink(s, d, k) && s[d].entries[k].inum != d
    requires Linked(s[d]) && s[s[d].entries[k].inum].nlink >= 1
    requires s[s[d].entries[k].inum].kind == Dir ==> s[s[d].entries[k].inum].nlink == 1 && s[d].nlink >= 2
    ensures Tree(Unlinked(s, d, k), depth)
  {
    var c := s[d].entries[k].inum;
    var s' := Unlinked(s, d, k);
    assert EntryOk(s, depth, d, k);
    forall f, l | InUse(s', f, l) ensures EntryOk(s', depth, f, l) {
      UnlinkEntry(s, depth, pending, d, k, f, l);
    }
    forall f | 0 <= f < |s| && Linked(s'[f]) && f != ROOTINO ensures ParentOk(s', f) {
      UnlinkParent(s, depth, d, k, f);
    }
  }

  /** An empty directory counts only for its parent. */
  lemma EmptyDirEntries(es: seq<Dirent>, c: nat, d: nat, i: nat)
    requires DirOk(es, c) && DirEmpty(es) && es[1].inum == d && i != 0
    ensures CountIn(es, i) == One(i == d)
  {
    CountInPut(es, 1, EMPTY, i);
    CountInZero(es[1 := EMPTY], i);
  }

  lemma UnlinkCount(s: seq<Inode>, depth: seq<nat>, pending: seq<nat>, d: nat, k: nat, i: nat)
    requires Inv(s, depth, pending) && MayUnlink(s, d, k) && 0 < i < |s| && s[d].entries[k].inum != d
    requires Linked(s[d]) && s[s[d].entries[k].inum].nlink >= 1
    requires s[s[d].entries[k].inum].kind == Dir ==> s[s[d].entries[k].inum].nlink == 1 && s[d].nlink >= 2
    ensures Unlinked(s, d, k)[i].nlink == Count(Unlinked(s, d, k), i) + pending[i]
  {
    var c := s[d].entries[k].inum;
    var s' := Unlinked(s, d, k);
    var s1 := s[d := s'[d]];
    assert EntryOk(s, depth, d, k) && DirOk(s[d].entries, d);
    CountPut(s, d, s'[d], i);
    CountInPut(s[d].entries, k, EMPTY, i);
    assert Count(s1, i) + One(i == c) == Count(s, i);
    CountPut(s1, c, s'[c], i);
    if s[c].kind == Dir {
      EmptyDirEntries(s[c].entries, c, d, i);
      assert Count(s', i) + One(i == d) == Count(s1, i);
    }
  }

  lemma UnlinkCounted(s: seq<Inode>, depth: seq<nat>, pending: seq<nat>, d: nat, k: nat)
    requires Inv(s, depth, pending) && MayUnlink(s, d, k) && s[d].entries[k].inum != d
    requires Linked(s[d]) && s[s[d].entries[k].inum].nlink >= 1
    requires s[s[d].entries[k].inum].kind == Dir ==> s[s[d].entries[k].inum].nlink == 1 && s[d].nlink >= 2
    ensures Counted(Unlinked(s, d, k), pending)
  {
    var c := s[d].entries[k].inum;
    var s' := Unlinked(s, d, k);
    assert EntryOk(s, depth, d, k);
    forall i | 0 < i < |s| ensures s'[i].nlink == Count(s', i) + pending[i] {
      UnlinkCount(s, depth, pending, d, k, i);
    }
  }

  /** unlink of a file or of an empty directory. */
  lemma UnlinkKeeps(s: seq<Inode>, depth: seq<nat>, pending: seq<nat>, d: nat, k: nat)
    requires Inv(s, depth, pending) && MayUnlink(s, d, k)
    ensures Linked(s[d]) && s[d].entries[k].inum != d && s[s[d].entries[k].inum].nlink >= 1
    ensures Inv(Unlinked(s, d, k), depth, pending)
  {
    UnlinkCan(s, depth, pending, d, k);
    UnlinkTree(s, depth, pending, d, k);
    UnlinkCounted(s, depth, pending, d, k);
  }

  /** The last reference to an inode without links: iput frees it. */
  lemma ReapKeeps(s: seq<Inode>, depth: seq<nat>, pending: seq<nat>, i: nat)
    requires Inv(s, depth, pending) && 0 < i < |s| && s[i].nlink == 0
    ensures Inv(s[i := Inode(Free, 0, [])], depth, pending)
  {
    var s' := s[i := Inode(Free, 0, [])];
    forall j | 0 < j < |s| ensures Count(s', j) == Count(s, j) {
      CountPut(s, i, s'[i], j);
    }
    forall d: nat, k: nat | InUse(s', d, k) ensures EntryOk(s', depth, d, k) {
      assert InUse(s, d, k) && EntryOk(s, depth, d, k) && DirOk(s[d].entries, d);
      if s[d].entries[k].inum == i {
        CountPositive(s, i, d, k);
      }
    }
    forall d | 0 <= d < |s| && Linked(s'[d]) && d != ROOTINO ensures ParentOk(s', d) {
      assert ParentOk(s, d);
    }
  }

  // ---- Entering names in a directory that has been unlinked

  /** Whether some tree has this state. */
  ghost predicate Sound(s: seq<Inode>, pending: seq<nat>) {
    exists depth :: Inv(s, depth, pending)
  }

  /** dirlink keeps the counts right exactly when the directory is linked. */
  lemma EnterExact(s: seq<Inode>, pending: seq<nat>, d: nat, k: nat, c: nat, name: Name)
    requires Sound(s, pending) && d < |s| && s[d].kind == Dir && Room(s[d].entries, k) && Absent(s[d].entries, name)
    requires 0 < c < |s| && pending[c] > 0
    ensures Sound(s[d := s[d].(entries := Put(s[d].entries, k, Dirent(c, name)))], pending[c := pending[c] - 1]) <==>
      Linked(s[d])
  {
    var depth :| Inv(s, depth, pending);
    var s' := s[d := s[d].(entries := Put(s[d].entries, k, Dirent(c, name)))];
    if Linked(s[d]) {
      EnterKeeps(s, depth, pending, d, k, c, name);
    } else {
      CountPut(s, d, s'[d], c);
      assert Count(s', c) == Count(s, c) && s'[c].nlink == Count(s, c) + pending[c];
    }
  }

  /** An unlinked directory is listed nowhere. */
  lemma NotListed(s: seq<Inode>, depth: seq<nat>, pending: seq<nat>, d: nat, p: nat)
    requires Inv(s, depth, pending) && d < |s| && s[d].kind == Dir && !Linked(s[d]) && p < |s|
    ensures s[p].kind == Dir ==> !Lists(s[p].entries, d)
  {
    forall l | s[p].kind == Dir && 2 <= l < |s[p].entries| ensures s[p].entries[l].inum != d {
      if InUse(s, p, l) {
        assert EntryOk(s, depth, p, l);
      }
    }
  }

  lemma MkdirOrphan(s: seq<Inode>, depth: seq<nat>, pending: seq<nat>, d: nat, k: nat, c: nat, name: Name)
    requires Inv(s, depth, pending) && d < |s| && s[d].kind == Dir && !Linked(s[d]) && Room(s[d].entries, k) &&
      Absent(s[d].entries, name)
    requires 0 < c < |s| && s[c].kind == Free
    ensures !ParentOk(Mkdir(s, d, k, c, name), d)
  {
    var s' := Mkdir(s, d, k, c, name);
    assert d != 0 && DirOk(s[d].entries, d);
    PutDirOk(s[d].entries, d, k, Dirent(c, name));
    var p := s'[d].entries[1].inum;
    if p < |s| {
      NotListed(s, depth, pending, d, p);
    }
  }

  /** create of a directory keeps the tree exactly when the parent is linked. */
  lemma MkdirExact(s: seq<Inode>, pending: seq<nat>, d: nat, k: nat, c: nat, name: Name)
    requires Sound(s, pending) && d < |s| && s[d].kind == Dir && Room(s[d].entries, k) && Absent(s[d].entries, name)
    requires 0 < c < |s| && s[c].kind == Free
    ensures Sound(Mkdir(s, d, k, c, name), pending) <==> Linked(s[d])
  {
    var depth :| Inv(s, depth, pending);
    var s' := Mkdir(s, d, k, c, name);
    if Linked(s[d]) {
      MkdirKeeps(s, depth, pending, d, k, c, name);
    } else {
      MkdirOrphan(s, depth, pending, d, k, c, name);
      assert Linked(s'[d]) && d != ROOTINO;
    }
  }

  lemma SmallCounts(s: seq<Inode>)
    requires |s| == 4 && s[1] == Inode(Dir, 1, [Dirent(1, Dot), Dirent(1, DotDot)])
    requires !Linked(s[0]) && !Linked(s[2]) && !Linked(s[3])
    ensures forall i :: 0 < i < 4 ==> Count(s, i) == One(i == 1)
  {
    forall i | 0 < i < 4 ensures Count(s, i) == One(i == 1) {
      CountPut(s, 1, Inode(Free, 0, []), i);
      CountZero(s[1 := Inode(Free, 0, [])], i);
      NewDirCount(1, 1, i);
    }
  }

  /** A reachable case: a directory that is still some process's working directory has
      been removed, and a file is created in it. */
  lemma RemovedDirectory(name: string)
    ensures var root := Inode(Dir, 1, [Dirent(1, Dot), Dirent(1, DotDot)]);
      var gone := Inode(Dir, 0, [Dirent(2, Dot), Dirent(1, DotDot)]);
      var s := [Inode(Free, 0, []), root, gone, Inode(File, 1, [])];
      && Sound(s, [0, 0, 0, 1])
      && !Sound(s[2 := gone.(entries := Put(gone.entries, 2, Dirent(3, Plain(name))))], [0, 0, 0, 0])
  {
    var root := Inode(Dir, 1, [Dirent(1, Dot), Dirent(1, DotDot)]);
    var gone := Inode(Dir, 0, [Dirent(2, Dot), Dirent(1, DotDot)]);
    var s := [Inode(Free, 0, []), root, gone, Inode(File, 1, [])];
    SmallCounts(s);
    assert Inv(s, [0, 0, 0, 0], [0, 0, 0, 1]);
    EnterExact(s, [0, 0, 0, 1], 2, 2, 3, Plain(name));
    assert [0, 0, 0, 1][3 := 0] == [0, 0, 0, 0];
  }

  // ---- What the invariant means

  /** n steps up the tree. */
  function Ancestor(s: seq<Inode>, c: nat, n: nat): (a: nat)
    decreases n
  {
    if n == 0 || c >= |s| || |s[c].entries| < 2 then c else Ancestor(s, s[c].entries[1].inum, n - 1)
  }

  /** Every linked directory leads up to the root. */
  lemma {:induction false} ReachesRoot(s: seq<Inode>, depth: seq<nat>, c: nat)
    requires Tree(s, depth) && c < |s| && Linked(s[c])
    ensures Ancestor(s, c, depth[c]) == ROOTINO
    decreases depth[c]
  {
    if c != ROOTINO {
      assert ParentOk(s, c);
      var p := s[c].entries[1].inum;
      var k :| 2 <= k < |s[p].entries| && s[p].entries[k].inum == c;
      assert InUse(s, p, k) && EntryOk(s, depth, p, k);
      ReachesRoot(s, depth, p);
    }
  }

  /** No directory is entered twice, and the root not at all. */
  lemma OneParent(s: seq<Inode>, depth: seq<nat>, d: nat, k: nat, f: nat, l: nat)
    requires Tree(s, depth) && InUse(s, d, k) && InUse(s, f, l) && s[d].entries[k].inum == s[f].entries[l].inum
    requires s[d].entries[k].inum < |s| && s[s[d].entries[k].inum].kind == Dir
    ensures d == f && k == l && s[d].entries[k].inum != ROOTINO
  {
    assert EntryOk(s, depth, d, k) && EntryOk(s, depth, f, l);
  }
}
