/** Reference counts of open files and cached inodes (kernel/file.c, kernel/fs.c,
    kernel/sysfile.c): who holds what, and the counts that go with it. */
module RefCounts {
  import opened Common

  datatype Kind = NoKind | PipeEnd(p: nat, writable: bool) | OnInode(i: nat)

  datatype File = File(ref: int, kind: Kind)

  /** An entry of the inode cache; `valid` once ilock has read it from disk. */
  datatype CInode = CInode(ref: int, inum: nat, valid: bool, nlink: nat)

  /** How often x occurs. */
  function Tally(s: seq<int>, x: int): (n: nat) {
    if s == [] then 0 else Tally(s[..|s| - 1], x) + One(s[|s| - 1] == x)
  }

  lemma {:induction false} TallyPut(s: seq<int>, k: nat, y: int, x: int)
    requires k < |s|
    ensures Tally(s[k := y], x) + One(s[k] == x) == Tally(s, x) + One(y == x)
  {
    var n := |s| - 1;
    if k < n {
      TallyPut(s[..n], k, y, x);
      assert s[k := y][..n] == s[..n][k := y];
    } else {
      assert s[k := y][..n] == s[..n];
    }
  }

  lemma {:induction false} TallyZero(s: seq<int>, x: int)
    requires forall k :: 0 <= k < |s| ==> s[k] != x
    ensures Tally(s, x) == 0
  {
    if s != [] {
      TallyZero(s[..|s| - 1], x);
    }
  }

  lemma TallySome(s: seq<int>, k: nat, x: int)
    requires k < |s| && s[k] == x
    ensures Tally(s, x) >= 1
  {
    TallyPut(s, k, x + 1, x);
  }

  /** How many open files are on inode i. */
  function FilesOn(files: seq<File>, i: nat): (n: nat) {
    if files == [] then 0 else FilesOn(files[..|files| - 1], i) + One(files[|files| - 1].kind == OnInode(i))
  }

  lemma {:induction false} FilesOnPut(files: seq<File>, k: nat, f: File, i: nat)
    requires k < |files|
    ensures FilesOn(files[k := f], i) + One(files[k].kind == OnInode(i)) == FilesOn(files,
      i) + One(f.kind == OnInode(i))
  {
    var n := |files| - 1;
    if k < n {
      FilesOnPut(files[..n], k, f, i);
      assert files[k := f][..n] == files[..n][k := f];
    } else {
      assert files[k := f][..n] == files[..n];
    }
  }

  // ---- The invariant

  /** A file's count is the descriptors that hold it plus the references in kernel hands. */
  ghost predicate FilesOk(files: seq<File>, slots: seq<int>, hold: seq<int>) {
    && |hold| == |files|
    && (forall f :: 0 <= f < |files| ==> files[f].ref == Tally(slots, f) + hold[f])
    && (forall f :: 0 <= f < |files| && files[f].ref == 0 ==> files[f].kind == NoKind)
    && (forall k :: 0 <= k < |slots| ==> -1 <= slots[k] < |files|)
  }

  /** An inode's count is the files on it, the working directories, and the references in
      kernel hands; no inode has two live entries. */
  ghost predicate InodesOk(icache: seq<CInode>, files: seq<File>, cwd: seq<int>, ihold: seq<int>) {
    && |ihold| == |icache|
    && (forall i :: 0 <= i < |icache| ==> icache[i].ref == FilesOn(files, i) + Tally(cwd, i) + ihold[i])
    && (forall i, j :: 0 <= i < j < |icache| && icache[i].ref > 0 && icache[j].ref > 0 ==>
      icache[i].inum != icache[j].inum)
    && (forall f :: 0 <= f < |files| && files[f].kind.OnInode? ==> files[f].kind.i < |icache|)
    && (forall k :: 0 <= k < |cwd| ==> -1 <= cwd[k] < |icache|)
  }

  /** Whether an end of pipe p is open. */
  predicate Open(pipes: map<nat, (bool, bool)>, p: nat, writable: bool) {
    p in pipes && if writable then pipes[p].1 else pipes[p].0
  }

  ghost predicate Holder(files: seq<File>, p: nat, w: bool) {
    exists f :: 0 <= f < |files| && files[f].kind == PipeEnd(p, w)
  }

  /** A pipe end is open exactly while a file holds it, and one file at most does. */
  ghost predicate PipesOk(files: seq<File>, pipes: map<nat, (bool, bool)>) {
    && (forall f :: 0 <= f < |files| && files[f].kind.PipeEnd? ==> Open(pipes, files[f].kind.p, files[f].kind.writable))
    && (forall f, g :: 0 <= f < g < |files| && files[f].kind.PipeEnd? ==> files[f].kind != files[g].kind)
    && (forall p, w :: Open(pipes, p, w) ==> Holder(files, p, w))
  }

  ghost predicate Kept(icache: seq<CInode>, n: nat) {
    exists i :: 0 <= i < |icache| && icache[i].ref > 0 && icache[i].inum == n && icache[i].valid
  }

  /** Valid entries agree with the disk, and an inode without links is still on disk only while
      a valid entry refers to it. */
  ghost predicate LinksOk(icache: seq<CInode>, links: map<nat, nat>) {
    && (forall i :: 0 <= i < |icache| && icache[i].ref > 0 && icache[i].valid ==>
      icache[i].inum in links && links[icache[i].inum] == icache[i].nlink)
    && (forall n :: n in links && links[n] == 0 ==> Kept(icache, n))
  }

  /** From links to links', with the cache as it is at the end: every inode with links stays as it was, none
      comes, and one without links goes exactly when no valid entry refers to it any more. */
  ghost predicate LinksKept(links: map<nat, nat>, links': map<nat, nat>, icache': seq<CInode>) {
    && (forall n :: n in links && links[n] > 0 ==> n in links')
    && (forall n :: n in links' ==> n in links && links'[n] == links[n])
    && (forall n :: n in links && links[n] == 0 ==> (n in links' <==> Kept(icache', n)))
  }

  lemma LinksSame(links: map<nat, nat>, icache: seq<CInode>)
    requires LinksOk(icache, links)
    ensures LinksKept(links, links, icache)
  {
  }

  lemma LinksMore(links: map<nat, nat>, links1: map<nat, nat>, links2: map<nat, nat>, icache1: seq<CInode>,
      icache2: seq<CInode>)
    requires LinksKept(links, links1, icache1) && LinksKept(links1, links2, icache2) && LinksOk(icache2, links2)
    ensures LinksKept(links, links2, icache2)
  {
  }

  /** Freeing the inode of an entry without links, and otherwise nothing. */
  lemma LinksFreed(icache: seq<CInode>, links: map<nat, nat>, i: nat, icache': seq<CInode>, links': map<nat, nat>)
    requires LinksOk(icache, links) && LinksOk(icache', links') && i < |icache| && icache[i].ref > 0
    requires links' == links || (links' == links - {icache[i].inum} && icache[i].valid && icache[i].nlink == 0)
    ensures LinksKept(links, links', icache')
  {
  }

  // ---- File references

  /** The count and the hands change together. */
  lemma FileRef(files: seq<File>, slots: seq<int>, hold: seq<int>, f: nat, ref: int, h: int, kind: Kind)
    requires FilesOk(files, slots, hold) && f < |files| && ref - files[f].ref == h - hold[f] &&
      (ref == 0 ==> kind == NoKind)
    ensures FilesOk(files[f := File(ref, kind)], slots, hold[f := h])
  {
  }

  /** A reference moves between a descriptor and kernel hands. */
  lemma SlotRef(files: seq<File>, slots: seq<int>, hold: seq<int>, k: nat, f: nat)
    requires FilesOk(files, slots, hold) && k < |slots| && f < |files|
    ensures slots[k] == -1 ==> FilesOk(files, slots[k := f], hold[f := hold[f] - 1])
    ensures slots[k] == f ==> FilesOk(files, slots[k := -1], hold[f := hold[f] + 1])
  {
    forall g | 0 <= g < |files|
      ensures Tally(slots[k := f], g) + One(slots[k] == g) == Tally(slots, g) + One(f == g)
      ensures Tally(slots[k := -1], g) + One(slots[k] == g) == Tally(slots, g)
    {
      TallyPut(slots, k, f, g);
      TallyPut(slots, k, -1, g);
    }
  }

  // ---- Inode references

  lemma InodeRef(icache: seq<CInode>, files: seq<File>, cwd: seq<int>, ihold: seq<int>, i: nat, e: CInode, h: int)
    requires InodesOk(icache, files, cwd, ihold) && i < |icache| && e.ref - icache[i].ref == h - ihold[i]
    requires e.ref > 0 ==> forall j :: 0 <= j < |icache| && j != i && icache[j].ref > 0 ==> icache[j].inum != e.inum
    ensures InodesOk(icache[i := e], files, cwd, ihold[i := h])
  {
  }

  /** A file takes over, or gives up, a reference to an inode. */
  lemma FileInode(icache: seq<CInode>, files: seq<File>, cwd: seq<int>, ihold: seq<int>, f: nat, x: File)
    requires InodesOk(icache, files, cwd, ihold) && f < |files| && !(files[f].kind.OnInode? && x.kind.OnInode?)
    ensures x.kind.OnInode? && x.kind.i < |icache| ==>
      InodesOk(icache, files[f := x], cwd, ihold[x.kind.i := ihold[x.kind.i] - 1])
    ensures files[f].kind.OnInode? ==>
      InodesOk(icache, files[f := x], cwd, ihold[files[f].kind.i := ihold[files[f].kind.i] + 1])
    ensures !files[f].kind.OnInode? && !x.kind.OnInode? ==> InodesOk(icache, files[f := x], cwd, ihold)
  {
    forall i: nat ensures FilesOn(files[f := x], i) + One(files[f].kind == OnInode(i)) == FilesOn(files,
      i) + One(x.kind == OnInode(i)) {
      FilesOnPut(files, f, x, i);
    }
  }

  /** A working directory takes over, or gives up, a reference to an inode. */
  lemma CwdInode(icache: seq<CInode>, files: seq<File>, cwd: seq<int>, ihold: seq<int>, p: nat, i: nat)
    requires InodesOk(icache, files, cwd, ihold) && p < |cwd| && i < |icache|
    ensures cwd[p] == -1 ==> InodesOk(icache, files, cwd[p := i], ihold[i := ihold[i] - 1])
    ensures cwd[p] == i ==> InodesOk(icache, files, cwd[p := -1], ihold[i := ihold[i] + 1])
  {
    forall j | 0 <= j < |icache|
      ensures Tally(cwd[p := i], j) + One(cwd[p] == j) == Tally(cwd, j) + One(i == j)
      ensures Tally(cwd[p := -1], j) + One(cwd[p] == j) == Tally(cwd, j)
    {
      TallyPut(cwd, p, i, j);
      TallyPut(cwd, p, -1, j);
    }
  }

  // ---- Pipe ends

  /** pipeclose */
  function Shut(pipes: map<nat, (bool, bool)>, p: nat, writable: bool): (r: map<nat, (bool, bool)>) {
    if p in pipes then pipes[p := if writable then (pipes[p].0, false) else (false, pipes[p].1)] else pipes
  }

  lemma PipeClosed(files: seq<File>, pipes: map<nat, (bool, bool)>, f: nat, x: File)
    requires PipesOk(files, pipes) && f < |files| && files[f].kind.PipeEnd? && x.kind == NoKind
    ensures PipesOk(files[f := x], Shut(pipes, files[f].kind.p, files[f].kind.writable))
  {
    var files', pipes' := files[f := x], Shut(pipes, files[f].kind.p, files[f].kind.writable);
    forall p, w | Open(pipes', p, w) ensures Holder(files', p, w) {
      assert Open(pipes, p, w) && Holder(files, p, w);
      var g :| 0 <= g < |files| && files[g].kind == PipeEnd(p, w);
      assert g != f && files'[g].kind == PipeEnd(p, w);
    }
  }

  lemma PipeOther(files: seq<File>, pipes: map<nat, (bool, bool)>, f: nat, x: File)
    requires PipesOk(files, pipes) && f < |files| &&
      ((!files[f].kind.PipeEnd? && !x.kind.PipeEnd?) || x.kind == files[f].kind)
    ensures PipesOk(files[f := x], pipes)
  {
    var files' := files[f := x];
    forall p, w | Open(pipes, p, w) ensures Holder(files', p, w) {
      assert Holder(files, p, w);
      var g :| 0 <= g < |files| && files[g].kind == PipeEnd(p, w);
      assert files'[g].kind == PipeEnd(p, w);
    }
  }

  /** pipealloc gives both ends of a new pipe to two files. */
  lemma PipeMade(files: seq<File>, pipes: map<nat, (bool, bool)>, p: nat, f: nat, g: nat, x: File, y: File)
    requires PipesOk(files, pipes) && f < |files| && g < |files| && f != g &&
      (p in pipes ==> pipes[p] == (false, false))
    requires files[f].kind == NoKind && files[g].kind == NoKind && x.kind == PipeEnd(p, false) &&
      y.kind == PipeEnd(p, true)
    ensures PipesOk(files[f := x][g := y], pipes[p := (true, true)])
  {
    var files', pipes' := files[f := x][g := y], pipes[p := (true, true)];
    forall q, w | Open(pipes', q, w) ensures Holder(files', q, w) {
      if q == p {
        assert files'[if w then g else f].kind == PipeEnd(p, w);
      } else {
        assert Open(pipes, q, w) && Holder(files, q, w);
        var h :| 0 <= h < |files| && files[h].kind == PipeEnd(q, w);
        assert files'[h].kind == PipeEnd(q, w);
      }
    }
    forall h | 0 <= h < |files| && files[h].kind.PipeEnd? ensures files[h].kind.p != p {
      assert Open(pipes, files[h].kind.p, files[h].kind.writable);
    }
  }

  // ---- Links

  /** iput of an entry: the inode goes from the disk exactly when this was the last reference
      and it has no links. */
  lemma PutLinks(icache: seq<CInode>, files: seq<File>, cwd: seq<int>, ihold: seq<int>, links: map<nat, nat>, i: nat,
      e: CInode)
    requires InodesOk(icache, files, cwd, ihold) && LinksOk(icache, links) && i < |icache| && icache[i].ref >= 1
    requires e.ref == icache[i].ref - 1 && e.inum == icache[i].inum
    requires var last := icache[i].ref == 1 && icache[i].valid && icache[i].nlink == 0;
      if last then !e.valid else e.valid == icache[i].valid && e.nlink == icache[i].nlink
    ensures var last := icache[i].ref == 1 && icache[i].valid && icache[i].nlink == 0;
      LinksOk(icache[i := e], if last then links - {icache[i].inum} else links)
  {
    var last := icache[i].ref == 1 && icache[i].valid && icache[i].nlink == 0;
    var links' := if last then links - {icache[i].inum} else links;
    forall n | n in links' && links'[n] == 0 ensures Kept(icache[i := e], n) {
      assert n in links && links[n] == 0;
      var j :| 0 <= j < |icache| && icache[j].ref > 0 && icache[j].inum == n && icache[j].valid;
      assert icache[i := e][j].ref > 0;
    }
  }

  /** A new entry, or one more reference, or an entry read from disk. */
  lemma TakeLinks(icache: seq<CInode>, links: map<nat, nat>, i: nat, e: CInode)
    requires LinksOk(icache, links) && i < |icache| && e.ref > 0
    requires icache[i].ref <= 0 ==> !e.valid
    requires icache[i].ref > 0 ==>
      e.inum == icache[i].inum && (icache[i].valid ==> e.valid && e.nlink == icache[i].nlink)
    requires e.valid ==> e.inum in links && links[e.inum] == e.nlink
    ensures LinksOk(icache[i := e], links)
  {
    forall n | n in links && links[n] == 0 ensures Kept(icache[i := e], n) {
      var j :| 0 <= j < |icache| && icache[j].ref > 0 && icache[j].inum == n && icache[j].valid;
      assert icache[i := e][j].valid && icache[i := e][j].ref > 0 && icache[i := e][j].inum == n;
    }
  }

  /** A link count changes, in the entry and on disk. */
  lemma SetLinks(icache: seq<CInode>, files: seq<File>, cwd: seq<int>, ihold: seq<int>, links: map<nat, nat>, i: nat,
      n: nat)
    requires InodesOk(icache, files, cwd, ihold) && LinksOk(icache, links) && i < |icache| && icache[i].ref > 0 &&
      icache[i].valid
    ensures LinksOk(icache[i := icache[i].(nlink := n)], links[icache[i].inum := n])
  {
    var icache', links' := icache[i := icache[i].(nlink := n)], links[icache[i].inum := n];
    forall m | m in links' && links'[m] == 0 ensures Kept(icache', m) {
      if m == icache[i].inum {
        assert icache'[i].valid && icache'[i].ref > 0;
      } else {
        var j :| 0 <= j < |icache| && icache[j].ref > 0 && icache[j].inum == m && icache[j].valid;
        assert icache'[j].inum == m && icache'[j].valid && icache'[j].ref > 0;
      }
    }
  }
}
