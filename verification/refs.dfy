/** Open files, descriptors, working directories and the inode cache, as the system calls
    change them (kernel/file.c, kernel/fs.c, kernel/sysfile.c, kernel/proc.c). */
module Refs {
  import opened RefCounts

  const NOFILE: nat := 16

  /** File f is an end of pipe p. */
  predicate HoldsEnd(files: seq<File>, f: int, p: nat, writable: bool) {
    0 <= f < |files| && files[f] == File(1, PipeEnd(p, writable))
  }

  /** A working directory is counted. */
  lemma CwdRef(icache: seq<CInode>, files: seq<File>, cwd: seq<int>, ihold: seq<int>, p: nat)
    requires InodesOk(icache, files, cwd, ihold) && p < |cwd| && cwd[p] >= 0 && forall i :: 0 <= i < |ihold| ==>
      ihold[i] == 0
    ensures icache[cwd[p]].ref >= 1
  {
    TallySome(cwd, p, cwd[p]);
  }

  /** The file of a process's descriptor, or -1. */
  function FileAt(slots: seq<int>, p: nat, fd: int): (f: int) {
    if 0 <= fd < NOFILE && p * NOFILE + fd < |slots| then slots[p * NOFILE + fd] else -1
  }

  /** Every descriptor of the process is in use. */
  predicate NoFd(slots: seq<int>, p: nat) {
    forall fd :: 0 <= fd < NOFILE ==> FileAt(slots, p, fd) != -1
  }

  /** At most one descriptor of the process is unused. */
  predicate OneFd(slots: seq<int>, p: nat) {
    forall e, fd :: 0 <= e < fd < NOFILE ==> FileAt(slots, p, e) != -1 || FileAt(slots, p, fd) != -1
  }

  /** Every file is in use. */
  predicate NoFile(files: seq<File>) {
    forall f :: 0 <= f < |files| ==> files[f].ref != 0
  }

  /** At most one file is unused. */
  predicate OneFile(files: seq<File>) {
    forall f, g :: 0 <= f < g < |files| ==> files[f].ref != 0 || files[g].ref != 0
  }

  /** A store to one descriptor changes no other. */
  lemma FileAtPut(slots: seq<int>, p: nat, fd: nat, f: int)
    requires fd < NOFILE && p * NOFILE + fd < |slots|
    ensures forall q: nat, e {:trigger FileAt(slots[p * NOFILE + fd := f], q, e)} ::
      FileAt(slots[p * NOFILE + fd := f], q, e) == if q == p && e == fd then f else FileAt(slots, q, e)
  {
  }

  /** With one unused descriptor taken, none is left exactly when there was only that one. */
  lemma TakenFd(slots: seq<int>, p: nat, fd: nat, f: nat)
    requires fd < NOFILE && p * NOFILE + fd < |slots| && slots[p * NOFILE + fd] == -1
    ensures NoFd(slots[p * NOFILE + fd := f], p) <==> OneFd(slots, p)
  {
    var now := slots[p * NOFILE + fd := f];
    FileAtPut(slots, p, fd, f);
    assert FileAt(slots, p, fd) == -1 && FileAt(now, p, fd) == f;
    if NoFd(now, p) {
      forall e, g | 0 <= e < g < NOFILE ensures FileAt(slots, p, e) != -1 || FileAt(slots, p, g) != -1 {
        assert FileAt(now, p, e) != -1 && FileAt(now, p, g) != -1;
      }
    }
    if OneFd(slots, p) {
      forall e | 0 <= e < NOFILE ensures FileAt(now, p, e) != -1 {
        assert e != fd ==> FileAt(slots, p, e) != -1;
      }
    }
  }

  lemma PutBack(slots: seq<int>, k: nat, f: int)
    requires k < |slots| && slots[k] == -1
    ensures slots[k := f][k := -1] == slots
  {
  }

  /** The inodes on disk after the last reference to an entry without links is dropped, and otherwise. */
  function LinksAfter(icache: seq<CInode>, links: map<nat, nat>, i: nat): (r: map<nat, nat>) {
    if i < |icache| && icache[i].ref == 1 && icache[i].valid &&
      icache[i].nlink == 0 then links - {icache[i].inum} else links
  }

  /** With its references counted in nature, an entry in kernel hands has one. */
  lemma HeldRef(icache: seq<CInode>, files: seq<File>, cwd: seq<int>, ihold: seq<int>, i: nat)
    requires InodesOk(icache, files, cwd, ihold) && i < |icache|
    ensures ihold[i] >= 1 ==> icache[i].ref >= 1
  {
  }

  /** One reference to entry i less: what an iput leaves. */
  lemma PutEntry(icache: seq<CInode>, files: seq<File>, cwd: seq<int>, ihold: seq<int>, links: map<nat, nat>, i: nat,
      e: CInode)
    requires InodesOk(icache, files, cwd, ihold) && LinksOk(icache, links) && i < |icache| && icache[i].ref >= 1
    requires var last := icache[i].ref == 1 && icache[i].valid && icache[i].nlink == 0;
      e == icache[i].(ref := icache[i].ref - 1, valid := icache[i].valid && !last)
    ensures var links' := LinksAfter(icache, links, i);
      && InodesOk(icache[i := e], files, cwd, ihold[i := ihold[i] - 1]) && LinksOk(icache[i := e], links')
      && LinksKept(links, links', icache[i := e])
  {
    PutLinks(icache, files, cwd, ihold, links, i, e);
    InodeRef(icache, files, cwd, ihold, i, e, ihold[i] - 1);
    LinksFreed(icache, links, i, icache[i := e], LinksAfter(icache, links, i));
  }

  lemma PutBackAt<T>(s: seq<T>, k: nat, x: T)
    requires k < |s|
    ensures s[k := x][k := s[k]] == s
  {
  }

  /** Closing both ends of a new pipe. */
  lemma EndsClosed(was: seq<File>, open: map<nat, (bool, bool)>, f: nat, g: nat, p: nat)
    requires f < |was| && g < |was| && f != g && was[f] == was[g] == File(0, NoKind)
    ensures was[f := File(1, PipeEnd(p, false))][g := File(1, PipeEnd(p, true))][f := File(0, NoKind)][
      g := File(0, NoKind)] == was
    ensures Shut(Shut(open[p := (true, true)], p, false), p, true) == open[p := (false, false)]
  {
  }

  lemma {:induction false} NoFiles(files: seq<File>, i: nat)
    requires forall f :: 0 <= f < |files| ==> !files[f].kind.OnInode?
    ensures FilesOn(files, i) == 0
  {
    if files != [] {
      NoFiles(files[..|files| - 1], i);
    }
  }

  /** A file's count alone does not matter to the inodes. */
  lemma SameKind(icache: seq<CInode>, files: seq<File>, cwd: seq<int>, ihold: seq<int>, f: nat, x: File)
    requires InodesOk(icache, files, cwd, ihold) && f < |files| && x.kind == files[f].kind
    ensures InodesOk(icache, files[f := x], cwd, ihold)
  {
    forall i: nat ensures FilesOn(files[f := x], i) == FilesOn(files, i) {
      FilesOnPut(files, f, x, i);
    }
  }

  class Kernel {
    var files: seq<File>                    // ftable.file
    var icache: seq<CInode>                 // icache.inode
    var slots: seq<int>                     // proc[p].ofile[fd] at p * NOFILE + fd; -1 for none
    var cwd: seq<int>                       // proc[p].cwd
    var pipes: map<nat, (bool, bool)>       // readopen and writeopen
    var links: map<nat, nat>                // link counts of the inodes on disk
    ghost var hold: seq<int>                // references to files in kernel hands
    ghost var ihold: seq<int>               // references to inodes in kernel hands

    constructor (nfile: nat, ninode: nat, nproc: nat, links: map<nat, nat>)
      requires forall n :: n in links ==> links[n] > 0
      ensures Valid() && |files| == nfile && |icache| == ninode && |cwd| == nproc
      ensures hold == seq(nfile, _ => 0) && ihold == seq(ninode, _ => 0)
    {
      files := seq(nfile, _ => File(0, NoKind));
      icache := seq(ninode, _ => CInode(0, 0, false, 0));
      slots, cwd := seq(nproc * NOFILE, _ => -1), seq(nproc, _ => -1);
      pipes, this.links := map[], links;
      hold, ihold := seq(nfile, _ => 0), seq(ninode, _ => 0);
      new;
      forall f | 0 <= f < nfile ensures Tally(slots, f) == 0 {
        TallyZero(slots, f);
      }
      forall i: nat | i < ninode ensures Tally(cwd, i) == 0 && FilesOn(files, i) == 0 {
        TallyZero(cwd, i);
        NoFiles(files, i);
      }
    }

    ghost predicate Valid()
      reads this
    {
      && FilesOk(files, slots, hold) && InodesOk(icache, files, cwd, ihold) && PipesOk(files, pipes) &&
        LinksOk(icache, links)
      && |slots| == |cwd| * NOFILE
    }

    /** filealloc: the first file without references, or -1. */
    method Filealloc() returns (f: int)
      requires Valid()
      modifies this`files, this`hold
      ensures Valid() && |files| == |old(files)|
      ensures f == -1 ==> files == old(files) && hold == old(hold) && forall g :: 0 <= g < |files| ==> files[g].ref != 0
      ensures f != -1 ==> 0 <= f < |files| && old(files)[f].ref == 0 && files == old(files)[f := File(1, NoKind)]
      ensures f != -1 ==> hold == old(hold)[f := old(hold)[f] + 1]
    {
      f := 0;
      while f < |files|
        invariant 0 <= f <= |files| && files == old(files) && hold == old(hold)
        invariant forall g :: 0 <= g < f ==> files[g].ref != 0
      {
        if files[f].ref == 0 {
          FileRef(files, slots, hold, f, 1, hold[f] + 1, NoKind);
          FileInode(icache, files, cwd, ihold, f, File(1, NoKind));
          PipeOther(files, pipes, f, File(1, NoKind));
          files := files[f := files[f].(ref := 1)];
          hold := hold[f := hold[f] + 1];
          return f;
        }
        f := f + 1;
      }
      return -1;
    }

    /** filedup */
    method Filedup(f: nat) returns (panics: bool)
      requires Valid() && f < |files|
      modifies this`files, this`hold
      ensures panics <==> old(files)[f].ref < 1
      ensures !panics ==>
        Valid() && files == old(files)[f := File(old(files)[f].ref + 1, old(files)[f].kind)] &&
        hold == old(hold)[f := old(hold)[f] + 1]
    {
      if files[f].ref < 1 {
        return true;
      }
      var x := File(files[f].ref + 1, files[f].kind);
      FileRef(files, slots, hold, f, x.ref, hold[f] + 1, x.kind);
      SameKind(icache, files, cwd, ihold, f, x);
      PipeOther(files, pipes, f, x);
      files := files[f := x];
      hold := hold[f := hold[f] + 1];
      panics := false;
    }

    /** iput: the inode is freed on disk exactly when this was the last reference to a valid
        entry without links. */
    method Iput(i: nat)
      requires Valid() && i < |icache| && icache[i].ref >= 1
      modifies this`icache, this`links, this`ihold
      ensures Valid() && ihold == old(ihold)[i := old(ihold)[i] - 1] && |icache| == |old(icache)|
      ensures icache[i].ref == old(icache)[i].ref - 1 && forall j :: 0 <= j < |icache| && j != i ==>
        icache[j] == old(icache)[j]
      ensures links == LinksAfter(old(icache), old(links), i) && LinksKept(old(links), links, icache)
    {
      var e, on := icache[i], links;
      if e.ref == 1 && e.valid && e.nlink == 0 {
        on := on - {e.inum};
        e := e.(valid := false);
      }
      e := e.(ref := e.ref - 1);
      PutEntry(icache, files, cwd, ihold, links, i, e);
      assert on == LinksAfter(icache, links, i);
      icache, links, ihold := icache[i := e], on, ihold[i := ihold[i] - 1];
    }

    /** iget: the live entry of the inode, or a new one; -1 where the kernel panics. */
    method Iget(inum: nat) returns (i: int)
      requires Valid()
      modifies this`icache, this`ihold
      ensures Valid() && |icache| == |old(icache)|
      ensures i == -1 ==> icache == old(icache) && ihold == old(ihold) && forall j :: 0 <= j < |icache| ==>
        icache[j].ref != 0 && !(icache[j].ref > 0 && icache[j].inum == inum)
      ensures i != -1 ==>
        0 <= i < |icache| && icache[i].ref > 0 && icache[i].inum == inum && ihold == old(ihold)[i := old(ihold)[i] + 1]
      ensures i != -1 ==> icache == old(icache)[i :=
        if old(icache)[i].ref > 0 then old(icache)[i].(ref := old(icache)[i].ref + 1) else CInode(1, inum, false, 0)]
    {
      var empty := -1;
      var ip := 0;
      while ip < |icache|
        invariant 0 <= ip <= |icache| && icache == old(icache) && ihold == old(ihold)
        invariant forall j :: 0 <= j < ip ==> !(icache[j].ref > 0 && icache[j].inum == inum)
        invariant if empty == -1 then forall j :: 0 <= j < ip ==>
          icache[j].ref != 0 else 0 <= empty < ip && icache[empty].ref == 0
      {
        if icache[ip].ref > 0 && icache[ip].inum == inum {
          Take(ip, icache[ip].(ref := icache[ip].ref + 1));
          return ip;
        }
        if empty == -1 && icache[ip].ref == 0 {
          empty := ip;
        }
        ip := ip + 1;
      }
      if empty == -1 {
        return -1;
      }
      Take(empty, CInode(1, inum, false, 0));
      i := empty;
    }

    /** One more reference to entry i, in kernel hands. */
    method Take(i: nat, e: CInode)
      requires Valid() && i < |icache| && e.ref == icache[i].ref + 1 && e.ref > 0
      requires icache[i].ref <= 0 ==> !e.valid
      requires icache[i].ref > 0 ==>
        e.inum == icache[i].inum && e.valid == icache[i].valid && e.nlink == icache[i].nlink
      requires forall j :: 0 <= j < |icache| && j != i && icache[j].ref > 0 ==> icache[j].inum != e.inum
      modifies this`icache, this`ihold
      ensures Valid() && icache == old(icache)[i := e] && ihold == old(ihold)[i := old(ihold)[i] + 1]
    {
      TakeLinks(icache, links, i, e);
      InodeRef(icache, files, cwd, ihold, i, e, ihold[i] + 1);
      icache := icache[i := e];
      ihold := ihold[i := ihold[i] + 1];
    }

    /** idup */
    method Idup(i: nat)
      requires Valid() && i < |icache| && icache[i].ref >= 1
      modifies this`icache, this`ihold
      ensures Valid() && icache == old(icache)[i := old(icache)[i].(ref := old(icache)[i].ref + 1)] &&
        ihold == old(ihold)[i := old(ihold)[i] + 1]
    {
      Take(i, icache[i].(ref := icache[i].ref + 1));
    }

    /** ilock: reads the inode from disk unless the entry is valid. */
    method Ilock(i: nat)
      requires Valid() && i < |icache| && icache[i].ref >= 1 && icache[i].inum in links
      modifies this`icache
      ensures Valid() && icache == old(icache)[i := old(icache)[i].(valid := true, nlink := links[old(icache)[i].inum])]
    {
      var e := icache[i];
      if !e.valid {
        e := e.(valid := true, nlink := links[e.inum]);
      }
      TakeLinks(icache, links, i, e);
      InodeRef(icache, files, cwd, ihold, i, e, ihold[i]);
      assert ihold[i := ihold[i]] == ihold;
      icache := icache[i := e];
    }

    /** A change of a locked inode's link count, followed by iupdate. */
    method SetNlink(i: nat, n: nat)
      requires Valid() && i < |icache| && icache[i].ref >= 1 && icache[i].valid
      modifies this`icache, this`links
      ensures Valid() && icache == old(icache)[i := old(icache)[i].(nlink := n)] &&
        links == old(links)[old(icache)[i].inum := n]
    {
      var e := icache[i].(nlink := n);
      SetLinks(icache, files, cwd, ihold, links, i, n);
      InodeRef(icache, files, cwd, ihold, i, e, ihold[i]);
      assert ihold[i := ihold[i]] == ihold;
      links := links[icache[i].inum := n];
      icache := icache[i := e];
    }

    /** fileclose: what the file stands for is released exactly with the last reference. */
    method Fileclose(f: nat) returns (panics: bool)
      requires Valid() && f < |files| && forall i :: 0 <= i < |ihold| ==> ihold[i] >= 0
      modifies this`files, this`hold, this`pipes, this`icache, this`links, this`ihold
      ensures panics <==> old(files)[f].ref < 1
      ensures !panics ==>
        Valid() && hold == old(hold)[f := old(hold)[f] - 1] && ihold == old(ihold) && |icache| == |old(icache)|
      ensures !panics ==>
        files == old(files)[f := if old(files)[f].ref == 1 then File(0, NoKind)
        else File(old(files)[f].ref - 1, old(files)[f].kind)]
      ensures !panics ==>
        pipes == if old(files)[f].ref == 1 &&
        old(files)[f].kind.PipeEnd? then Shut(old(pipes), old(files)[f].kind.p, old(files)[f].kind.writable)
        else old(pipes)
      ensures !panics && !(old(files)[f].ref == 1 && old(files)[f].kind.OnInode?) ==>
        icache == old(icache) && links == old(links)
      ensures !panics && old(files)[f].ref == 1 && old(files)[f].kind.OnInode? ==>
        icache[old(files)[f].kind.i].ref == old(icache)[old(files)[f].kind.i].ref - 1 &&
          links == LinksAfter(old(icache), old(links), old(files)[f].kind.i)
      ensures !panics ==> LinksKept(old(links), links, icache)
    {
      var ff := files[f];
      if ff.ref < 1 {
        return true;
      }
      panics := false;
      LinksSame(links, icache);
      if ff.ref > 1 {
        Drop(f);
        return;
      }
      Release(f);
      if ff.kind.OnInode? {
        PutReleased(ff.kind.i, old(ihold));
      }
    }

    /** One reference of several goes. */
    method Drop(f: nat)
      requires Valid() && f < |files| && files[f].ref > 1
      modifies this`files, this`hold
      ensures Valid() && files == old(files)[f := File(old(files)[f].ref - 1, old(files)[f].kind)] &&
        hold == old(hold)[f := old(hold)[f] - 1]
    {
      var x := File(files[f].ref - 1, files[f].kind);
      FileRef(files, slots, hold, f, x.ref, hold[f] - 1, x.kind);
      SameKind(icache, files, cwd, ihold, f, x);
      PipeOther(files, pipes, f, x);
      files, hold := files[f := x], hold[f := hold[f] - 1];
    }

    /** iput of the reference a closed file left. */
    method PutReleased(i: nat, ghost was: seq<int>)
      requires Valid() && i < |icache| == |was| && was[i] >= 0 && ihold == was[i := was[i] + 1]
      modifies this`icache, this`links, this`ihold
      ensures Valid() && ihold == was && |icache| == |old(icache)| && icache[i].ref == old(icache)[i].ref - 1
      ensures links == LinksAfter(old(icache), old(links), i) && LinksKept(old(links), links, icache)
    {
      HeldRef(icache, files, cwd, ihold, i);
      Iput(i);
      assert ihold == was;
    }

    /** The end of the last reference to a file; an inode's reference is left in kernel hands. */
    method Release(f: nat)
      requires Valid() && f < |files| && files[f].ref == 1
      modifies this`files, this`hold, this`pipes, this`ihold
      ensures Valid() && files == old(files)[f := File(0, NoKind)] && hold == old(hold)[f := old(hold)[f] - 1]
      ensures pipes == if old(files)[f].kind.PipeEnd? then Shut(old(pipes), old(files)[f].kind.p,
        old(files)[f].kind.writable) else old(pipes)
      ensures old(files)[f].kind.OnInode? ==>
        old(files)[f].kind.i < |icache| &&
        ihold == old(ihold)[old(files)[f].kind.i := old(ihold)[old(files)[f].kind.i] + 1]
      ensures !old(files)[f].kind.OnInode? ==> ihold == old(ihold)
    {
      var ff, x := files[f], File(0, NoKind);
      FileRef(files, slots, hold, f, 0, hold[f] - 1, NoKind);
      FileInode(icache, files, cwd, ihold, f, x);
      if ff.kind.PipeEnd? {
        PipeClosed(files, pipes, f, x);
        pipes := Shut(pipes, ff.kind.p, ff.kind.writable);
      } else {
        PipeOther(files, pipes, f, x);
      }
      if ff.kind.OnInode? {
        ihold := ihold[ff.kind.i := ihold[ff.kind.i] + 1];
      }
      files, hold := files[f := x], hold[f := hold[f] - 1];
    }

    // ---- System calls

    /** No references in kernel hands: the state between system calls. */
    ghost predicate Quiet()
      reads this
    {
      (forall f :: 0 <= f < |hold| ==> hold[f] == 0) && (forall i :: 0 <= i < |ihold| ==> ihold[i] == 0)
    }

    /** The one reference in kernel hands is to inode i. */
    ghost predicate HandsOn(i: nat)
      reads this
    {
      && i < |icache| && i < |ihold| && ihold[i] == 1 && (forall j :: 0 <= j < |ihold| && j != i ==> ihold[j] == 0)
      && forall f :: 0 <= f < |hold| ==> hold[f] == 0
    }

    /** fdalloc: the first unused descriptor takes over a reference to f. */
    method Fdalloc(p: nat, f: nat) returns (fd: int)
      requires Valid() && p < |cwd| && f < |files|
      modifies this`slots, this`hold
      ensures Valid() && -1 <= fd < NOFILE
      ensures forall e :: 0 <= e < fd ==> FileAt(old(slots), p, e) != -1
      ensures fd == -1 <==> NoFd(old(slots), p)
      ensures fd == -1 ==> slots == old(slots) && hold == old(hold)
      ensures fd != -1 ==>
        old(slots)[p * NOFILE + fd] == -1 && slots == old(slots)[p * NOFILE + fd := f] &&
        hold == old(hold)[f := old(hold)[f] - 1]
    {
      fd := 0;
      while fd < NOFILE
        invariant 0 <= fd <= NOFILE && slots == old(slots) && hold == old(hold)
        invariant forall e :: 0 <= e < fd ==> FileAt(slots, p, e) != -1
      {
        if slots[p * NOFILE + fd] == -1 {
          assert FileAt(slots, p, fd) == -1;
          SetSlot(p * NOFILE + fd, f);
          return;
        }
        fd := fd + 1;
      }
      fd := -1;
    }

    /** A descriptor takes over a reference. */
    method SetSlot(k: nat, f: nat)
      requires Valid() && k < |slots| && slots[k] == -1 && f < |files|
      modifies this`slots, this`hold
      ensures Valid() && slots == old(slots)[k := f] && hold == old(hold)[f := old(hold)[f] - 1]
    {
      SlotRef(files, slots, hold, k, f);
      slots := slots[k := f];
      hold := hold[f := hold[f] - 1];
    }

    /** sys_dup */
    method SysDup(p: nat, fd: int) returns (r: int, panics: bool)
      requires Valid() && Quiet() && p < |cwd|
      modifies this`files, this`slots, this`hold
      ensures !panics && Valid() && Quiet()
      ensures r == -1 <==> FileAt(old(slots), p, fd) == -1 || NoFd(old(slots), p)
      ensures r == -1 ==> slots == old(slots) && files == old(files)
      ensures r != -1 ==>
        0 <= r < NOFILE && FileAt(old(slots), p, fd) >= 0 &&
        slots == old(slots)[p * NOFILE + r := FileAt(old(slots), p, fd)]
      ensures r != -1 ==> FileAt(old(slots), p, r) == -1 && forall e :: 0 <= e < r ==> FileAt(old(slots), p, e) != -1
    {
      panics := false;
      var f := FileAt(slots, p, fd);
      if f == -1 {
        return -1, false;
      }
      TallySome(slots, p * NOFILE + fd, f);
      r := Fdalloc(p, f);
      if r == -1 {
        return;
      }
      panics := Filedup(f);
    }

    /** A descriptor gives its reference back. */
    method ClearSlot(k: nat)
      requires Valid() && k < |slots| && slots[k] >= 0
      modifies this`slots, this`hold
      ensures Valid() && slots == old(slots)[k := -1] &&
        hold == old(hold)[old(slots)[k] := old(hold)[old(slots)[k]] + 1]
    {
      SlotRef(files, slots, hold, k, slots[k]);
      hold := hold[slots[k] := hold[slots[k]] + 1];
      slots := slots[k := -1];
    }

    /** sys_close */
    method SysClose(p: nat, fd: int) returns (r: int, panics: bool)
      requires Valid() && Quiet() && p < |cwd|
      modifies this`files, this`slots, this`hold, this`pipes, this`icache, this`links, this`ihold
      ensures !panics && Valid() && Quiet() && r == if FileAt(old(slots), p, fd) >= 0 then 0 else -1
      ensures r == 0 ==> slots == old(slots)[p * NOFILE + fd := -1]
      ensures r == -1 ==>
        slots == old(slots) && files == old(files) && pipes == old(pipes) && icache == old(icache) &&
        links == old(links)
      ensures LinksKept(old(links), links, icache)
    {
      panics := false;
      LinksSame(links, icache);
      var f := FileAt(slots, p, fd);
      if f == -1 {
        return -1, false;
      }
      TallySome(slots, p * NOFILE + fd, f);
      ClearSlot(p * NOFILE + fd);
      panics := Fileclose(f);
      r := 0;
    }

    /** A new file gets a descriptor and the inode meant for it, or both are given up. */
    method GiveFd(p: nat, f: nat, i: nat) returns (fd: int)
      requires Valid() && p < |cwd| && f < |files| && files[f] == File(1, NoKind) && i < |icache|
      requires ihold[i] == 1 && forall j :: 0 <= j < |ihold| && j != i ==> ihold[j] == 0
      requires hold[f] == 1 && forall g :: 0 <= g < |hold| && g != f ==> hold[g] == 0
      modifies this`files, this`slots, this`hold, this`pipes, this`icache, this`links, this`ihold
      ensures Valid() && Quiet() && -1 <= fd < NOFILE && |icache| == |old(icache)|
      ensures fd == -1 <==> NoFd(old(slots), p)
      ensures fd == -1 ==> slots == old(slots) && icache[i].ref == old(icache)[i].ref - 1
      ensures fd != -1 ==>
        icache == old(icache) && FileAt(slots, p, fd) == f && f < |files| && files[f] == File(1, OnInode(i))
      ensures fd != -1 ==> FileAt(old(slots), p, fd) == -1 && forall e :: 0 <= e < fd ==> FileAt(old(slots), p, e) != -1
      ensures fd != -1 ==> slots == old(slots)[p * NOFILE + fd := f]
      ensures LinksKept(old(links), links, icache)
    {
      LinksSame(links, icache);
      fd := Fdalloc(p, f);
      if fd == -1 {
        Undo(f, i);
        return;
      }
      SetInode(f, i);
    }

    /** The end of sys_open: a descriptor for inode i, whose reference is in kernel hands. */
    method SysOpen(p: nat, i: nat) returns (fd: int, panics: bool)
      requires Valid() && p < |cwd| && HandsOn(i)
      modifies this`files, this`slots, this`hold, this`pipes, this`icache, this`links, this`ihold
      ensures !panics && Valid() && Quiet() && -1 <= fd < NOFILE && |icache| == |old(icache)|
      ensures fd == -1 <==> NoFile(old(files)) || NoFd(old(slots), p)
      ensures fd == -1 ==> slots == old(slots) && icache[i].ref == old(icache)[i].ref - 1
      ensures fd != -1 ==>
        icache == old(icache) && FileAt(slots, p, fd) >= 0 && files[FileAt(slots, p, fd)] == File(1, OnInode(i))
      ensures fd != -1 ==> FileAt(old(slots), p, fd) == -1 && forall e :: 0 <= e < fd ==> FileAt(old(slots), p, e) != -1
      ensures fd != -1 ==> slots == old(slots)[p * NOFILE + fd := FileAt(slots, p, fd)]
      ensures LinksKept(old(links), links, icache)
    {
      panics := false;
      var f := Filealloc();
      if f == -1 {
        DropInode(i);
        return -1, false;
      }
      fd := GiveFd(p, f, i);
    }

    /** A new file and the inode meant for it are given up. */
    method Undo(f: nat, i: nat)
      requires Valid() && f < |files| && files[f] == File(1, NoKind) && i < |icache| && ihold[i] == 1 &&
        (forall j :: 0 <= j < |ihold| && j != i ==> ihold[j] == 0)
      requires hold[f] == 1 && forall g :: 0 <= g < |hold| && g != f ==> hold[g] == 0
      modifies this`files, this`hold, this`pipes, this`icache, this`links, this`ihold
      ensures Valid() && Quiet() && |icache| == |old(icache)| && icache[i].ref == old(icache)[i].ref - 1
      ensures LinksKept(old(links), links, icache)
    {
      var panics := Fileclose(f);
      DropInode(i);
    }

    /** iput of the one reference in kernel hands. */
    method DropInode(i: nat)
      requires Valid() && HandsOn(i)
      modifies this`icache, this`links, this`ihold
      ensures Valid() && Quiet() && |icache| == |old(icache)| && icache[i].ref == old(icache)[i].ref - 1
      ensures LinksKept(old(links), links, icache)
    {
      HeldRef(icache, files, cwd, ihold, i);
      Iput(i);
    }

    /** f->type = FD_INODE, f->ip = ip */
    method SetInode(f: nat, i: nat)
      requires Valid() && f < |files| && i < |icache| && files[f].kind == NoKind && files[f].ref > 0
      modifies this`files, this`ihold
      ensures Valid() && files == old(files)[f := File(old(files)[f].ref, OnInode(i))] &&
        ihold == old(ihold)[i := old(ihold)[i] - 1]
    {
      var x := File(files[f].ref, OnInode(i));
      FileRef(files, slots, hold, f, x.ref, hold[f], x.kind);
      assert hold[f := hold[f]] == hold;
      FileInode(icache, files, cwd, ihold, f, x);
      PipeOther(files, pipes, f, x);
      files, ihold := files[f := x], ihold[i := ihold[i] - 1];
    }

    /** sys_chdir, once the inode is known to be a directory: its reference becomes the process's. */
    method SysChdir(p: nat, i: nat)
      requires Valid() && p < |cwd| && cwd[p] >= 0 && HandsOn(i)
      modifies this`cwd, this`icache, this`links, this`ihold
      ensures Valid() && Quiet() && cwd == old(cwd)[p := i] && LinksKept(old(links), links, icache)
    {
      LeaveCwd(p);
      EnterCwd(p, i);
    }

    /** iput(proc->cwd) */
    method LeaveCwd(p: nat)
      requires Valid() && p < |cwd| && cwd[p] >= 0 && forall i :: 0 <= i < |ihold| ==> ihold[i] >= 0
      modifies this`cwd, this`icache, this`links, this`ihold
      ensures Valid() && cwd == old(cwd)[p := -1] && ihold == old(ihold) && |icache| == |old(icache)|
      ensures icache[old(cwd)[p]].ref == old(icache)[old(cwd)[p]].ref - 1 &&
        links == LinksAfter(old(icache), old(links), old(cwd)[p])
      ensures LinksKept(old(links), links, icache)
    {
      var i := cwd[p];
      CwdInode(icache, files, cwd, ihold, p, i);
      cwd, ihold := cwd[p := -1], ihold[i := ihold[i] + 1];
      PutReleased(i, old(ihold));
    }

    /** proc->cwd = ip */
    method EnterCwd(p: nat, i: nat)
      requires Valid() && p < |cwd| && cwd[p] == -1 && i < |icache|
      modifies this`cwd, this`ihold
      ensures Valid() && cwd == old(cwd)[p := i] && ihold == old(ihold)[i := old(ihold)[i] - 1]
    {
      CwdInode(icache, files, cwd, ihold, p, i);
      cwd, ihold := cwd[p := i], ihold[i := ihold[i] - 1];
    }

    /** pipealloc; `page` is what kalloc gives, -1 for nothing. */
    method Pipealloc(page: int) returns (f0: int, f1: int)
      requires Valid() && Quiet() && (page in pipes ==> pipes[page] == (false, false))
      modifies this`files, this`hold, this`pipes, this`icache, this`links, this`ihold
      ensures Valid() && |files| == |old(files)| && ihold == old(ihold) && icache == old(icache) && links == old(links)
      ensures f0 == -1 <==> page < 0 || OneFile(old(files))
      ensures f0 == -1 ==> files == old(files) && hold == old(hold) && pipes == old(pipes)
      ensures f0 != -1 ==>
        0 <= f0 < |files| && 0 <= f1 < |files| && f0 != f1 && page >= 0 && old(files)[f0].ref == old(files)[f1].ref == 0
      ensures f0 != -1 ==> files == old(files)[f0 := File(1, PipeEnd(page, false))][f1 := File(1, PipeEnd(page, true))]
      ensures f0 != -1 ==> hold == old(hold)[f0 := 1][f1 := 1] && pipes == old(pipes)[page := (true, true)]
    {
      f0, f1 := TwoFiles();
      if f0 == -1 {
        return;
      }
      if page < 0 {
        CloseTwo(f0, f1, old(files), old(hold));
        return -1, -1;
      }
      SetPipe(f0, f1, page);
    }

    /** Two files just allocated are closed. */
    method CloseTwo(f0: nat, f1: nat, ghost was: seq<File>, ghost held: seq<int>)
      requires Valid() && (forall i :: 0 <= i < |ihold| ==> ihold[i] == 0)
      requires f0 < |was| == |held| && f1 < |was| && f0 != f1 && was[f0] == was[f1] == File(0, NoKind)
      requires files == was[f0 := File(1, NoKind)][f1 := File(1, NoKind)]
      requires held[f0] == held[f1] == 0 && hold == held[f0 := 1][f1 := 1]
      modifies this`files, this`hold, this`pipes, this`icache, this`links, this`ihold
      ensures Valid() && files == was && hold == held
      ensures pipes == old(pipes) && icache == old(icache) && links == old(links) && ihold == old(ihold)
    {
      CloseNew(f0);
      CloseNew(f1);
      assert files == was && hold == held;
    }

    /** The two calls of filealloc, the first undone where the second fails. */
    method TwoFiles() returns (f0: int, f1: int)
      requires Valid() && Quiet()
      modifies this`files, this`hold, this`pipes, this`icache, this`links, this`ihold
      ensures Valid() && |files| == |old(files)| && ihold == old(ihold) && icache == old(icache) &&
        links == old(links) && pipes == old(pipes)
      ensures f0 == -1 <==> OneFile(old(files))
      ensures f0 == -1 ==> files == old(files) && hold == old(hold)
      ensures f0 != -1 ==>
        0 <= f0 < |files| && 0 <= f1 < |files| && f0 != f1 && old(files)[f0] == old(files)[f1] == File(0, NoKind)
      ensures f0 != -1 ==>
        files == old(files)[f0 := File(1, NoKind)][f1 := File(1, NoKind)] && hold == old(hold)[f0 := 1][f1 := 1]
    {
      f0 := Filealloc();
      f1 := -1;
      if f0 == -1 {
        return;
      }
      f1 := Filealloc();
      if f1 == -1 {
        CloseNew(f0);
        PutBackAt(old(files), f0, File(1, NoKind));
        PutBackAt(old(hold), f0, old(hold)[f0] + 1);
        return -1, -1;
      }
    }

    /** fileclose of a file just allocated. */
    method CloseNew(f: nat)
      requires Valid() && f < |files| && files[f] == File(1, NoKind) && forall i :: 0 <= i < |ihold| ==> ihold[i] == 0
      modifies this`files, this`hold, this`pipes, this`icache, this`links, this`ihold
      ensures Valid() && files == old(files)[f := File(0, NoKind)] && hold == old(hold)[f := old(hold)[f] - 1]
      ensures pipes == old(pipes) && icache == old(icache) && links == old(links) && ihold == old(ihold)
    {
      var panics := Fileclose(f);
    }

    /** The two files become the ends of a pipe. */
    method SetPipe(f: nat, g: nat, p: nat)
      requires Valid() && f < |files| && g < |files| && f != g && files[f] == files[g] == File(1, NoKind) &&
        (p in pipes ==> pipes[p] == (false, false))
      modifies this`files, this`pipes
      ensures Valid() && files == old(files)[f := File(1, PipeEnd(p, false))][g := File(1, PipeEnd(p, true))] &&
        pipes == old(pipes)[p := (true, true)]
    {
      var x, y := File(1, PipeEnd(p, false)), File(1, PipeEnd(p, true));
      PipeMade(files, pipes, p, f, g, x, y);
      FileRef(files, slots, hold, f, 1, hold[f], x.kind);
      FileInode(icache, files, cwd, ihold, f, x);
      assert hold[f := hold[f]] == hold && hold[g := hold[g]] == hold;
      FileRef(files[f := x], slots, hold, g, 1, hold[g], y.kind);
      FileInode(icache, files[f := x], cwd, ihold, g, y);
      files := files[f := x][g := y];
      pipes := pipes[p := (true, true)];
    }

    /** sys_pipe */
    method SysPipe(p: nat, page: int) returns (fd0: int, fd1: int)
      requires Valid() && Quiet() && p < |cwd| && (page in pipes ==> pipes[page] == (false, false))
      modifies this`files, this`slots, this`hold, this`pipes, this`icache, this`links, this`ihold
      ensures Valid() && Quiet() && -1 <= fd0 < NOFILE && -1 <= fd1 < NOFILE && icache == old(icache) &&
        links == old(links)
      ensures fd0 == -1 <==> page < 0 || OneFile(old(files)) || OneFd(old(slots), p)
      ensures fd0 == -1 ==> slots == old(slots) && files == old(files)
      ensures fd0 == -1 ==> forall q, w :: Open(pipes, q, w) <==> Open(old(pipes), q, w)
      ensures fd0 != -1 ==> fd1 != -1 && fd0 != fd1 && page >= 0 && pipes == old(pipes)[page := (true, true)]
      ensures fd0 != -1 ==> FileAt(old(slots), p, fd0) == FileAt(old(slots), p, fd1) == -1
      ensures fd0 != -1 ==>
        slots == old(slots)[p * NOFILE + fd0 := FileAt(slots, p, fd0)][p * NOFILE + fd1 := FileAt(slots, p, fd1)]
      ensures fd0 != -1 ==>
        HoldsEnd(files, FileAt(slots, p, fd0), page, false) && HoldsEnd(files, FileAt(slots, p, fd1), page, true)
    {
      var rf, wf := Pipealloc(page);
      if rf == -1 {
        return -1, -1;
      }
      fd0, fd1 := GiveEnds(p, rf, wf, page, old(files), old(pipes));
    }

    /** Two files that are new are the ends of pipe p. */
    ghost predicate NewPipe(f: nat, g: nat, p: nat, was: seq<File>, open: map<nat, (bool, bool)>)
      reads this`files, this`pipes
    {
      && f < |files| == |was| && g < |files| && f != g && was[f] == was[g] == File(0, NoKind)
      && files == was[f := File(1, PipeEnd(p, false))][g := File(1, PipeEnd(p, true))]
      && pipes == open[p := (true, true)] && (p in open ==> open[p] == (false, false))
    }

    /** The hands of the kernel hold what a and b say of files f and g, and nothing else. */
    ghost predicate Hands(f: nat, g: nat, a: int, b: int)
      reads this`hold, this`ihold
    {
      && f < |hold| && g < |hold| && hold[f] == a && hold[g] == b
      && (forall h :: 0 <= h < |hold| && h != f && h != g ==> hold[h] == 0) && forall i :: 0 <= i < |ihold| ==>
        ihold[i] == 0
    }

    /** The descriptors of sys_pipe. */
    method GiveEnds(p: nat, f: nat, g: nat, page: nat, ghost was: seq<File>, ghost open: map<nat,
        (bool, bool)>) returns (fd0: int, fd1: int)
      requires Valid() && p < |cwd| && NewPipe(f, g, page, was, open) && Hands(f, g, 1, 1)
      modifies this`files, this`slots, this`hold, this`pipes, this`icache, this`links, this`ihold
      ensures Valid() && Quiet() && -1 <= fd0 < NOFILE && -1 <= fd1 < NOFILE && icache == old(icache) &&
        links == old(links)
      ensures fd0 == -1 <==> OneFd(old(slots), p)
      ensures fd0 == -1 ==> slots == old(slots) && files == was && pipes == open[page := (false, false)]
      ensures fd0 != -1 ==> fd1 != -1 && fd0 != fd1 && files == old(files) && pipes == old(pipes)
      ensures fd0 != -1 ==> old(slots)[p * NOFILE + fd0] == old(slots)[p * NOFILE + fd1] == -1
      ensures fd0 != -1 ==> slots == old(slots)[p * NOFILE + fd0 := f][p * NOFILE + fd1 := g]
    {
      fd0 := Fdalloc(p, f);
      if fd0 == -1 {
        CloseEnds(f, g, page, was, open);
        return -1, -1;
      }
      TakenFd(old(slots), p, fd0, f);
      fd1 := GiveSecond(p, fd0, f, g, page, was, open);
      if fd1 == -1 {
        PutBack(old(slots), p * NOFILE + fd0, f);
        return -1, -1;
      }
    }

    /** The write end's descriptor; without one, the read end's is taken back. */
    method GiveSecond(p: nat, fd0: nat, f: nat, g: nat, page: nat, ghost was: seq<File>, ghost open: map<nat,
        (bool, bool)>) returns (fd1: int)
      requires Valid() && p < |cwd| && NewPipe(f, g, page, was, open) && Hands(f, g, 0, 1) && fd0 < NOFILE &&
        slots[p * NOFILE + fd0] == f
      modifies this`files, this`slots, this`hold, this`pipes, this`icache, this`links, this`ihold
      ensures Valid() && Quiet() && -1 <= fd1 < NOFILE && icache == old(icache) && links == old(links)
      ensures fd1 == -1 <==> NoFd(old(slots), p)
      ensures fd1 == -1 ==>
        slots == old(slots)[p * NOFILE + fd0 := -1] && files == was && pipes == open[page := (false, false)]
      ensures fd1 != -1 ==>
        old(slots)[p * NOFILE + fd1] == -1 && slots == old(slots)[p * NOFILE + fd1 := g] && files == old(files) &&
        pipes == old(pipes)
    {
      fd1 := Fdalloc(p, g);
      if fd1 == -1 {
        ClearSlot(p * NOFILE + fd0);
        CloseEnds(f, g, page, was, open);
        return -1;
      }
    }

    /** Both ends of a pipe just made are closed. */
    method CloseEnds(f: nat, g: nat, p: nat, ghost was: seq<File>, ghost open: map<nat, (bool, bool)>)
      requires Valid() && NewPipe(f, g, p, was, open) && Hands(f, g, 1, 1)
      modifies this`files, this`hold, this`pipes, this`icache, this`links, this`ihold
      ensures Valid() && Quiet() && files == was && pipes == open[p := (false, false)] && icache == old(icache) &&
        links == old(links) && ihold == old(ihold)
    {
      EndsClosed(was, open, f, g, p);
      var panics := Fileclose(f);
      panics := Fileclose(g);
    }

    /** fork's copies: the child gets each of the parent's files and its working directory. */
    method ForkRefs(p: nat, c: nat) returns (panics: bool)
      requires Valid() && Quiet() && p < |cwd| && c < |cwd| && p != c && cwd[p] >= 0 && cwd[c] == -1
      requires forall fd :: 0 <= fd < NOFILE ==> FileAt(slots, c, fd) == -1
      modifies this`files, this`slots, this`hold, this`cwd, this`icache, this`ihold
      ensures !panics && Valid() && Quiet() && cwd == old(cwd)[c := old(cwd)[p]] && |slots| == |old(slots)|
      ensures forall q: nat, fd {:trigger FileAt(slots, q, fd)} ::
        FileAt(slots, q, fd) == FileAt(old(slots), if q == c then p else q, fd)
    {
      var fd := 0;
      while fd < NOFILE
        invariant 0 <= fd <= NOFILE && Valid() && Quiet() && |slots| == |old(slots)| && cwd == old(cwd)
        invariant forall q: nat, e {:trigger FileAt(slots, q, e)} ::
          FileAt(slots, q, e) == FileAt(old(slots), if q == c && e < fd then p else q, e)
      {
        ghost var before := slots;
        CopyFd(p, c, fd);
        FileAtPut(before, c, fd, FileAt(before, p, fd));
        fd := fd + 1;
      }
      CwdRef(icache, files, cwd, ihold, p);
      Idup(cwd[p]);
      EnterCwd(c, cwd[p]);
      panics := false;
    }

    /** One turn of fork's loop. */
    method CopyFd(p: nat, c: nat, fd: nat)
      requires Valid() && Quiet() && p < |cwd| && c < |cwd| && fd < NOFILE && FileAt(slots, c, fd) == -1
      modifies this`files, this`slots, this`hold
      ensures Valid() && Quiet() && slots == old(slots)[c * NOFILE + fd := FileAt(old(slots), p, fd)]
    {
      var f := slots[p * NOFILE + fd];
      if f == -1 {
        assert slots == slots[c * NOFILE + fd := -1];
        return;
      }
      TallySome(slots, p * NOFILE + fd, f);
      var panics := Filedup(f);
      SetSlot(c * NOFILE + fd, f);
    }

    /** exit's releases: every descriptor of the process and its working directory. */
    method ExitRefs(p: nat)
      requires Valid() && Quiet() && p < |cwd| && cwd[p] >= 0
      modifies this
      ensures Valid() && Quiet() && cwd == old(cwd)[p := -1] && |slots| == |old(slots)|
      ensures forall q: nat, fd {:trigger FileAt(slots, q, fd)} ::
        FileAt(slots, q, fd) == if q == p then -1 else FileAt(old(slots), q, fd)
      ensures LinksKept(old(links), links, icache)
    {
      var fd := 0;
      LinksSame(links, icache);
      while fd < NOFILE
        invariant 0 <= fd <= NOFILE && Valid() && Quiet() && |slots| == |old(slots)| && cwd == old(cwd)
        invariant forall q: nat, e {:trigger FileAt(slots, q, e)} :: FileAt(slots, q, e) == if q == p &&
          e < fd then -1 else FileAt(old(slots), q, e)
        invariant LinksKept(old(links), links, icache)
      {
        ghost var before, links1, icache1 := slots, links, icache;
        CloseFd(p, fd);
        LinksMore(old(links), links1, links, icache1, icache);
        FileAtPut(before, p, fd, -1);
        fd := fd + 1;
      }
      ghost var links1, icache1 := links, icache;
      LeaveCwd(p);
      LinksMore(old(links), links1, links, icache1, icache);
    }

    /** One turn of exit's loop: the file is closed before the descriptor is cleared. */
    method CloseFd(p: nat, fd: nat)
      requires Valid() && Quiet() && p < |cwd| && fd < NOFILE
      modifies this`files, this`slots, this`hold, this`pipes, this`icache, this`links, this`ihold
      ensures Valid() && Quiet() && slots == old(slots)[p * NOFILE + fd := -1] && LinksKept(old(links), links, icache)
    {
      LinksSame(links, icache);
      var f := slots[p * NOFILE + fd];
      if f == -1 {
        assert slots == slots[p * NOFILE + fd := -1];
        return;
      }
      TallySome(slots, p * NOFILE + fd, f);
      var panics := Fileclose(f);
      ClearSlot(p * NOFILE + fd);
    }
  }
}
