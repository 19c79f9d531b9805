/** Directory operations as the kernel carries them out on inodes in place
    (kernel/fs.c, kernel/sysfile.c). */
module Dirs {
  import opened Common
  import opened DirTree

  /** The first unused entry, or the end. */
  predicate FirstRoom(es: seq<Dirent>, k: nat) {
    Room(es, k) && forall l :: 0 <= l < k ==> es[l].inum != 0
  }

  /** Directory d has one more entry, name for inode c. */
  ghost predicate Entered(s: seq<Inode>, s': seq<Inode>, d: nat, c: nat, name: Name) {
    && |s'| == |s| && d < |s|
    && (exists k :: FirstRoom(s[d].entries, k) && s'[d].entries == Put(s[d].entries, k, Dirent(c, name)))
    && (forall i :: 0 <= i < |s| && i != d && i != c ==> s'[i] == s[i])
  }

  ghost predicate RemovedAt(s: seq<Inode>, s': seq<Inode>, d: nat, k: nat, name: Name) {
    && MayUnlink(s, d, k) && s[d].entries[k].name == name && |s'| == |s|
    && var c := s[d].entries[k].inum;
    && c != d && s[c].nlink >= 1 && s'[c] == s[c].(nlink := s[c].nlink - 1)
    && s[d].nlink >= 1 && s'[d] == Inode(Dir, s[d].nlink - One(s[c].kind == Dir), s[d].entries[k := EMPTY])
    && (forall i :: 0 <= i < |s| && i != d && i != c ==> s'[i] == s[i])
  }

  /** The entry is gone, its inode has one link less, and so has the directory if the inode was one. */
  ghost predicate Removed(s: seq<Inode>, s': seq<Inode>, d: nat, name: Name) {
    exists k: nat :: RemovedAt(s, s', d, k, name)
  }

  /** The name is that of a directory with entries. */
  ghost predicate NotEmpty(s: seq<Inode>, d: nat, name: Name) {
    exists k: nat :: InUse(s, d, k) && s[d].entries[k].name == name && !MayUnlink(s, d, k)
  }

  lemma EntryInRange(s: seq<Inode>, depth: seq<nat>, pending: seq<nat>, d: nat, k: nat)
    requires Inv(s, depth, pending) && d < |s| && s[d].kind == Dir && k < |s[d].entries| && s[d].entries[k].inum != 0
    ensures k >= 2 ==> InUse(s, d, k) && s[d].entries[k].inum < |s| && s[s[d].entries[k].inum].kind != Free
    ensures s[d].entries[k].name.Plain? ==> k >= 2
  {
    assert DirOk(s[d].entries, d);
    if k >= 2 {
      assert InUse(s, d, k) && EntryOk(s, depth, d, k);
    }
  }

  /** Whoever an entry names has a link. */
  lemma EntryCounted(s: seq<Inode>, depth: seq<nat>, pending: seq<nat>, d: nat, k: nat)
    requires Inv(s, depth, pending) && InUse(s, d, k)
    ensures s[d].entries[k].inum < |s| && s[s[d].entries[k].inum].nlink >= 1
  {
    assert EntryOk(s, depth, d, k) && DirOk(s[d].entries, d);
    CountPositive(s, s[d].entries[k].inum, d, k);
  }

  lemma OneName(s: seq<Inode>, depth: seq<nat>, d: nat, k: nat, name: Name)
    requires Tree(s, depth) && InUse(s, d, k) && s[d].entries[k].name == name
    ensures NotEmpty(s, d, name) <==> !MayUnlink(s, d, k)
  {
    assert DirOk(s[d].entries, d);
  }

  /** Two links in one: changing a file's count and what is pending by the same. */
  lemma NlinkOnly(s: seq<Inode>, depth: seq<nat>, pending: seq<nat>, i: nat, n: nat, p: nat)
    requires Inv(s, depth, pending) && 0 < i < |s| && (s[i].kind == File || s[i].kind == Dev) &&
      n + pending[i] == s[i].nlink + p
    ensures Inv(s[i := s[i].(nlink := n)], depth, pending[i := p])
  {
    var s' := s[i := s[i].(nlink := n)];
    forall j | 0 < j < |s| ensures Count(s', j) == Count(s, j) {
      CountPut(s, i, s'[i], j);
    }
    forall d: nat, k: nat | InUse(s', d, k) ensures EntryOk(s', depth, d, k) {
      assert InUse(s, d, k) && EntryOk(s, depth, d, k);
    }
    forall d | 0 <= d < |s| && Linked(s'[d]) && d != ROOTINO ensures ParentOk(s', d) {
      assert ParentOk(s, d);
    }
  }

  lemma NoneFree(s: seq<Inode>, depth: seq<nat>, pending: seq<nat>, c: nat)
    requires Inv(s, depth, pending) && 0 < c < |s| && s[c].kind == Free
    ensures pending[c] == 0
  {
  }

  /** The inodes after create of a file or a device. */
  function Mkfile(s: seq<Inode>, d: nat, k: nat, c: nat, name: Name, kind: Kind): (r: seq<Inode>)
    requires d < |s| && c < |s| && d != c && k <= |s[d].entries|
  {
    s[c := Inode(kind, 1, [])][d := s[d].(entries := Put(s[d].entries, k, Dirent(c, name)))]
  }

  /** What create leaves: the tree and the counts are right exactly when the parent is linked. */
  ghost predicate Made(s: seq<Inode>, s': seq<Inode>, depth': seq<nat>, pending: seq<nat>, d: nat, c: nat, name: Name) {
    && Entered(s, s', d, c, name) && (Sound(s', pending) <==> Linked(s[d])) &&
      (Linked(s[d]) ==> Inv(s', depth', pending))
  }

  lemma MkfileMade(s: seq<Inode>, depth: seq<nat>, pending: seq<nat>, d: nat, k: nat, c: nat, name: Name, kind: Kind,
      s': seq<Inode>)
    requires Inv(s, depth, pending) && d < |s| && s[d].kind == Dir && FirstRoom(s[d].entries, k) &&
      Absent(s[d].entries, name)
    requires 0 < c < |s| && s[c].kind == Free && (kind == File || kind == Dev) && s' == Mkfile(s, d, k, c, name, kind)
    ensures Made(s, s', depth, pending, d, c, name)
  {
    AllocKeeps(s, depth, pending, c, kind);
    var s1, p1 := s[c := Inode(kind, 1, [])], pending[c := 1];
    NoneFree(s, depth, pending, c);
    EnterExact(s1, p1, d, k, c, name);
    if Linked(s1[d]) {
      EnterKeeps(s1, depth, p1, d, k, c, name);
    }
    assert p1[c := 0] == pending;
    assert s1[d := s1[d].(entries := Put(s1[d].entries, k, Dirent(c, name)))] == Mkfile(s, d, k, c, name, kind);
  }

  lemma LinkMade(s: seq<Inode>, depth: seq<nat>, pending: seq<nat>, d: nat, k: nat, c: nat, name: Name, s': seq<Inode>)
    requires Inv(s, depth, pending) && d < |s| && s[d].kind == Dir && FirstRoom(s[d].entries, k) &&
      Absent(s[d].entries, name)
    requires 0 < c < |s| && pending[c] > 0 && s' == s[d := s[d].(entries := Put(s[d].entries, k, Dirent(c, name)))]
    ensures Made(s, s', depth, pending[c := pending[c] - 1], d, c, name) && s'[c] == s[c]
  {
    EnterExact(s, pending, d, k, c, name);
    if Linked(s[d]) {
      EnterKeeps(s, depth, pending, d, k, c, name);
    }
  }

  /** A link count that has changed before does not matter to what create or link leave. */
  lemma MadeFrom(s: seq<Inode>, s1: seq<Inode>, s': seq<Inode>, depth: seq<nat>, pending: seq<nat>, d: nat, c: nat,
      name: Name)
    requires d < |s| && c < |s| && c != d && |s1| == |s| && s1 == s[c := s1[c]] &&
      Made(s1, s', depth, pending, d, c, name)
    ensures Made(s, s', depth, pending, d, c, name)
  {
  }

  lemma UnlinkRemoves(s: seq<Inode>, d: nat, k: nat)
    requires MayUnlink(s, d, k) && Linked(s[d]) && s[d].entries[k].inum != d && s[s[d].entries[k].inum].nlink >= 1
    ensures RemovedAt(s, Unlinked(s, d, k), d, k, s[d].entries[k].name)
  {
  }

  lemma MkdirMade(s: seq<Inode>, depth: seq<nat>, pending: seq<nat>, d: nat, k: nat, c: nat, name: Name,
      s': seq<Inode>, depth': seq<nat>)
    requires Inv(s, depth, pending) && d < |s| && s[d].kind == Dir && FirstRoom(s[d].entries, k) &&
      Absent(s[d].entries, name)
    requires 0 < c < |s| && s[c].kind == Free && s' == Mkdir(s, d, k, c, name) && depth' == depth[c := depth[d] + 1]
    ensures Made(s, s', depth', pending, d, c, name)
  {
    MkdirExact(s, pending, d, k, c, name);
    if Linked(s[d]) {
      MkdirKeeps(s, depth, pending, d, k, c, name);
    }
    assert s'[d].entries == Put(s[d].entries, k, Dirent(c, name));
  }

  class DirFs {
    var inodes: seq<Inode>
    ghost var depth: seq<nat>
    ghost var pending: seq<nat>

    /** The file system mkfs makes: a root directory and free inodes. */
    constructor (n: nat)
      requires n >= 2
      ensures Valid() && |inodes| == n && forall i :: 0 < i < n ==> pending[i] == 0
    {
      inodes := seq(n, i => if i == ROOTINO then Inode(Dir, 1, [Dirent(1, Dot), Dirent(1, DotDot)])
        else Inode(Free, 0, []));
      depth := seq(n, i => 0);
      pending := seq(n, i => 0);
      new;
      forall i | 0 < i < n ensures Count(inodes, i) == One(i == 1) {
        CountPut(inodes, 1, Inode(Free, 0, []), i);
        CountZero(inodes[1 := Inode(Free, 0, [])], i);
        NewDirCount(1, 1, i);
      }
    }

    ghost predicate Valid()
      reads this
    {
      Inv(inodes, depth, pending)
    }

    /** dirlookup: the first entry in use with this name. */
    method Dirlookup(d: nat, name: Name) returns (found: bool, k: nat)
      requires d < |inodes|
      ensures found ==> k < |inodes[d].entries| && inodes[d].entries[k].inum != 0 && inodes[d].entries[k].name == name
      ensures found ==> forall l :: 0 <= l < k && inodes[d].entries[l].inum != 0 ==> inodes[d].entries[l].name != name
      ensures !found ==> Absent(inodes[d].entries, name)
    {
      k := 0;
      while k < |inodes[d].entries|
        invariant 0 <= k <= |inodes[d].entries|
        invariant forall l :: 0 <= l < k && inodes[d].entries[l].inum != 0 ==> inodes[d].entries[l].name != name
      {
        var de := inodes[d].entries[k];
        if de.inum != 0 && de.name == name {
          return true, k;
        }
        k := k + 1;
      }
      return false, k;
    }

    /** dirlink: refuses a name in use, otherwise takes the first unused entry. */
    method Dirlink(d: nat, name: Name, inum: nat) returns (r: int, ghost k: nat)
      requires d < |inodes|
      modifies this`inodes
      ensures r == if Absent(old(inodes)[d].entries, name) then 0 else -1
      ensures r == -1 ==> inodes == old(inodes)
      ensures r != -1 ==> FirstRoom(old(inodes)[d].entries, k)
      ensures r != -1 ==>
        inodes == old(inodes)[d := old(inodes)[d].(entries := Put(old(inodes)[d].entries, k, Dirent(inum, name)))]
    {
      var found, at := Dirlookup(d, name);
      if found {
        return -1, 0;
      }
      var off := 0;
      while off < |inodes[d].entries| && inodes[d].entries[off].inum != 0
        invariant 0 <= off <= |inodes[d].entries|
        invariant forall l :: 0 <= l < off ==> inodes[d].entries[l].inum != 0
      {
        off := off + 1;
      }
      inodes := inodes[d := inodes[d].(entries := Put(inodes[d].entries, off, Dirent(inum, name)))];
      return 0, off;
    }

    /** isdirempty */
    method IsDirEmpty(c: nat) returns (empty: bool)
      requires c < |inodes|
      ensures empty <==> DirEmpty(inodes[c].entries)
    {
      var k := 2;
      while k < |inodes[c].entries|
        invariant 2 <= k && forall l :: 2 <= l < k && l < |inodes[c].entries| ==> inodes[c].entries[l].inum == 0
      {
        if inodes[c].entries[k].inum != 0 {
          return false;
        }
        k := k + 1;
      }
      return true;
    }

    /** ialloc: the first free inode, or 0 when there is none and the kernel panics. */
    method Ialloc(kind: Kind) returns (c: nat)
      requires kind != Free
      modifies this`inodes
      ensures c == 0 ==> inodes == old(inodes) && forall i :: 0 < i < |inodes| ==> inodes[i].kind != Free
      ensures c != 0 ==> c < |old(inodes)| && old(inodes)[c].kind == Free && forall i :: 0 < i < c ==>
        old(inodes)[i].kind != Free
      ensures c != 0 ==> inodes == old(inodes)[c := Inode(kind, 0, [])]
    {
      c := 1;
      while c < |inodes|
        invariant 1 <= c && inodes == old(inodes) && forall i :: 0 < i < c && i < |inodes| ==> inodes[i].kind != Free
      {
        if inodes[c].kind == Free {
          inodes := inodes[c := Inode(kind, 0, [])];
          return c;
        }
        c := c + 1;
      }
      return 0;
    }

    /** The steps of create for a file or a device. */
    method MakeFile(d: nat, name: Name, kind: Kind) returns (c: nat, ghost k: nat)
      requires d < |inodes| && inodes[d].kind == Dir && kind != Free && Absent(inodes[d].entries, name)
      modifies this`inodes
      ensures c == 0 ==> inodes == old(inodes) && forall i :: 0 < i < |inodes| ==> inodes[i].kind != Free
      ensures c != 0 ==> c < |old(inodes)| && old(inodes)[c].kind == Free && FirstRoom(old(inodes)[d].entries, k)
      ensures c != 0 ==> inodes == Mkfile(old(inodes), d, k, c, name, kind)
    {
      k := 0;
      c := Ialloc(kind);
      if c == 0 {
        return;
      }
      inodes := inodes[c := inodes[c].(nlink := 1)];
      var r;
      r, k := Dirlink(d, name, c);
    }

    /** The steps of create for a directory. */
    method MakeDir(d: nat, name: Name) returns (c: nat, ghost k: nat)
      requires d < |inodes| && inodes[d].kind == Dir && Absent(inodes[d].entries, name)
      modifies this`inodes
      ensures c == 0 ==> inodes == old(inodes) && forall i :: 0 < i < |inodes| ==> inodes[i].kind != Free
      ensures c != 0 ==> c < |old(inodes)| && old(inodes)[c].kind == Free && FirstRoom(old(inodes)[d].entries, k)
      ensures c != 0 ==> inodes == Mkdir(old(inodes), d, k, c, name)
    {
      k := 0;
      c := Ialloc(Dir);
      if c == 0 {
        return;
      }
      inodes := inodes[c := inodes[c].(nlink := 1)];
      inodes := inodes[d := inodes[d].(nlink := inodes[d].nlink + 1)];
      var r;
      r, k := Dirlink(c, Dot, c);
      assert inodes[c].entries == [Dirent(c, Dot)];
      r, k := Dirlink(c, DotDot, d);
      assert inodes[c] == NewDir(c, d);
      r, k := Dirlink(d, name, c);
    }

    /** create of a new name: the tree and the link counts stay right exactly when
        the parent directory is still linked. */
    method CreateNew(d: nat, name: Name, kind: Kind) returns (c: nat)
      requires Valid() && d < |inodes| && inodes[d].kind == Dir && kind != Free && Absent(inodes[d].entries, name)
      modifies this`inodes, this`depth
      ensures |inodes| == |old(inodes)|
      ensures c == 0 ==> inodes == old(inodes) && Valid() && forall i :: 0 < i < |inodes| ==> inodes[i].kind != Free
      ensures c != 0 ==>
        c < |inodes| && old(inodes)[c].kind == Free && Made(old(inodes), inodes, depth, pending, d, c, name)
      ensures c != 0 ==> inodes[c] == if kind == Dir then NewDir(c, d) else Inode(kind, 1, [])
    {
      ghost var k;
      if kind == Dir {
        c, k := MakeDir(d, name);
        if c != 0 {
          ghost var depth0 := depth;
          depth := depth[c := depth[d] + 1];
          MkdirMade(old(inodes), depth0, pending, d, k, c, name, inodes, depth);
        }
      } else {
        c, k := MakeFile(d, name, kind);
        if c != 0 {
          MkfileMade(old(inodes), depth, pending, d, k, c, name, kind, inodes);
        }
      }
    }

    /** create: an existing file is returned when a file is asked for; any other
        existing name is refused. */
    method Create(d: nat, name: Name, kind: Kind) returns (c: nat, panics: bool, made: bool)
      requires Valid() && d < |inodes| && inodes[d].kind == Dir && kind != Free
      modifies this`inodes, this`depth
      ensures |inodes| == |old(inodes)|
      ensures made <==> !panics && Absent(old(inodes)[d].entries, name)
      ensures !made ==> inodes == old(inodes) && Valid()
      ensures panics ==> forall i :: 0 < i < |inodes| ==> inodes[i].kind != Free
      ensures !made && !panics && c != 0 ==>
        kind == File && c < |inodes| && inodes[c].kind == File && Dirent(c, name) in inodes[d].entries
      ensures !made && !panics && c == 0 && kind == File ==>
        forall e :: e in inodes[d].entries && 0 < e.inum < |inodes| && e.name == name ==> inodes[e.inum].kind != File
      ensures made ==>
        0 < c < |inodes| && old(inodes)[c].kind == Free && Made(old(inodes), inodes, depth, pending, d, c, name)
      ensures made ==> inodes[c] == if kind == Dir then NewDir(c, d) else Inode(kind, 1, [])
    {
      var found, k := Dirlookup(d, name);
      if found {
        c := inodes[d].entries[k].inum;
        assert inodes[d].entries[k] == Dirent(c, name) && DirOk(inodes[d].entries, d);
        if kind == File && c < |inodes| && inodes[c].kind == File {
          return c, false, false;
        }
        return 0, false, false;
      }
      c := CreateNew(d, name, kind);
      panics, made := c == 0, c != 0;
    }

    /** The first half of sys_link: directories are refused. */
    method LinkStart(ip: nat) returns (r: int)
      requires Valid() && 0 < ip < |inodes| && inodes[ip].kind != Free
      modifies this`inodes, this`pending
      ensures Valid() && (r == -1 <==> inodes[ip].kind == Dir) && (r == -1 || r == 0)
      ensures r == -1 ==> inodes == old(inodes) && pending == old(pending)
      ensures r == 0 ==> inodes == old(inodes)[ip := old(inodes)[ip].(nlink := old(inodes)[ip].nlink + 1)]
      ensures r == 0 ==> pending == old(pending)[ip := old(pending)[ip] + 1]
    {
      if inodes[ip].kind == Dir {
        return -1;
      }
      SetLinks(ip, inodes[ip].nlink + 1, pending[ip] + 1);
      return 0;
    }

    /** A change of a link count, with the links that have no entry yet. */
    method SetLinks(ip: nat, n: nat, ghost p: nat)
      requires Valid() && 0 < ip < |inodes| && (inodes[ip].kind == File || inodes[ip].kind == Dev)
      requires n + pending[ip] == inodes[ip].nlink + p
      modifies this`inodes, this`pending
      ensures Valid() && inodes == old(inodes)[ip := old(inodes)[ip].(nlink := n)] && pending == old(pending)[ip := p]
    {
      NlinkOnly(inodes, depth, pending, ip, n, p);
      inodes, pending := inodes[ip := inodes[ip].(nlink := n)], pending[ip := p];
    }

    /** The second half: enter the name, or take the link back. */
    method LinkFinish(ip: nat, d: nat, name: Name) returns (r: int)
      requires Valid() && 0 < ip < |inodes| && pending[ip] > 0 && d < |inodes| && inodes[d].kind == Dir
      modifies this`inodes, this`pending
      ensures pending == old(pending)[ip := old(pending)[ip] - 1] && (r == -1 || r == 0)
      ensures r == -1 <==> !Absent(old(inodes)[d].entries, name)
      ensures r == -1 ==> Valid() && inodes == old(inodes)[ip := old(inodes)[ip].(nlink := old(inodes)[ip].nlink - 1)]
      ensures r == 0 ==> Made(old(inodes), inodes, depth, pending, d, ip, name) && inodes[ip] == old(inodes)[ip]
    {
      ghost var k;
      ghost var s := inodes;
      r, k := Dirlink(d, name, ip);
      if r == -1 {
        TakeBack(ip);
        return;
      }
      Settle(ip, d, name, s, k);
    }

    /** The link that was pending has its name. */
    ghost method Settle(ip: nat, d: nat, name: Name, s: seq<Inode>, k: nat)
      requires Inv(s, depth, pending) && 0 < ip < |s| && pending[ip] > 0 && d < |s| && s[d].kind == Dir
      requires FirstRoom(s[d].entries, k) && Absent(s[d].entries, name)
      requires inodes == s[d := s[d].(entries := Put(s[d].entries, k, Dirent(ip, name)))]
      modifies this`pending
      ensures pending == old(pending)[ip := old(pending)[ip] - 1] && ip < |inodes| && inodes[ip] == s[ip]
      ensures Made(s, inodes, depth, pending, d, ip, name)
    {
      LinkMade(s, depth, pending, d, k, ip, name, inodes);
      pending := pending[ip := pending[ip] - 1];
    }

    /** The way out of sys_link once the link is counted. */
    method TakeBack(ip: nat)
      requires Valid() && 0 < ip < |inodes| && pending[ip] > 0
      modifies this`inodes, this`pending
      ensures Valid() && pending == old(pending)[ip := old(pending)[ip] - 1] && old(inodes)[ip].nlink >= 1
      ensures inodes == old(inodes)[ip := old(inodes)[ip].(nlink := old(inodes)[ip].nlink - 1)]
    {
      SetLinks(ip, inodes[ip].nlink - 1, pending[ip] - 1);
    }

    /** sys_link, once the paths are resolved: a link that fails changes nothing. */
    method Link(ip: nat, d: nat, name: Name) returns (r: int)
      requires Valid() && 0 < ip < |inodes| && inodes[ip].kind != Free && d < |inodes| && inodes[d].kind == Dir
      modifies this`inodes, this`pending
      ensures pending == old(pending) && |inodes| == |old(inodes)| && (r == 0 || r == -1)
      ensures r == -1 <==> old(inodes)[ip].kind == Dir || !Absent(old(inodes)[d].entries, name)
      ensures r == -1 ==> inodes == old(inodes) && Valid()
      ensures r != -1 ==> inodes[ip] == old(inodes)[ip].(nlink := old(inodes)[ip].nlink + 1)
      ensures r != -1 ==> Made(old(inodes), inodes, depth, pending, d, ip, name)
    {
      r := LinkStart(ip);
      if r == -1 {
        return;
      }
      ghost var mid := inodes;
      r := LinkFinish(ip, d, name);
      assert pending == old(pending);
      if r != -1 {
        MadeFrom(old(inodes), mid, inodes, depth, pending, d, ip, name);
      }
    }

    /** The steps of unlink once its checks have passed. */
    method Remove(d: nat, k: nat, c: nat)
      requires d < |inodes| && c < |inodes| && c != d && k < |inodes[d].entries| && inodes[d].entries[k].inum == c
      requires inodes[c].nlink >= 1 && inodes[d].nlink >= 1
      modifies this`inodes
      ensures inodes == Unlinked(old(inodes), d, k)
    {
      inodes := inodes[d := inodes[d].(entries := inodes[d].entries[k := EMPTY])];
      if inodes[c].kind == Dir {
        inodes := inodes[d := inodes[d].(nlink := inodes[d].nlink - 1)];
      }
      inodes := inodes[c := inodes[c].(nlink := inodes[c].nlink - 1)];
    }

    /** sys_unlink, once the path is resolved: "unlink: nlink < 1" is unreachable. */
    method Unlink(d: nat, name: Name) returns (r: int, panics: bool)
      requires Valid() && d < |inodes| && inodes[d].kind == Dir
      modifies this`inodes
      ensures Valid() && !panics && (r == 0 || r == -1)
      ensures r == -1 <==> !name.Plain? || Absent(old(inodes)[d].entries, name) || NotEmpty(old(inodes), d, name)
      ensures r == -1 ==> inodes == old(inodes)
      ensures r != -1 ==> Removed(old(inodes), inodes, d, name)
    {
      var may, k;
      may, k, panics := MayRemove(d, name);
      if !may {
        return -1, panics;
      }
      RemoveEntry(d, k, name);
      r := 0;
    }

    /** What follows the checks. */
    method RemoveEntry(d: nat, k: nat, name: Name)
      requires Valid() && MayUnlink(inodes, d, k) && inodes[d].entries[k].name == name
      modifies this`inodes
      ensures Valid() && RemovedAt(old(inodes), inodes, d, k, name)
    {
      UnlinkKeeps(inodes, depth, pending, d, k);
      UnlinkRemoves(inodes, d, k);
      Remove(d, k, inodes[d].entries[k].inum);
    }

    /** The checks of sys_unlink. */
    method MayRemove(d: nat, name: Name) returns (may: bool, k: nat, panics: bool)
      requires Valid() && d < |inodes| && inodes[d].kind == Dir
      ensures !panics
      ensures may <==> name.Plain? && !Absent(inodes[d].entries, name) && !NotEmpty(inodes, d, name)
      ensures may ==> MayUnlink(inodes, d, k) && inodes[d].entries[k].name == name
    {
      if name == Dot || name == DotDot {
        return false, 0, false;
      }
      var found;
      found, k := Dirlookup(d, name);
      if !found {
        return false, 0, false;
      }
      var c := inodes[d].entries[k].inum;
      EntryInRange(inodes, depth, pending, d, k);
      EntryCounted(inodes, depth, pending, d, k);
      if inodes[c].nlink < 1 {
        return false, k, true;
      }
      OneName(inodes, depth, d, k, name);
      if inodes[c].kind != Dir {
        return true, k, false;
      }
      may := IsDirEmpty(c);
      panics := false;
    }

    /** iput of the last reference to an inode without links. */
    method Reap(i: nat)
      requires Valid() && 0 < i < |inodes| && inodes[i].nlink == 0
      modifies this`inodes
      ensures Valid() && inodes == old(inodes)[i := Inode(Free, 0, [])]
    {
      ReapKeeps(inodes, depth, pending, i);
      inodes := inodes[i := Inode(Free, 0, [])];
    }
  }
}
