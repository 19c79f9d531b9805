/** Path names (kernel/fs.c): skipelem takes a path apart, namex walks the directory tree. */
module Paths {
  import opened DirTree
  import Dirs

  const DIRSIZ: nat := 14

  datatype Option<T> = None | Some(value: T)

  // ---- What a path says

  /** p[a..b] is all slashes. */
  predicate Slashes(p: string, a: nat, b: nat) {
    b <= |p| && forall i :: a <= i < b ==> p[i] == '/'
  }

  /** p[a..b] has no slash. */
  predicate NoSlash(p: string, a: nat, b: nat) {
    b <= |p| && forall i :: a <= i < b ==> p[i] != '/'
  }

  /** p[a..b] is the first element of the path from i on. */
  predicate First(p: string, i: nat, a: nat, b: nat) {
    i <= a < b <= |p| && Slashes(p, i, a) && NoSlash(p, a, b) && (b == |p| || p[b] == '/')
  }

  /** From i on, the path consists of these elements, set apart by any number of slashes. */
  ghost predicate SpellsFrom(p: string, i: nat, es: seq<string>)
    decreases |es|
  {
    if es == [] then Slashes(p, i, |p|)
    else exists a: nat, b: nat :: First(p, i, a, b) && p[a..b] == es[0] && SpellsFrom(p, b, es[1..])
  }

  ghost predicate Spells(p: string, es: seq<string>) {
    SpellsFrom(p, 0, es)
  }

  function Cut(e: string): (t: string) {
    if |e| >= DIRSIZ then e[..DIRSIZ] else e
  }

  function NameOf(t: string): (n: Name) {
    if t == "." then Dot else if t == ".." then DotDot else Plain(t)
  }

  /** What a directory entry is compared with: the element cut at DIRSIZ characters. */
  function Key(e: string): (n: Name) {
    NameOf(Cut(e))
  }

  // ---- What a path names

  /** The inode an entry in use gives a name to, 0 for none. */
  function Child(es: seq<Dirent>, name: Name): (c: nat) {
    if es == [] then 0
    else if es[0].inum != 0 && es[0].name == name then es[0].inum
    else Child(es[1..], name)
  }

  /** The inode reached from ip by these elements; each one is looked up in a directory. */
  function Walk(s: seq<Inode>, ip: nat, es: seq<string>): (r: Option<nat>)
    decreases |es|
  {
    if es == [] then Some(ip)
    else if ip >= |s| || s[ip].kind != Dir then None
    else
      var c := Child(s[ip].entries, Key(es[0]));
      if c == 0 then None else Walk(s, c, es[1..])
  }

  /** The directory that the last element is to be looked up in. */
  function WalkToParent(s: seq<Inode>, ip: nat, es: seq<string>): (r: Option<nat>)
    decreases |es|
  {
    if es == [] || ip >= |s| || s[ip].kind != Dir then None
    else if |es| == 1 then Some(ip)
    else
      var c := Child(s[ip].entries, Key(es[0]));
      if c == 0 then None else WalkToParent(s, c, es[1..])
  }

  /** Somewhere on the way, its end included, the walk comes to a free inode; ilock panics at one. */
  predicate MeetsFree(s: seq<Inode>, ip: nat, es: seq<string>)
    decreases |es|
  {
    && ip < |s|
    && (s[ip].kind == Free ||
        (es != [] && s[ip].kind == Dir && Child(s[ip].entries, Key(es[0])) != 0 &&
         MeetsFree(s, Child(s[ip].entries, Key(es[0])), es[1..])))
  }

  /** namex locks the inodes it looks up elements in. */
  predicate Panics(s: seq<Inode>, ip: nat, es: seq<string>) {
    es != [] && MeetsFree(s, ip, es[..|es| - 1])
  }

  function Target(s: seq<Inode>, ip: nat, es: seq<string>, parent: bool): (r: Option<nat>) {
    if parent then WalkToParent(s, ip, es) else Walk(s, ip, es)
  }

  function Pointer(r: Option<nat>): (p: int) {
    if r.Some? then r.value else -1
  }

  /** Entries in use hold inode numbers of this disk. */
  ghost predicate InRange(s: seq<Inode>) {
    forall d, k :: 0 <= d < |s| && 0 <= k < |s[d].entries| ==> s[d].entries[k].inum < |s|
  }

  // ---- Lemmas about paths

  /** A first element is there unless the path is all slashes, and there is only one. */
  lemma OneFirst(p: string, i: nat, a: nat, b: nat, a': nat, b': nat)
    requires First(p, i, a, b)
    ensures !Slashes(p, i, |p|)
    ensures First(p, i, a', b') ==> a == a' && b == b'
  {
    assert p[a] != '/';
    if First(p, i, a', b') {
      assert p[a'] != '/';
      assert a == a';
    }
  }

  lemma FirstOf(p: string, i: nat, es: seq<string>) returns (a: nat, b: nat)
    requires SpellsFrom(p, i, es) && es != []
    ensures First(p, i, a, b) && p[a..b] == es[0] && SpellsFrom(p, b, es[1..]) && !Slashes(p, i, |p|)
  {
    a, b :| First(p, i, a, b) && p[a..b] == es[0] && SpellsFrom(p, b, es[1..]);
    OneFirst(p, i, a, b, a, b);
  }

  /** No path has two readings. */
  lemma {:induction false} OneSpelling(p: string, i: nat, es: seq<string>, fs: seq<string>)
    requires SpellsFrom(p, i, es) && SpellsFrom(p, i, fs)
    ensures es == fs
    decreases |es|
  {
    if es == [] && fs != [] {
      var a, b := FirstOf(p, i, fs);
    } else if es != [] {
      var a, b := FirstOf(p, i, es);
      if fs != [] {
        var a', b' := FirstOf(p, i, fs);
        OneFirst(p, i, a, b, a', b');
        OneSpelling(p, b, es[1..], fs[1..]);
        assert es == [es[0]] + es[1..] && fs == [fs[0]] + fs[1..];
      }
    }
  }

  /** Leading slashes do not matter. */
  lemma SlashesFirst(p: string, i: nat, k: nat, es: seq<string>)
    requires i <= k && Slashes(p, i, k) && SpellsFrom(p, i, es)
    ensures SpellsFrom(p, k, es)
  {
    if es != [] {
      var a, b := FirstOf(p, i, es);
      assert p[a] != '/' && k <= a;
      assert First(p, k, a, b);
    }
  }

  /** Every path has a reading. */
  lemma {:induction false} SomeSpelling(p: string, i: nat) returns (es: seq<string>)
    requires i <= |p|
    ensures SpellsFrom(p, i, es)
    decreases |p| - i
  {
    var a := i;
    while a < |p| && p[a] == '/'
      invariant i <= a <= |p| && Slashes(p, i, a)
    {
      a := a + 1;
    }
    if a == |p| {
      return [];
    }
    var b := a;
    while b < |p| && p[b] != '/'
      invariant a <= b <= |p| && NoSlash(p, a, b)
    {
      b := b + 1;
    }
    var fs := SomeSpelling(p, b);
    es := [p[a..b]] + fs;
    assert es[1..] == fs && First(p, i, a, b);
  }

  /** The first element from i on, taken off. */
  lemma NextElem(p: string, i: nat, es: seq<string>, next: nat, a: nat, b: nat)
    requires SpellsFrom(p, i, es) && First(p, i, a, b) && b <= next <= |p| && Slashes(p, b, next)
    ensures es != [] && es[0] == p[a..b] && SpellsFrom(p, next, es[1..])
  {
    OneFirst(p, i, a, b, a, b);
    var a', b' := FirstOf(p, i, es);
    OneFirst(p, i, a, b, a', b');
    SlashesFirst(p, b, next, es[1..]);
  }

  /** What is added at the end of a path is the last element. */
  lemma FirstMore(p: string, e: string, q: string, i: nat, a: nat, b: nat)
    requires q == p + "/" + e && First(p, i, a, b)
    ensures First(q, i, a, b) && q[a..b] == p[a..b]
  {
    assert forall k :: 0 <= k < |p| ==> q[k] == p[k];
    assert q[|p|] == '/';
  }

  lemma FirstAdded(p: string, e: string, q: string, i: nat)
    requires q == p + "/" + e && i <= |p| && Slashes(p, i, |p|) && e != "" && NoSlash(e, 0, |e|)
    ensures First(q, i, |p| + 1, |q|) && q[|p| + 1..|q|] == e
  {
    assert forall k :: 0 <= k < |p| ==> q[k] == p[k];
    assert forall k :: |p| < k < |q| ==> q[k] == e[k - |p| - 1];
  }

  /** One more element at the end of a path. */
  lemma {:induction false} SpellsMore(p: string, i: nat, es: seq<string>, e: string, q: string)
    requires SpellsFrom(p, i, es) && i <= |p| && e != "" && NoSlash(e, 0, |e|) && q == p + "/" + e
    ensures SpellsFrom(q, i, es + [e])
    decreases |es|
  {
    if es == [] {
      FirstAdded(p, e, q, i);
      assert es + [e] == [e] && [e][1..] == [] && SpellsFrom(q, |q|, []);
    } else {
      var a, b := FirstOf(p, i, es);
      FirstMore(p, e, q, i, a, b);
      SpellsMore(p, b, es[1..], e, q);
      assert (es + [e])[1..] == es[1..] + [e];
    }
  }

  // ---- Lemmas about walks

  lemma {:induction false} ChildFirst(es: seq<Dirent>, name: Name, k: nat)
    requires k < |es| && es[k].inum != 0 && es[k].name == name
    requires forall l :: 0 <= l < k && es[l].inum != 0 ==> es[l].name != name
    ensures Child(es, name) == es[k].inum
  {
    if k > 0 {
      ChildFirst(es[1..], name, k - 1);
    }
  }

  lemma {:induction false} ChildAbsent(es: seq<Dirent>, name: Name)
    requires Absent(es, name)
    ensures Child(es, name) == 0
  {
    if es != [] {
      ChildAbsent(es[1..], name);
    }
  }

  lemma {:induction false} ChildOf(es: seq<Dirent>, name: Name) returns (k: nat)
    requires Child(es, name) != 0
    ensures k < |es| && es[k].inum != 0 && es[k].name == name && Child(es, name) == es[k].inum
  {
    if es[0].inum != 0 && es[0].name == name {
      return 0;
    }
    k := ChildOf(es[1..], name);
    k := k + 1;
  }

  /** A walk, and one step more. */
  lemma {:induction false} WalkMore(s: seq<Inode>, ip: nat, es: seq<string>, e: string)
    ensures Walk(s, ip, es + [e]) == if Walk(s, ip, es).None? then None else Walk(s, Walk(s, ip, es).value, [e])
    decreases |es|
  {
    if es == [] {
      assert es + [e] == [e];
    } else {
      assert (es + [e])[0] == es[0] && (es + [e])[1..] == es[1..] + [e];
      if ip < |s| && s[ip].kind == Dir && Child(s[ip].entries, Key(es[0])) != 0 {
        WalkMore(s, Child(s[ip].entries, Key(es[0])), es[1..], e);
      }
    }
  }

  /** nameiparent's directory, and then the last element, is where namei leads. */
  lemma {:induction false} ParentThenChild(s: seq<Inode>, ip: nat, es: seq<string>)
    requires es != []
    ensures WalkToParent(s, ip, es).Some? ==> Walk(s, ip, es[..|es| - 1]) == WalkToParent(s, ip, es)
    ensures Walk(s, ip, es) == if WalkToParent(s, ip, es).None? then None
      else Walk(s, WalkToParent(s, ip, es).value, [es[|es| - 1]])
    decreases |es|
  {
    if |es| == 1 {
      assert es == [es[0]] && es[..0] == [];
    } else if ip < |s| && s[ip].kind == Dir && Child(s[ip].entries, Key(es[0])) != 0 {
      ParentThenChild(s, Child(s[ip].entries, Key(es[0])), es[1..]);
      assert es[..|es| - 1][1..] == es[1..][..|es| - 2];
    }
  }

  /** From a linked directory, only allocated inodes are reached, and only linked directories. */
  lemma {:induction false} WalkStays(s: seq<Inode>, depth: seq<nat>, ip: nat, es: seq<string>)
    requires Tree(s, depth) && ip < |s| && s[ip].kind != Free && (s[ip].kind == Dir ==> Linked(s[ip]))
    ensures Walk(s, ip, es).Some? ==>
      var r := Walk(s, ip, es).value; r < |s| && s[r].kind != Free && (s[r].kind == Dir ==> Linked(s[r]))
    decreases |es|
  {
    if es != [] && s[ip].kind == Dir {
      var c := Child(s[ip].entries, Key(es[0]));
      if c != 0 {
        var k := ChildOf(s[ip].entries, Key(es[0]));
        assert DirOk(s[ip].entries, ip);
        if k >= 2 {
          assert InUse(s, ip, k) && EntryOk(s, depth, ip, k);
        } else if k == 1 && ip != ROOTINO {
          assert ParentOk(s, ip);
        }
        WalkStays(s, depth, c, es[1..]);
      }
    }
  }

  /** From a removed directory the path goes up by "..", through removed directories, to one that
      has been freed. */
  predicate ClimbsOut(s: seq<Inode>, ip: nat, es: seq<string>)
    decreases |es|
  {
    && es != [] && ip < |s| && s[ip].kind == Dir && !Linked(s[ip]) && |s[ip].entries| > 1
    && var up := s[ip].entries[1].inum;
    || (Key(es[0]) == Dot && ClimbsOut(s, ip, es[1..]))
    || (Key(es[0]) == DotDot && up < |s| && (s[up].kind == Free || ClimbsOut(s, up, es[1..])))
  }

  /** The only entries of a removed directory are "." and "..". */
  lemma RemovedChild(s: seq<Inode>, depth: seq<nat>, ip: nat, name: Name)
    requires Tree(s, depth) && ip < |s| && s[ip].kind == Dir && !Linked(s[ip])
    ensures |s[ip].entries| > 1 && s[ip].entries[1].inum != 0
    ensures Child(s[ip].entries, name) == if name == Dot then ip else if name == DotDot then s[ip].entries[1].inum
      else 0
  {
    assert DirOk(s[ip].entries, ip);
    if Child(s[ip].entries, name) != 0 {
      var k := ChildOf(s[ip].entries, name);
      assert k >= 2 ==> InUse(s, ip, k) && EntryOk(s, depth, ip, k);
    } else if name == DotDot {
      ChildFirst(s[ip].entries, name, 1);
    }
  }

  lemma {:induction false} StaysLinked(s: seq<Inode>, depth: seq<nat>, ip: nat, es: seq<string>)
    requires Tree(s, depth) && ip < |s| && s[ip].kind != Free && (s[ip].kind == Dir ==> Linked(s[ip]))
    ensures !MeetsFree(s, ip, es)
    decreases |es|
  {
    if es != [] && s[ip].kind == Dir {
      var c := Child(s[ip].entries, Key(es[0]));
      if c != 0 {
        assert [es[0]][1..] == [] && Walk(s, ip, [es[0]]) == Some(c);
        WalkStays(s, depth, ip, [es[0]]);
        StaysLinked(s, depth, c, es[1..]);
      }
    }
  }

  /** From an allocated inode the walk comes to a free one exactly if it climbs out of the tree. */
  lemma {:induction false} WalkExactly(s: seq<Inode>, depth: seq<nat>, ip: nat, es: seq<string>)
    requires Tree(s, depth) && InRange(s) && ip < |s| && s[ip].kind != Free
    ensures MeetsFree(s, ip, es) <==> ClimbsOut(s, ip, es)
    decreases |es|
  {
    if es == [] || s[ip].kind != Dir {
    } else if Linked(s[ip]) {
      StaysLinked(s, depth, ip, es);
    } else {
      RemovedChild(s, depth, ip, Key(es[0]));
      var c := Child(s[ip].entries, Key(es[0]));
      if c != 0 && s[c].kind != Free {
        WalkExactly(s, depth, c, es[1..]);
      }
    }
  }

  /** A case that is reached: a directory is made and one in it, which becomes a working directory;
      both are removed, and the outer one is freed.  Then ".." panics. */
  lemma RemovedParent(e: string)
    ensures var root := Inode(Dir, 1, [Dirent(1, Dot), Dirent(1, DotDot)]);
      var gone := Inode(Dir, 0, [Dirent(3, Dot), Dirent(2, DotDot)]);
      var s := [Inode(Free, 0, []), root, Inode(Free, 0, []), gone];
      Sound(s, [0, 0, 0, 0]) && InRange(s) && MeetsFree(s, 3, [".."]) && Panics(s, 3, ["..", e])
  {
    var root := Inode(Dir, 1, [Dirent(1, Dot), Dirent(1, DotDot)]);
    var gone := Inode(Dir, 0, [Dirent(3, Dot), Dirent(2, DotDot)]);
    var s := [Inode(Free, 0, []), root, Inode(Free, 0, []), gone];
    SmallCounts(s);
    assert Inv(s, [0, 0, 0, 0], [0, 0, 0, 0]);
    ChildFirst(gone.entries, DotDot, 1);
    assert ["..", e][..1] == [".."] && MeetsFree(s, 2, [".."][1..]);
  }

  /** A name that create could have entered. */
  predicate Proper(name: Name) {
    name.Plain? && name.text != "" && NoSlash(name.text, 0, |name.text|) && |name.text| <= DIRSIZ &&
      Key(name.text) == name
  }

  /** Every linked directory has an absolute path. */
  lemma {:induction false} HasPath(s: seq<Inode>, depth: seq<nat>, d: nat) returns (p: string, es: seq<string>)
    requires Tree(s, depth) && d < |s| && Linked(s[d])
    requires forall u: nat, k: nat :: InUse(s, u, k) ==> Proper(s[u].entries[k].name)
    ensures p != "" && p[0] == '/' && Spells(p, es) && Walk(s, ROOTINO, es) == Some(d)
    decreases depth[d]
  {
    if d == ROOTINO {
      return "/", [];
    }
    assert ParentOk(s, d);
    var u := s[d].entries[1].inum;
    var k :| 2 <= k < |s[u].entries| && s[u].entries[k].inum == d;
    assert InUse(s, u, k) && EntryOk(s, depth, u, k);
    p, es := HasPath(s, depth, u);
    var e := s[u].entries[k].name.text;
    assert Proper(s[u].entries[k].name) && DirOk(s[u].entries, u);
    ChildFirst(s[u].entries, Key(e), k);
    WalkMore(s, ROOTINO, es, e);
    assert [e][1..] == [];
    SpellsMore(p, 0, es, e, p + "/" + e);
    p, es := p + "/" + e, es + [e];
  }

  /** The path names d from everywhere: it is absolute and leads from the root to d. */
  ghost predicate PathOf(s: seq<Inode>, path: string, d: nat) {
    path != "" && path[0] == '/' && exists es :: Spells(path, es) && Walk(s, ROOTINO, es) == Some(d)
  }

  /** Every linked directory has such a path. */
  lemma DirHasPath(s: seq<Inode>, depth: seq<nat>, d: nat) returns (p: string)
    requires Tree(s, depth) && d < |s| && Linked(s[d])
    requires forall u: nat, k: nat :: InUse(s, u, k) ==> Proper(s[u].entries[k].name)
    ensures PathOf(s, p, d)
  {
    var es;
    p, es := HasPath(s, depth, d);
  }

  /** In a directory that is linked "." leads to itself, and ".." to the directory that lists it, or from the
      root to the root. */
  lemma DotsLead(s: seq<Inode>, depth: seq<nat>, d: nat)
    requires Tree(s, depth) && d < |s| && Linked(s[d])
    ensures Walk(s, d, ["."]) == Some(d)
    ensures Walk(s, d, [".."]).Some? && Walk(s, d, [".."]).value < |s|
    ensures var u := Walk(s, d, [".."]).value;
      Linked(s[u]) && if d == ROOTINO then u == d else Lists(s[u].entries, d)
  {
    assert DirOk(s[d].entries, d) && ["."][1..] == [] && [".."][1..] == [];
    ChildFirst(s[d].entries, Dot, 0);
    ChildFirst(s[d].entries, DotDot, 1);
    assert Key(".") == Dot && Key("..") == DotDot;
    if d != ROOTINO {
      assert ParentOk(s, d);
    }
  }

  /** Only after the last element is the path at its end. */
  lemma LastElem(p: string, next: nat, es: seq<string>)
    requires es != [] && next <= |p| && SpellsFrom(p, next, es[1..]) && (next == |p| || p[next] != '/')
    ensures next == |p| <==> |es| == 1
  {
    if next == |p| && |es| > 1 {
      var a, b := FirstOf(p, next, es[1..]);
    }
  }

  /** One element of a walk, and whether the walk panics. */
  lemma PanicStep(s: seq<Inode>, ip: nat, es: seq<string>)
    requires es != [] && ip < |s|
    ensures s[ip].kind == Free ==> Panics(s, ip, es)
    ensures s[ip].kind != Free && (s[ip].kind != Dir || |es| == 1) ==> !Panics(s, ip, es)
    ensures s[ip].kind == Dir && |es| > 1 ==>
      var c := Child(s[ip].entries, Key(es[0]));
      Panics(s, ip, es) <==> c != 0 && Panics(s, c, es[1..])
  {
    var init := es[..|es| - 1];
    if |es| > 1 {
      assert init[0] == es[0] && init[1..] == es[1..][..|es| - 2];
    }
  }

  /** One element of a walk. */
  lemma TargetStep(s: seq<Inode>, ip: nat, es: seq<string>, parent: bool)
    requires es != [] && ip < |s|
    ensures s[ip].kind != Dir ==> Target(s, ip, es, parent) == None
    ensures s[ip].kind == Dir && parent && |es| == 1 ==> Target(s, ip, es, parent) == Some(ip)
    ensures s[ip].kind == Dir && !(parent && |es| == 1) ==>
      var c := Child(s[ip].entries, Key(es[0]));
      Target(s, ip, es, parent) == if c == 0 then None else Target(s, c, es[1..], parent)
  {
  }

  // ---- The code

  /** skipelem: the next element, and where the one after it starts; `next` is -1 where there is none. */
  method Skipelem(path: string, start: nat) returns (next: int, name: string, ghost a: nat, ghost b: nat)
    requires start <= |path|
    ensures next == -1 <==> Slashes(path, start, |path|)
    ensures next != -1 ==> start <= a < b <= next <= |path| && First(path, start, a, b) && Slashes(path, b, next)
    ensures next != -1 ==> name == Cut(path[a..b]) && (next == |path| || path[next] != '/')
  {
    var i := start;
    a, b := 0, 0;
    while i < |path| && path[i] == '/'
      invariant start <= i <= |path| && Slashes(path, start, i)
    {
      i := i + 1;
    }
    if i == |path| {
      return -1, "", 0, 0;
    }
    var from := i;
    while i < |path| && path[i] != '/'
      invariant from <= i <= |path| && NoSlash(path, from, i)
    {
      i := i + 1;
    }
    name := if i - from >= DIRSIZ then path[from..from + DIRSIZ] else path[from..i];
    a, b := from, i;
    assert First(path, start, a, b);
    while i < |path| && path[i] == '/'
      invariant b <= i <= |path| && Slashes(path, b, i)
    {
      i := i + 1;
    }
    next := i;
  }

  datatype Turn = Going | Ended | Panicked

  /** Where the loop of namex is: the elements `rest` are to be looked up from ip on, or it is done
      with the walk along `all` from `start`. */
  ghost predicate WalkLoop(s: seq<Inode>, path: string, start: nat, all: seq<string>, parent: bool, turn: Turn, r: int,
      name: string, at: nat, rest: seq<string>) {
    match turn
    case Panicked => Panics(s, start, all)
    case Ended =>
      && !Panics(s, start, all) && r == Pointer(Target(s, start, all, parent))
      && (parent && r != -1 ==> all != [] && name == Cut(all[|all| - 1]))
    case Going =>
      && at <= |path| && SpellsFrom(path, at, rest) && 0 <= r < |s|
      && Target(s, r, rest, parent) == Target(s, start, all, parent) && (Panics(s, r, rest) <==> Panics(s, start, all))
      && (rest != [] ==> all != [] && all[|all| - 1] == rest[|rest| - 1])
  }

  /** One turn of the loop: the inode of the next element, or the end of the walk. */
  method NextInode(fs: Dirs.DirFs, ip: nat, path: string, at: nat, nameiparent: bool, ghost rest: seq<string>)
    returns (turn: Turn, r: int, end: nat, name: string)
    requires InRange(fs.inodes) && ip < |fs.inodes| && at <= |path| && SpellsFrom(path, at, rest)
    ensures turn == Panicked ==> Panics(fs.inodes, ip, rest)
    ensures turn == Ended ==>
      !Panics(fs.inodes, ip, rest) && r == Pointer(Target(fs.inodes, ip, rest, nameiparent))
    ensures turn == Ended && nameiparent && r != -1 ==> |rest| == 1 && name == Cut(rest[0])
    ensures turn == Going ==> rest != [] && 0 <= r < |fs.inodes| && end <= |path| && SpellsFrom(path, end, rest[1..])
    ensures turn == Going ==> Target(fs.inodes, r, rest[1..], nameiparent) == Target(fs.inodes, ip, rest, nameiparent)
    ensures turn == Going ==> (Panics(fs.inodes, r, rest[1..]) <==> Panics(fs.inodes, ip, rest))
  {
    var next, elem, a, b := Skipelem(path, at);
    if next == -1 {
      OneSpelling(path, at, rest, []);
      return Ended, if nameiparent then -1 else ip, at, "";
    }
    end, name := next, elem;
    NextElem(path, at, rest, next, a, b);
    LastElem(path, next, rest);
    TargetStep(fs.inodes, ip, rest, nameiparent);
    PanicStep(fs.inodes, ip, rest);
    if fs.inodes[ip].kind == Free {
      return Panicked, -1, end, name;
    }
    if fs.inodes[ip].kind != Dir {
      return Ended, -1, end, name;
    }
    if nameiparent && next == |path| {
      return Ended, ip, end, name;
    }
    var found, k := fs.Dirlookup(ip, NameOf(name));
    if !found {
      ChildAbsent(fs.inodes[ip].entries, NameOf(name));
      return Ended, -1, end, name;
    }
    ChildFirst(fs.inodes[ip].entries, NameOf(name), k);
    return Going, fs.inodes[ip].entries[k].inum, end, name;
  }

  method NextTurn(fs: Dirs.DirFs, ip: nat, path: string, at: nat, nameiparent: bool, ghost start: nat,
      ghost all: seq<string>, ghost rest: seq<string>)
    returns (turn: Turn, r: int, end: nat, name: string, ghost rest': seq<string>)
    requires InRange(fs.inodes) && WalkLoop(fs.inodes, path, start, all, nameiparent, Going, ip, "", at, rest)
    ensures WalkLoop(fs.inodes, path, start, all, nameiparent, turn, r, name, end, rest')
    ensures turn == Going ==> |rest'| < |rest|
  {
    turn, r, end, name := NextInode(fs, ip, path, at, nameiparent, rest);
    rest' := if turn == Going then rest[1..] else rest;
  }

  /** The loop of namex from inode `start` on, for the one reading of the path. */
  method Resolve(fs: Dirs.DirFs, start: nat, path: string, nameiparent: bool)
    returns (r: int, name: string, panics: bool, ghost all: seq<string>)
    requires InRange(fs.inodes) && start < |fs.inodes|
    ensures Spells(path, all) && (panics <==> Panics(fs.inodes, start, all))
    ensures !panics ==> r == Pointer(Target(fs.inodes, start, all, nameiparent))
    ensures !panics && nameiparent && r != -1 ==> all != [] && name == Cut(all[|all| - 1])
  {
    all := SomeSpelling(path, 0);
    ghost var rest := all;
    var at, turn := 0, Going;
    r, name := start, "";
    while turn == Going
      invariant WalkLoop(fs.inodes, path, start, all, nameiparent, turn, r, name, at, rest)
      decreases turn == Going, |rest|
    {
      turn, r, at, name, rest := NextTurn(fs, r, path, at, nameiparent, start, all, rest);
    }
    panics := turn == Panicked;
  }

  /** The walk from inode ip along the path panics or ends at r, with that last element. */
  ghost predicate Leads(s: seq<Inode>, ip: nat, path: string, parent: bool, r: int, name: string, panics: bool) {
    forall es :: Spells(path, es) ==>
      && (panics <==> Panics(s, ip, es))
      && (!panics ==> r == Pointer(Target(s, ip, es, parent)))
      && (!panics && parent && r != -1 ==> es != [] && name == Cut(es[|es| - 1]))
  }

  /** namex: the inode a path names, or its parent and the last element; -1 for the null pointer.  A path
      that begins with a slash is walked from the root, whatever the working directory, and any other
      from the working directory. */
  method Namex(fs: Dirs.DirFs, cwd: nat, path: string, nameiparent: bool) returns (r: int, name: string, panics: bool)
    requires InRange(fs.inodes) && cwd < |fs.inodes| && |fs.inodes| > ROOTINO
    ensures path != "" && path[0] == '/' ==> Leads(fs.inodes, ROOTINO, path, nameiparent, r, name, panics)
    ensures path == "" || path[0] != '/' ==> Leads(fs.inodes, cwd, path, nameiparent, r, name, panics)
  {
    var ip := cwd;
    if path != "" && path[0] == '/' {
      ip := ROOTINO;
    }
    ghost var all;
    r, name, panics, all := Resolve(fs, ip, path, nameiparent);
    forall es | Spells(path, es) ensures es == all {
      OneSpelling(path, 0, es, all);
    }
  }

  /** namei of a path of d finds d, from every working directory and without a panic. */
  method Namei(fs: Dirs.DirFs, cwd: nat, path: string, ghost depth: seq<nat>) returns (r: int, panics: bool)
    requires InRange(fs.inodes) && cwd < |fs.inodes| && Tree(fs.inodes, depth)
    ensures path != "" && path[0] == '/' ==> !panics
    ensures forall d: nat :: PathOf(fs.inodes, path, d) ==> r == d
  {
    var name;
    r, name, panics := Namex(fs, cwd, path, false);
    ghost var all := SomeSpelling(path, 0);
    assert Spells(path, all);
    if all != [] {
      StaysLinked(fs.inodes, depth, ROOTINO, all[..|all| - 1]);
    }
  }
}
