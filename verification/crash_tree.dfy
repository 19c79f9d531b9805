/** The log and the directory tree together: after a crash the tree and its link counts are right. */
module CrashTree {
  import opened Blocks
  import opened LogProtocol
  import opened LogTheorems
  import opened LogRuns
  import opened CrashRuns
  import opened Common
  import A = AtomicDisk
  import L = CrashLocks
  import D = DirTree
  import Dirs

  /** What the file system calls do to the tree. */
  datatype Effect =
    | Create(d: nat, k: nat, c: nat, name: D.Name, kind: D.Kind)
    | MakeDir(d: nat, k: nat, c: nat, name: D.Name)
    | Link(d: nat, k: nat, c: nat, name: D.Name)
    | Remove(d: nat, k: nat)
    | Reap(i: nat)

  /** Directory d is linked, has no entry of that name, and place k for one. */
  predicate Enters(s: seq<D.Inode>, d: nat, k: nat, name: D.Name) {
    d < |s| && D.Linked(s[d]) && D.Room(s[d].entries, k) && D.Absent(s[d].entries, name)
  }

  /** The inodes after sys_link. */
  function Relinked(s: seq<D.Inode>, d: nat, k: nat, c: nat, name: D.Name): (r: seq<D.Inode>)
    requires d < |s| && c < |s| && d != c && k <= |s[d].entries|
  {
    s[c := s[c].(nlink := s[c].nlink + 1)][d := s[d].(entries := D.Put(s[d].entries, k, D.Dirent(c, name)))]
  }

  ghost predicate Does(s: seq<D.Inode>, e: Effect, s': seq<D.Inode>) {
    match e
    case Create(d, k, c, name, kind) =>
      && Enters(s, d, k, name) && 0 < c < |s| && s[c].kind == D.Free && (kind == D.File || kind == D.Dev)
      && s' == Dirs.Mkfile(s, d, k, c, name, kind)
    case MakeDir(d, k, c, name) =>
      Enters(s, d, k, name) && 0 < c < |s| && s[c].kind == D.Free && s' == D.Mkdir(s, d, k, c, name)
    case Link(d, k, c, name) =>
      && Enters(s, d, k, name) && 0 < c < |s| && (s[c].kind == D.File || s[c].kind == D.Dev)
      && s' == Relinked(s, d, k, c, name)
    case Remove(d, k) =>
      && D.MayUnlink(s, d, k) && D.Linked(s[d]) && s[d].entries[k].inum != d && s[s[d].entries[k].inum].nlink >= 1
      && s' == D.Unlinked(s, d, k)
    case Reap(i) => 0 < i < |s| && s[i].nlink == 0 && s' == s[i := D.Inode(D.Free, 0, [])]
  }

  /** A tree whose link counts are all right. */
  ghost predicate Whole(s: seq<D.Inode>) {
    D.Sound(s, seq(|s|, _ => 0))
  }

  lemma CreateKeeps(s: seq<D.Inode>, depth: seq<nat>, p: seq<nat>, d: nat, k: nat, c: nat, name: D.Name, kind: D.Kind)
    requires D.Inv(s, depth, p) && Enters(s, d, k, name)
    requires 0 < c < |s| && s[c].kind == D.Free && (kind == D.File || kind == D.Dev)
    ensures D.Inv(Dirs.Mkfile(s, d, k, c, name, kind), depth, p)
  {
    D.AllocKeeps(s, depth, p, c, kind);
    Dirs.NoneFree(s, depth, p, c);
    D.EnterKeeps(s[c := D.Inode(kind, 1, [])], depth, p[c := 1], d, k, c, name);
    assert p[c := 1][c := 0] == p;
  }

  lemma EntryKeeps(s: seq<D.Inode>, depth: seq<nat>, p: seq<nat>, d: nat, k: nat, c: nat, name: D.Name,
      s': seq<D.Inode>, p': seq<nat>)
    requires D.Inv(s, depth, p) && Enters(s, d, k, name) && 0 < c < |s| && p[c] > 0
    requires s' == s[d := s[d].(entries := D.Put(s[d].entries, k, D.Dirent(c, name)))]
    requires |p'| == |p| && p'[c] == p[c] - 1 && forall i :: 0 <= i < |p| && i != c ==> p'[i] == p[i]
    ensures D.Inv(s', depth, p')
  {
    D.EnterKeeps(s, depth, p, d, k, c, name);
    assert p' == p[c := p[c] - 1];
  }

  lemma LinkKeeps(s: seq<D.Inode>, depth: seq<nat>, p: seq<nat>, d: nat, k: nat, c: nat, name: D.Name,
      s': seq<D.Inode>)
    requires D.Inv(s, depth, p) && Does(s, Link(d, k, c, name), s')
    ensures D.Inv(s', depth, p)
  {
    var s1, p1 := s[c := s[c].(nlink := s[c].nlink + 1)], p[c := p[c] + 1];
    Dirs.NlinkOnly(s, depth, p, c, s[c].nlink + 1, p[c] + 1);
    assert s1[d] == s[d];
    EntryKeeps(s1, depth, p1, d, k, c, name, s', p);
  }

  /** Each effect keeps the tree, and the link counts up to those pending. */
  lemma EffectInv(s: seq<D.Inode>, depth: seq<nat>, p: seq<nat>, e: Effect, s': seq<D.Inode>)
    requires D.Inv(s, depth, p) && Does(s, e, s')
    ensures |s'| == |s| && D.Sound(s', p)
  {
    match e
    case Create(d, k, c, name, kind) => CreateKeeps(s, depth, p, d, k, c, name, kind);
    case MakeDir(d, k, c, name) => D.MkdirKeeps(s, depth, p, d, k, c, name);
    case Link(d, k, c, name) => LinkKeeps(s, depth, p, d, k, c, name, s');
    case Remove(d, k) => D.UnlinkKeeps(s, depth, p, d, k);
    case Reap(i) => D.ReapKeeps(s, depth, p, i);
  }

  lemma EffectKeeps(s: seq<D.Inode>, e: Effect, s': seq<D.Inode>)
    requires Whole(s) && Does(s, e, s')
    ensures Whole(s')
  {
    var none := seq(|s|, _ => 0);
    var depth :| D.Inv(s, depth, none);
    EffectInv(s, depth, none, e, s');
  }

  /** A sequence of effects. */
  ghost predicate Chain(ss: seq<seq<D.Inode>>, es: seq<Effect>) {
    |ss| == |es| + 1 && forall i :: 0 <= i < |es| ==> Does(ss[i], es[i], ss[i + 1])
  }

  ghost predicate Leads(s: seq<D.Inode>, s': seq<D.Inode>) {
    exists ss, es :: Chain(ss, es) && ss[0] == s && ss[|es|] == s'
  }

  lemma LeadsKeeps(s: seq<D.Inode>, s': seq<D.Inode>)
    requires Whole(s) && Leads(s, s')
    ensures Whole(s')
  {
    var ss, es :| Chain(ss, es) && ss[0] == s && ss[|es|] == s';
    for i := 0 to |es|
      invariant Whole(ss[i])
    {
      EffectKeeps(ss[i], es[i], ss[i + 1]);
    }
  }

  /** Each operation whose writes survive a crash changes the tree that the home blocks hold by effects of
      these kinds. */
  ghost predicate TreeOps(a: A.Disk, view: seq<Block> -> seq<D.Inode>)
    requires A.Fits(a.base, a.writes) && a.mark <= |a.writes|
  {
    forall i: nat, j: nat :: WholeOp(Kept(a), i, j) ==> Leads(view(After(a, i)), view(After(a, j)))
  }

  /** If every operation, whole, creates, links, removes or frees as the calls do, then after a crash
      anywhere in any run the home blocks hold a tree with the right link counts. */
  lemma CrashedTree(run: seq<State>, steps: seq<Step>, home: seq<Block>, i: nat,
                    rrun: seq<State>, rsteps: seq<Step>, r: State, view: seq<Block> -> seq<D.Inode>)
    returns (ghosts: seq<A.Disk>, es: seq<A.Event>)
    requires FromBoot(run, steps, home) && NoOverrun(run) && i < |run| && Recovers(run[i], rrun, rsteps, r)
    requires Whole(view(home))
    ensures Simulates(run, steps, ghosts, es) && A.IsRun(ghosts, es) && ghosts[0] == A.Start(home) && i < |ghosts|
    ensures A.Wf(ghosts[i]) && r.start <= |r.disk|
    ensures Serial(Kept(ghosts[i])) && TreeOps(ghosts[i], view) ==> Whole(view(r.disk[..r.start]))
  {
    var ok := (c: seq<Block>) => Whole(view(c));
    ghosts, es := CrashKeepsAny(run, steps, home, i, rrun, rsteps, r, ok);
    var a := ghosts[i];
    if Serial(Kept(a)) && TreeOps(a, view) {
      forall m: nat, n: nat | WholeOp(Kept(a), m, n) && ok(After(a, m)) ensures ok(After(a, n)) {
        LeadsKeeps(view(After(a, m)), view(After(a, n)));
      }
    }
  }

  /** An inode with a link that no entry has. */
  lemma HalfMade(s: seq<D.Inode>, c: nat)
    requires Whole(s) && 0 < c < |s| && s[c].kind == D.Free
    ensures !Whole(s[c := D.Inode(D.File, 1, [])])
  {
    D.CountPut(s, c, D.Inode(D.File, 1, []), c);
  }

  /** A case: create has logged the new inode with its link, not yet the entry.  The blocks hold no
      right tree then, but what the theorem asks still holds, so it covers a crash at this point. */
  lemma CrashInCreate(a: A.Disk, op: nat, block: nat, data: Block, view: seq<Block> -> seq<D.Inode>, c: nat)
    requires A.Wf(a) && op in a.active && block < |a.base| && Serial(Kept(a)) && TreeOps(a, view)
    requires Whole(view(A.Current(a))) && 0 < c < |view(A.Current(a))| && view(A.Current(a))[c].kind == D.Free
    requires view(A.Current(a)[block := data]) == view(A.Current(a))[c := D.Inode(D.File, 1, [])]
    ensures var a' := A.Apply(a, A.Put(op, block, data));
      && A.Wf(a') && Serial(Kept(a')) && TreeOps(a', view) && A.Durable(a') == A.Durable(a)
      && !Whole(view(A.Current(a')))
  {
    var a' := A.Apply(a, A.Put(op, block, data));
    A.ApplyContents(a, A.Put(op, block, data));
    assert Kept(a') == Kept(a);
    forall n: nat | n <= a.mark ensures After(a', n) == After(a, n) {
      assert a'.writes[..n] == a.writes[..n];
    }
    HalfMade(view(A.Current(a)), c);
  }

  // ---- Operations at the same time

  /** What one call does to the tree in one go: a whole effect, or half of sys_link. */
  datatype Act = InOne(e: Effect) | LinkStart(c: nat) | LinkFinish(d: nat, k: nat, name: D.Name) | TakeBack

  /** An operation that owes the entry for a link of inode `owe`, or none for 0, comes to owe `owe'`. */
  ghost predicate DoesAct(s: seq<D.Inode>, owe: nat, act: Act, s': seq<D.Inode>, owe': nat) {
    match act
    case InOne(e) => Does(s, e, s') && owe' == owe
    case LinkStart(c) =>
      && owe == 0 && owe' == c && 0 < c < |s| && (s[c].kind == D.File || s[c].kind == D.Dev)
      && s' == s[c := s[c].(nlink := s[c].nlink + 1)]
    case LinkFinish(d, k, name) =>
      && 0 < owe < |s| && owe' == 0 && Enters(s, d, k, name)
      && s' == s[d := s[d].(entries := D.Put(s[d].entries, k, D.Dirent(owe, name)))]
    case TakeBack =>
      && 0 < owe < |s| && owe' == 0 && s[owe].nlink >= 1 && s' == s[owe := s[owe].(nlink := s[owe].nlink - 1)]
  }

  /** The operations that owe an entry for inode i. */
  function Owing(w: map<nat, nat>, i: nat): (ops: set<nat>) {
    set op | op in w && w[op] == i && i != 0
  }

  function Pending(w: map<nat, nat>, n: nat): (p: seq<nat>)
    ensures |p| == n
  {
    seq(n, i requires i >= 0 => |Owing(w, i)|)
  }

  /** A tree with right link counts but for the entries owed. */
  ghost predicate TreeOk(s: seq<D.Inode>, w: map<nat, nat>) {
    D.Sound(s, Pending(w, |s|))
  }

  /** The operations that owe it, other than op. */
  function Others(w: map<nat, nat>, op: nat, i: nat): (ops: set<nat>) {
    set o | o in w && w[o] == i && o != op
  }

  lemma OwingSplit(w: map<nat, nat>, op: nat, i: nat)
    requires i != 0
    ensures |Owing(w, i)| == |Others(w, op, i)| + One(op in w && w[op] == i)
  {
    if op in w && w[op] == i {
      assert Owing(w, i) == Others(w, op, i) + {op};
    } else {
      assert Owing(w, i) == Others(w, op, i);
    }
  }

  lemma OwingPut(w: map<nat, nat>, op: nat, g: nat, i: nat)
    requires i != 0
    ensures |Owing(w[op := g], i)| + One(op in w && w[op] == i) == |Owing(w, i)| + One(g == i)
  {
    OwingSplit(w, op, i);
    OwingSplit(w[op := g], op, i);
    assert Others(w[op := g], op, i) == Others(w, op, i);
  }

  /** What the change of one debt changes. */
  lemma PendingPut(w: map<nat, nat>, op: nat, g: nat, n: nat)
    requires op in w ==> w[op] == 0 || g == 0
    ensures var p, p', was := Pending(w, n), Pending(w[op := g], n), if op in w then w[op] else 0;
      && (was == g ==> p' == p) && (g != 0 && g < n && was == 0 ==> p' == p[g := p[g] + 1])
      && (was != 0 && was < n && g == 0 ==> p[was] > 0 && p' == p[was := p[was] - 1])
  {
    var p, p' := Pending(w, n), Pending(w[op := g], n);
    forall i: nat | i < n
      ensures p[i] == |Owing(w, i)| && p'[i] == |Owing(w[op := g], i)|
      ensures i == 0 ==> p[i] == p'[i] == 0
      ensures i != 0 ==> p'[i] + One(op in w && w[op] == i) == p[i] + One(g == i) {
      if i != 0 {
        OwingPut(w, op, g, i);
      }
    }
    if op in w && 0 < w[op] < n {
      assert op in Owing(w, w[op]);
    }
  }

  lemma StartKeeps(s: seq<D.Inode>, w: map<nat, nat>, op: nat, c: nat, s': seq<D.Inode>)
    requires TreeOk(s, w) && op in w && w[op] == 0 && DoesAct(s, 0, LinkStart(c), s', c)
    ensures TreeOk(s', w[op := c])
  {
    var p := Pending(w, |s|);
    var depth :| D.Inv(s, depth, p);
    PendingPut(w, op, c, |s|);
    Dirs.NlinkOnly(s, depth, p, c, s[c].nlink + 1, p[c] + 1);
  }

  lemma FinishKeeps(s: seq<D.Inode>, w: map<nat, nat>, op: nat, d: nat, k: nat, name: D.Name, s': seq<D.Inode>)
    requires TreeOk(s, w) && op in w && DoesAct(s, w[op], LinkFinish(d, k, name), s', 0)
    ensures TreeOk(s', w[op := 0])
  {
    var p := Pending(w, |s|);
    var depth :| D.Inv(s, depth, p);
    PendingPut(w, op, 0, |s|);
    D.EnterKeeps(s, depth, p, d, k, w[op], name);
  }

  lemma BackKeeps(s: seq<D.Inode>, w: map<nat, nat>, op: nat, s': seq<D.Inode>)
    requires TreeOk(s, w) && op in w && DoesAct(s, w[op], TakeBack, s', 0)
    ensures TreeOk(s', w[op := 0])
  {
    var p, c := Pending(w, |s|), w[op];
    var depth :| D.Inv(s, depth, p);
    PendingPut(w, op, 0, |s|);
    Dirs.NlinkOnly(s, depth, p, c, s[c].nlink - 1, p[c] - 1);
  }

  /** Each act keeps the tree, and the link counts up to the entries owed. */
  lemma ActKeeps(s: seq<D.Inode>, w: map<nat, nat>, op: nat, act: Act, s': seq<D.Inode>, g: nat)
    requires TreeOk(s, w) && op in w && DoesAct(s, w[op], act, s', g)
    ensures TreeOk(s', w[op := g])
  {
    match act
    case InOne(e) =>
      var depth :| D.Inv(s, depth, Pending(w, |s|));
      EffectInv(s, depth, Pending(w, |s|), e, s');
      assert w[op := g] == w;
    case LinkStart(c) => StartKeeps(s, w, op, c, s');
    case LinkFinish(d, k, name) => FinishKeeps(s, w, op, d, k, name, s');
    case TakeBack => BackKeeps(s, w, op, s');
  }

  function InodeAt(s: seq<D.Inode>, i: nat): (v: seq<D.Inode>) {
    if i < |s| then [s[i]] else []
  }

  ghost predicate MayAct(s: seq<D.Inode>, w: map<nat, nat>, op: nat, s': seq<D.Inode>, g: nat) {
    op in w && exists act :: DoesAct(s, w[op], act, s', g)
  }

  ghost function TreeRules(view: seq<Block> -> seq<D.Inode>): (r: L.Rules<seq<D.Inode>, nat, seq<D.Inode>, nat>) {
    L.Rules(view, InodeAt, (s, w, op, s', g) => MayAct(s, w, op, s', g), 0)
  }

  lemma SameInodes(s: seq<D.Inode>, s': seq<D.Inode>, r: L.Rules<seq<D.Inode>, nat, seq<D.Inode>, nat>)
    requires L.SameOff(r, s, s', {}) && r.at == InodeAt
    ensures s' == s
  {
    forall i: nat ensures InodeAt(s', i) == InodeAt(s, i) {
      assert r.at(s', i) == r.at(s, i);
    }
    assert InodeAt(s', |s|) == InodeAt(s, |s|) && InodeAt(s', |s'|) == InodeAt(s, |s'|);
    forall i: nat | i < |s| ensures s'[i] == s[i] {
      assert InodeAt(s', i) == InodeAt(s, i);
    }
  }

  lemma TreeLawful(view: seq<Block> -> seq<D.Inode>)
    ensures L.Lawful(TreeRules(view), (s, w) => TreeOk(s, w))
  {
    var r := TreeRules(view);
    forall s: seq<D.Inode>, s': seq<D.Inode>, w: map<nat, nat> | TreeOk(s, w) && L.SameOff(r, s, s', {})
      ensures TreeOk(s', w) {
      SameInodes(s, s', r);
    }
    forall s: seq<D.Inode>, w: map<nat, nat>, op: nat | TreeOk(s, w) && op !in w ensures TreeOk(s, w[op := 0]) {
      PendingPut(w, op, 0, |s|);
    }
    forall s: seq<D.Inode>, w: map<nat, nat>, op: nat | TreeOk(s, w) && op in w && w[op] == 0
      ensures TreeOk(s, w - {op}) {
      PendingPut(w - {op}, op, 0, |s|);
      assert (w - {op})[op := 0] == w;
    }
    forall s: seq<D.Inode>, w: map<nat, nat>, op: nat, s': seq<D.Inode>, g: nat
      | TreeOk(s, w) && op in w && MayAct(s, w, op, s', g) ensures TreeOk(s', w[op := g]) {
      var act :| DoesAct(s, w[op], act, s', g);
      ActKeeps(s, w, op, act, s', g);
    }
  }

  lemma NoneOwed(s: seq<D.Inode>)
    ensures TreeOk(s, map[]) <==> Whole(s)
  {
    var p := Pending(map[], |s|);
    forall i: nat | i < |s| ensures p[i] == 0 {
      assert Owing(map[], i) == {};
    }
    assert p == seq(|s|, _ => 0);
  }

  /** Calls run at the same time and their writes interleave; each changes only inodes it holds, and lets
      go of them when they are written.  Then after a crash anywhere, in the middle of any calls, the
      home blocks hold a tree with the right link counts. */
  lemma CrashedCalls(run: seq<State>, steps: seq<Step>, home: seq<Block>, i: nat,
                     rrun: seq<State>, rsteps: seq<Step>, r: State, view: seq<Block> -> seq<D.Inode>)
    returns (ghosts: seq<A.Disk>, es: seq<A.Event>)
    requires FromBoot(run, steps, home) && NoOverrun(run) && i < |run| && Recovers(run[i], rrun, rsteps, r)
    requires Whole(view(home))
    ensures Simulates(run, steps, ghosts, es) && A.IsRun(ghosts, es) && ghosts[0] == A.Start(home)
    ensures forall books, moves :: L.Booked(TreeRules(view), ghosts, es, books, moves, i) ==>
      r.start <= |r.disk| && Whole(view(r.disk[..r.start]))
  {
    var ok := (s, w) => TreeOk(s, w);
    TreeLawful(view);
    NoneOwed(view(home));
    ghosts, es := L.CrashKeepsLocked(TreeRules(view), ok, run, steps, home, i, rrun, rsteps, r);
    forall books, moves | L.Booked(TreeRules(view), ghosts, es, books, moves, i)
      ensures Whole(view(r.disk[..r.start])) {
      NoneOwed(view(r.disk[..r.start]));
    }
  }

  /** A case: a call has begun to create file c in directory d, and has logged the new inode with its
      link, not yet the entry.  This keeps the discipline, so a crash here is covered. */
  lemma HalfCreated(a: A.Disk, block: nat, data: Block, view: seq<Block> -> seq<D.Inode>, d: nat, k: nat, c: nat,
      name: D.Name, w: nat, b: L.Book<seq<D.Inode>, nat, nat>)
    returns (ms: seq<L.Move<seq<D.Inode>, nat, nat>>, b': L.Book<seq<D.Inode>, nat, nat>)
    requires A.Wf(a) && w in a.active && block < |a.base| && w in b.holds && w in b.owes
    requires Enters(b.state, d, k, name) && 0 < c < |b.state| && b.state[c].kind == D.Free
    requires view(A.Current(a)) == b.state
    requires view(A.Current(a)[block := data]) == b.state[c := D.Inode(D.File, 1, [])]
    ensures L.Follows(TreeRules(view), a, A.Put(w, block, data), b, ms, b')
    ensures b'.state == Dirs.Mkfile(b.state, d, k, c, name, D.File)
  {
    var r, s := TreeRules(view), b.state;
    var s' := Dirs.Mkfile(s, d, k, c, name, D.File);
    var m1, m2, m3 := L.Take(w, c), L.Take(w, d), L.Act(w, s', b.owes[w]);
    var b1 := L.Moved(b, m1);
    var b2 := L.Moved(b1, m2);
    b' := L.Moved(b2, m3);
    ms := [m1, m2, m3];
    assert DoesAct(s, b2.owes[w], InOne(Create(d, k, c, name, D.File)), s', b.owes[w]);
    assert ms[1..] == [m2, m3] && ms[1..][1..] == [m3] && ms[1..][1..][1..] == [];
    assert L.MovesTo(r, s, b', [], b') && L.MovesTo(r, s, b2, [m3], b') && L.MovesTo(r, s, b1, [m2, m3], b');
    assert L.MovesTo(r, s, b, ms, b') && L.MayHappen(r, a, A.Put(w, block, data), b');
  }
}
