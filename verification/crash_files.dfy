/** The log and filewrite together: each chunk of a write is one operation of the log, whose writes
    are the blocks the chunk passed to log_write, and a crash leaves a whole number of chunks. */
module CrashFiles {
  import opened Blocks
  import opened BlockMap
  import opened Fs
  import opened File
  import opened LogProtocol
  import opened LogTheorems
  import A = AtomicDisk

  // ---- Where the parts of the volume lie

  /** How the inodes of one block are stored in it. */
  type Coding = seq<Inode> -> Block

  /** IBLOCK, BBLOCK, and data blocks by their number. */
  function Place(l: Logged, ninodes: nat): (p: nat) {
    match l
    case InodeBlock(n) => n + 2
    case MapBlock(n) => n + ninodes / IPB + 3
    case BlockOf(b) => b
  }

  function InodesOf(dip: seq<Inode>, n: nat): (s: seq<Inode>) {
    if n * IPB >= |dip| then [] else if (n + 1) * IPB <= |dip| then dip[n * IPB..(n + 1) * IPB] else dip[n * IPB..]
  }

  function HomeBlock(code: Coding, h: Home, p: nat): (b: Block)
    requires p < |h.disk|
  {
    var map0 := |h.dip| / IPB + 3;
    if 2 <= p < map0 then code(InodesOf(h.dip, p - 2))
    else if map0 <= p < map0 + |h.bitmap| then h.bitmap[p - map0]
    else h.disk[p]
  }

  /** The blocks in front of the log. */
  function HomeBlocks(code: Coding, h: Home, start: nat): (s: seq<Block>)
    requires start <= |h.disk|
    ensures |s| == start
  {
    seq(start, p requires 0 <= p < start => HomeBlock(code, h, p))
  }

  /** A block that was not logged is as before. */
  lemma UnloggedSame(code: Coding, h: Home, h': Home, logged: set<Logged>, start: nat, p: nat)
    requires h' in Covered(h, logged) && p < start <= |h.disk|
    requires forall l :: l in logged ==> Place(l, |h.dip|) != p
    ensures HomeBlocks(code, h', start)[p] == HomeBlocks(code, h, start)[p]
  {
    var map0 := |h.dip| / IPB + 3;
    if 2 <= p < map0 {
      assert Place(InodeBlock(p - 2), |h.dip|) == p;
      var s, s' := InodesOf(h.dip, p - 2), InodesOf(h'.dip, p - 2);
      forall k | 0 <= k < |s| ensures s'[k] == s[k] {
        assert ((p - 2) * IPB + k) / IPB == p - 2;
        assert h'.dip[(p - 2) * IPB + k] == h.dip[(p - 2) * IPB + k];
      }
      assert s' == s;
    } else if map0 <= p < map0 + |h.bitmap| {
      assert Place(MapBlock(p - map0), |h.dip|) == p;
    } else {
      assert Place(BlockOf(p), |h.dip|) == p;
    }
  }

  // ---- The writes of a transaction

  ghost predicate IsPlace(l: Logged, ninodes: nat, block: nat, logged: set<Logged>) {
    l in logged && Place(l, ninodes) == block
  }

  /** The contents between those before and those after a transaction: logged blocks may be either way. */
  ghost predicate Between(c: seq<Block>, from: seq<Block>, ninodes: nat, logged: set<Logged>) {
    |c| == |from| && forall p :: 0 <= p < |c| && c[p] != from[p] ==> exists l :: IsPlace(l, ninodes, p, logged)
  }

  /** The logged blocks hold what the transaction made of them. */
  ghost predicate Stored(c: seq<Block>, after: seq<Block>, ninodes: nat, logged: set<Logged>) {
    |c| == |after| && forall l :: l in logged && Place(l, ninodes) < |c| ==>
      c[Place(l, ninodes)] == after[Place(l, ninodes)]
  }

  /** Once they do, all blocks are as the transaction left them: no change escapes the log. */
  lemma WholeTx(code: Coding, t: Tx, first: nat, limit: nat, start: nat, c: seq<Block>)
    requires TxOk(t, first, limit) && start <= |t.before.disk|
    requires Between(c, HomeBlocks(code, t.before, start), |t.before.dip|, t.logged)
    requires Stored(c, HomeBlocks(code, t.after, start), |t.before.dip|, t.logged)
    ensures c == HomeBlocks(code, t.after, start)
  {
    var from, to := HomeBlocks(code, t.before, start), HomeBlocks(code, t.after, start);
    forall p | 0 <= p < start ensures c[p] == to[p] {
      if exists l :: IsPlace(l, |t.before.dip|, p, t.logged) {
        var l :| IsPlace(l, |t.before.dip|, p, t.logged);
      } else {
        forall l | l in t.logged ensures Place(l, |t.before.dip|) != p {
          assert !IsPlace(l, |t.before.dip|, p, t.logged);
        }
        UnloggedSame(code, t.before, t.after, t.logged, start, p);
      }
    }
  }

  /** The write of a logged block, as the transaction left it. */
  function PutOf(code: Coding, t: Tx, start: nat, op: nat, l: Logged): (e: A.Event)
    requires start <= |t.after.disk|
  {
    var p := Place(l, |t.before.dip|);
    A.Put(op, p, if p < start then HomeBlocks(code, t.after, start)[p] else Zeroes())
  }

  /** Each event writes one of the blocks logged. */
  ghost predicate PutsOf(es: seq<A.Event>, code: Coding, t: Tx, start: nat, op: nat)
    requires start <= |t.after.disk|
  {
    forall k :: 0 <= k < |es| ==> exists l :: l in t.logged && es[k] == PutOf(code, t, start, op, l)
  }

  /** A state in the middle of operation op, which stores the transaction but for the blocks in `left`. */
  ghost predicate Storing(code: Coding, t: Tx, start: nat, op: nat, a: A.Disk, left: set<Logged>) {
    && A.Wf(a) && op in a.active && start <= |t.before.disk| == |t.after.disk|
    && Between(A.Current(a), HomeBlocks(code, t.before, start), |t.before.dip|, t.logged)
    && Stored(A.Current(a), HomeBlocks(code, t.after, start), |t.before.dip|, t.logged - left)
  }

  lemma PutStores(code: Coding, t: Tx, start: nat, op: nat, a: A.Disk, left: set<Logged>, l: Logged)
    requires Storing(code, t, start, op, a, left) && l in left && left <= t.logged && Place(l, |t.before.dip|) < start
    ensures var e := PutOf(code, t, start, op, l);
      A.Allowed(a, e) && Storing(code, t, start, op, A.Apply(a, e), left - {l})
    ensures A.Durable(A.Apply(a, PutOf(code, t, start, op, l))) == A.Durable(a)
  {
    var e, n := PutOf(code, t, start, op, l), |t.before.dip|;
    A.ApplyContents(a, e);
    var c := A.Current(A.Apply(a, e));
    assert IsPlace(l, n, Place(l, n), t.logged);
    forall p | 0 <= p < |c| && c[p] != HomeBlocks(code, t.before, start)[p]
      ensures exists l' :: IsPlace(l', n, p, t.logged) {
      if p != Place(l, n) {
        assert A.Current(a)[p] != HomeBlocks(code, t.before, start)[p];
      }
    }
  }

  lemma RunFrom(a: A.Disk, e: A.Event, run: seq<A.Disk>, es: seq<A.Event>)
    requires A.Allowed(a, e) && A.IsRun(run, es) && run[0] == A.Apply(a, e)
    ensures A.IsRun([a] + run, [e] + es) && ([a] + run)[|[e] + es|] == run[|es|]
  {
  }

  lemma PutsMore(es: seq<A.Event>, code: Coding, t: Tx, start: nat, op: nat, l: Logged)
    requires start <= |t.after.disk| && PutsOf(es, code, t, start, op) && l in t.logged
    ensures PutsOf([PutOf(code, t, start, op, l)] + es, code, t, start, op)
  {
  }

  lemma {:induction false} StoreAll(code: Coding, t: Tx, start: nat, op: nat, a: A.Disk, left: set<Logged>)
    returns (run: seq<A.Disk>, es: seq<A.Event>)
    requires Storing(code, t, start, op, a, left) && left <= t.logged
    requires forall l :: l in left ==> Place(l, |t.before.dip|) < start
    ensures A.IsRun(run, es) && run[0] == a && |es| == |left| && PutsOf(es, code, t, start, op)
    ensures Storing(code, t, start, op, run[|es|], {}) && A.Durable(run[|es|]) == A.Durable(a)
    ensures run[|es|].active == a.active
    decreases |left|
  {
    run, es := [a], [];
    if left != {} {
      var l :| l in left;
      var e := PutOf(code, t, start, op, l);
      PutStores(code, t, start, op, a, left, l);
      var more, rest := StoreAll(code, t, start, op, A.Apply(a, e), left - {l});
      RunFrom(a, e, more, rest);
      PutsMore(rest, code, t, start, op, l);
      run, es := [a] + more, [e] + rest;
    }
  }

  /** A transaction is an operation of the log: writing each logged block once takes the home blocks
      from those before it to those after it, and no other block needs writing. */
  lemma TxPuts(code: Coding, t: Tx, first: nat, limit: nat, start: nat, op: nat, a: A.Disk)
    returns (run: seq<A.Disk>, es: seq<A.Event>)
    requires TxOk(t, first, limit) && A.Wf(a) && op in a.active && limit <= start <= |t.before.disk|
    requires |t.before.dip| / IPB + 3 + |t.before.bitmap| <= start
    requires A.Current(a) == HomeBlocks(code, t.before, start)
    ensures A.IsRun(run, es) && run[0] == a && |es| == |t.logged| && PutsOf(es, code, t, start, op)
    ensures A.Wf(run[|es|]) && A.Current(run[|es|]) == HomeBlocks(code, t.after, start)
    ensures A.Durable(run[|es|]) == A.Durable(a) && run[|es|].active == a.active
  {
    forall l | l in t.logged ensures Place(l, |t.before.dip|) < start {
      assert InVolume(l, |t.before.bitmap|, |t.before.dip|, first, limit);
    }
    run, es := StoreAll(code, t, start, op, a, t.logged);
    assert t.logged - {} == t.logged;
    WholeTx(code, t, first, limit, start, A.Current(run[|es|]));
  }

  // ---- A crash in the middle of a write

  /** How far a write has come: whole transactions, and whether one is open, as operation op. */
  datatype Progress = Progress(k: nat, open: bool, op: nat)

  /** The home blocks after k transactions. */
  function Stage(h: Home, txs: seq<Tx>, k: nat): (r: Home)
    requires k <= |txs|
  {
    if k == 0 then h else txs[k - 1].after
  }

  /** What a writer does: each transaction is an operation that writes only blocks logged, in any
      order and any number of times, and ends when they are all as the transaction left them.
      Commits happen when they may. */
  ghost predicate Writer(code: Coding, txs: seq<Tx>, start: nat, a: A.Disk, e: A.Event, p: Progress, p': Progress) {
    && A.Wf(a) && A.Allowed(a, e)
    && match e
       case Begin => !p.open && p.k < |txs| && p' == Progress(p.k, true, a.next)
       case Put(_, block, _) =>
         p.open && p.k < |txs| && p' == p && exists l :: IsPlace(l, |txs[p.k].before.dip|, block, txs[p.k].logged)
       case End(_) =>
         && p.open && p.k < |txs| && p' == Progress(p.k + 1, false, p.op) && start <= |txs[p.k].after.disk|
         && Stored(A.Current(a), HomeBlocks(code, txs[p.k].after, start), |txs[p.k].before.dip|, txs[p.k].logged)
       case Crash => false
       case _ => p' == p
  }

  ghost predicate Writes(code: Coding, txs: seq<Tx>, start: nat, ghosts: seq<A.Disk>, es: seq<A.Event>,
      at: seq<Progress>, n: nat) {
    && n < |ghosts| && n <= |es| && n < |at| && at[0] == Progress(0, false, 0)
    && forall i :: 0 <= i < n ==> Writer(code, txs, start, ghosts[i], es[i], at[i], at[i + 1])
  }

  ghost predicate IsStage(code: Coding, h: Home, txs: seq<Tx>, start: nat, k: nat, c: seq<Block>) {
    k <= |txs| && start <= |Stage(h, txs, k).disk| && c == HomeBlocks(code, Stage(h, txs, k), start)
  }

  /** The current contents are between two stages, and the durable ones are those of a stage. */
  ghost predicate OnTheWay(code: Coding, h: Home, txs: seq<Tx>, start: nat, a: A.Disk, p: Progress) {
    && A.Wf(a) && p.k <= |txs| && start <= |Stage(h, txs, p.k).disk|
    && (!p.open ==> a.active == {} && A.Current(a) == HomeBlocks(code, Stage(h, txs, p.k), start))
    && (p.open ==>
          && p.k < |txs| && a.active == {p.op}
          && Between(A.Current(a), HomeBlocks(code, Stage(h, txs, p.k), start), |txs[p.k].before.dip|, txs[p.k].logged))
    && exists k: nat :: k <= p.k && IsStage(code, h, txs, start, k, A.Durable(a))
  }

  lemma StageKept(code: Coding, h: Home, txs: seq<Tx>, start: nat, k: nat, n: nat, c: seq<Block>)
    requires k <= n && IsStage(code, h, txs, start, k, c)
    ensures exists k: nat :: k <= n && IsStage(code, h, txs, start, k, c)
  {
  }

  /** The transactions lead from h to h' and each logged what it changed. */
  ghost predicate Leads(txs: seq<Tx>, h: Home, h': Home, first: nat, limit: nat) {
    AllOk(txs, 0, first, limit) && Chained(txs, 0, h, h')
  }

  lemma EndKeeps(code: Coding, h: Home, h': Home, txs: seq<Tx>, first: nat, limit: nat, start: nat, a: A.Disk, op: nat,
      p: Progress, p': Progress)
    requires Leads(txs, h, h', first, limit) && OnTheWay(code, h, txs, start, a, p)
    requires Writer(code, txs, start, a, A.End(op), p, p')
    ensures OnTheWay(code, h, txs, start, A.Apply(a, A.End(op)), p')
  {
    var t, a' := txs[p.k], A.Apply(a, A.End(op));
    A.ApplyContents(a, A.End(op));
    assert t.before == Stage(h, txs, p.k) && TxOk(t, first, limit);
    WholeTx(code, t, first, limit, start, A.Current(a));
    var k: nat :| k <= p.k && IsStage(code, h, txs, start, k, A.Durable(a));
    StageKept(code, h, txs, start, k, p'.k, A.Durable(a'));
  }

  lemma WriterKeeps(code: Coding, h: Home, h': Home, txs: seq<Tx>, first: nat, limit: nat, start: nat, a: A.Disk,
      e: A.Event, p: Progress, p': Progress)
    requires Leads(txs, h, h', first, limit) && OnTheWay(code, h, txs, start, a, p)
    requires Writer(code, txs, start, a, e, p, p')
    ensures OnTheWay(code, h, txs, start, A.Apply(a, e), p')
  {
    var a' := A.Apply(a, e);
    A.ApplyContents(a, e);
    var k: nat :| k <= p.k && IsStage(code, h, txs, start, k, A.Durable(a));
    match e
    case End(op) =>
      EndKeeps(code, h, h', txs, first, limit, start, a, op, p, p');
    case Sync =>
      StageKept(code, h, txs, start, p.k, p'.k, A.Durable(a'));
    case Put(_, block, _) =>
      var l :| IsPlace(l, |txs[p.k].before.dip|, block, txs[p.k].logged);
      StageKept(code, h, txs, start, k, p'.k, A.Durable(a'));
    case Begin =>
      StageKept(code, h, txs, start, k, p'.k, A.Durable(a'));
    case Stutter =>
  }

  /** Crash anywhere while the transactions are written, and recover: the home blocks are those after
      a whole number of them. */
  lemma CrashedWrite(run: seq<State>, steps: seq<Step>, ghosts: seq<A.Disk>, es: seq<A.Event>, i: nat,
                     rrun: seq<State>, rsteps: seq<Step>, r: State, code: Coding, h: Home, h': Home, txs: seq<Tx>,
                     first: nat, limit: nat, start: nat, at: seq<Progress>) returns (k: nat)
    requires Simulates(run, steps, ghosts, es) && i < |run| && Recovers(run[i], rrun, rsteps, r)
    requires start <= |h.disk| && ghosts[0] == A.Start(HomeBlocks(code, h, start))
    requires Leads(txs, h, h', first, limit) && Writes(code, txs, start, ghosts, es, at, i)
    ensures k <= at[i].k && k <= |txs| && r.start <= |r.disk|
    ensures IsStage(code, h, txs, start, k, r.disk[..r.start])
  {
    var home := HomeBlocks(code, h, start);
    assert A.Durable(A.Start(home)) == home && IsStage(code, h, txs, start, 0, home);
    for j := 0 to i
      invariant OnTheWay(code, h, txs, start, ghosts[j], at[j])
    {
      assert StandsFor(run[j], steps[j], run[j + 1], ghosts[j], es[j], ghosts[j + 1]);
      WriterKeeps(code, h, h', txs, first, limit, start, ghosts[j], es[j], at[j], at[j + 1]);
    }
    CrashSafe(run, steps, ghosts, es, i, rrun, rsteps, r);
    k :| k <= at[i].k && IsStage(code, h, txs, start, k, A.Durable(ghosts[i]));
  }

  lemma WritingLeads(was: Was, now: Was, inum: nat, src: seq<Byte>, i: nat, chunks: nat, k: nat)
    requires now in Writing(was, inum, src, i, chunks) && k <= chunks && was.home.dip == was.ips
    ensures |was.txs| <= |now.txs|
    ensures var txs := now.txs[|was.txs|..];
      k <= |txs| && Leads(txs, was.home, now.home, was.first, was.limit) &&
        SomePrefix(was, Stage(was.home, txs, k), inum, src)
  {
    var n := |was.txs|;
    var txs := now.txs[n..];
    assert forall j :: 0 <= j < |txs| ==> txs[j] == now.txs[n + j];
    if k == 0 {
      assert AtPrefix(was, was.home, inum, src, 0);
    } else {
      assert SomePrefix(was, now.txs[n + k - 1].after, inum, src);
    }
  }

  /** Crash anywhere in a filewrite, and recover: the file holds the first m bytes of the write, all of
      them or a whole number of chunks, every other file is as it was, and no block is half written. */
  lemma CrashedFilewrite(run: seq<State>, steps: seq<Step>, ghosts: seq<A.Disk>, es: seq<A.Event>, i: nat,
                         rrun: seq<State>, rsteps: seq<Step>, r: State, code: Coding, was: Was, now: Was, inum: nat,
                         src: seq<Byte>, done: nat, chunks: nat, start: nat, at: seq<Progress>)
    returns (h: Home, m: nat)
    requires Simulates(run, steps, ghosts, es) && i < |run| && Recovers(run[i], rrun, rsteps, r)
    requires now in Writing(was, inum, src, done, chunks) && was.home.dip == was.ips && was.txs <= now.txs
    requires start <= |was.home.disk| && ghosts[0] == A.Start(HomeBlocks(code, was.home, start))
    requires Writes(code, now.txs[|was.txs|..], start, ghosts, es, at, i)
    ensures r.start <= |r.disk| && start <= |h.disk| && r.disk[..r.start] == HomeBlocks(code, h, start)
    ensures AtPrefix(was, h, inum, src, m)
  {
    var txs := now.txs[|was.txs|..];
    WritingLeads(was, now, inum, src, done, chunks, 0);
    var k := CrashedWrite(run, steps, ghosts, es, i, rrun, rsteps, r, code, was.home, now.home, txs, was.first,
                          was.limit, start, at);
    WritingLeads(was, now, inum, src, done, chunks, k);
    h := Stage(was.home, txs, k);
    m :| AtPrefix(was, h, inum, src, m);
  }
}
