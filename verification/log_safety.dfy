/** Every run of the log protocol is a run of the atomic disk. */
module LogSafety {
  import opened Common
  import opened Blocks
  import opened LogHeader
  import opened LogProtocol
  import A = AtomicDisk

  // ---- The invariant

  function Elems(s: seq<nat>): set<nat> {
    set b | b in s
  }

  /** The entries from index t on. */
  function Rest(s: seq<nat>, t: nat): set<nat> {
    set i | t <= i < |s| :: s[i]
  }

  /** The disk alone determines the durable contents: the header names some home
      blocks whose durable contents are in the log; all others are in place. */
  ghost predicate LogConsistent(decode: Block -> seq<nat>, start: nat, size: nat, disk: seq<Block>,
      durable: seq<Block>) {
    && |disk| == start + size && size >= 1 && |durable| == start
    && var h := decode(disk[start]);
    && |h| <= LOGSIZE && |h| < size && Distinct(h)
    && (forall i :: 0 <= i < |h| ==> h[i] < start && disk[start + 1 + i] == durable[h[i]])
    && (forall b :: 0 <= b < start && b !in h ==> disk[b] == durable[b])
  }

  /** A clean buffer without unlogged changes agrees with the disk. */
  ghost predicate CacheClean(c: Cache, disk: seq<Block>, unlogged: set<nat>) {
    && (forall b :: b in c.data ==> b < |disk|)
    && c.dirty <= c.data.Keys && c.busy <= c.data.Keys && unlogged <= c.busy
    && (forall b :: b in c.data && b !in c.dirty && b !in unlogged ==> c.data[b] == disk[b])
  }

  ghost predicate CacheOk(start: nat, disk: seq<Block>, c: Cache, holder: map<nat, nat>, unlogged: set<nat>,
      ops: seq<Op>) {
    && CacheClean(c, disk, unlogged)
    && c.busy == holder.Keys
    && (forall b :: b in holder ==> b < start && holder[b] < |ops|)
    && (forall b :: b in unlogged && b in holder ==> ops[holder[b]].Active?)
  }

  ghost predicate CacheInv(s: State) {
    CacheOk(s.start, s.disk, s.cache, s.holder, s.unlogged, s.ops)
  }

  function ActiveCount(ops: seq<Op>): (n: nat) {
    if ops == [] then 0
    else ActiveCount(ops[..|ops| - 1]) + if ops[|ops| - 1].Active? then 1 else 0
  }

  /** The header lists distinct home blocks, those of the operations under way among them, and
      has room for them. */
  ghost predicate HeaderOk(start: nat, size: nat, lh: seq<nat>, outstanding: nat, ops: seq<Op>) {
    && Distinct(lh) && |lh| <= LOGSIZE && |lh| < size
    && (forall i :: 0 <= i < |lh| ==> lh[i] < start)
    && outstanding == ActiveCount(ops)
    && (forall p :: 0 <= p < |ops| && ops[p].Active? ==> ops[p].logged <= Elems(lh))
  }

  ghost predicate HeaderInv(s: State) {
    HeaderOk(s.start, s.size, s.lh, s.outstanding, s.ops)
  }

  /** The active operations are those of the atomic disk, under distinct numbers. */
  ghost predicate OpsOk(ops: seq<Op>, nextId: nat, active: set<nat>, next: nat) {
    && next == nextId
    && (forall p :: 0 <= p < |ops| && ops[p].Active? ==> ops[p].id in active)
    && (forall id :: id in active ==> exists p :: 0 <= p < |ops| && ops[p].Active? && ops[p].id == id)
    && (forall p, q :: 0 <= p < q < |ops| && ops[p].Active? && ops[q].Active? ==> ops[p].id != ops[q].id)
  }

  ghost predicate OpsInv(s: State, a: A.Disk) {
    OpsOk(s.ops, s.nextId, a.active, a.next)
  }

  /** The current contents are in the pinned buffers, and elsewhere on the disk. */
  ghost predicate Coherent(start: nat, disk: seq<Block>, c: Cache, unlogged: set<nat>, cur: seq<Block>)
    requires |cur| == start <= |disk|
  {
    && (forall b :: 0 <= b < start && b !in c.dirty ==> disk[b] == cur[b])
    && (forall b :: b in c.dirty && b in c.data && b < start && b !in unlogged ==> c.data[b] == cur[b])
  }

  /** The first t entries of the transaction are in the log. */
  ghost predicate LogFilled(start: nat, disk: seq<Block>, lh: seq<nat>, cur: seq<Block>, t: nat)
    requires |cur| == start && t <= |lh| && start + t < |disk|
    requires forall i :: 0 <= i < |lh| ==> lh[i] < start
  {
    forall i :: 0 <= i < t ==> disk[start + 1 + i] == cur[lh[i]]
  }

  /** Home blocks are durable except those still to be installed. */
  ghost predicate Installed(start: nat, disk: seq<Block>, rest: set<nat>, cur: seq<Block>)
    requires |cur| == start <= |disk|
  {
    forall b :: 0 <= b < start && b !in rest ==> disk[b] == cur[b]
  }

  ghost predicate Fresh(s: State) {
    s.cache.dirty == {} && s.holder == map[] && s.outstanding == 0 && !s.committing
  }

  /** What holds between commits and while one is being prepared. */
  ghost predicate Pending(s: State, cur: seq<Block>)
    requires |cur| == s.start < |s.disk|
  {
    && s.decode(s.disk[s.start]) == [] && s.cache.dirty == Elems(s.lh)
    && Coherent(s.start, s.disk, s.cache, s.unlogged, cur)
  }

  ghost predicate Committed(s: State, cur: seq<Block>, dur: seq<Block>)
    requires s.start < |s.disk|
  {
    s.decode(s.disk[s.start]) == s.lh && cur == dur
  }

  ghost predicate Quiet(s: State) {
    s.committing && s.outstanding == 0
  }

  ghost predicate PhaseInv(s: State, cur: seq<Block>, dur: seq<Block>)
    requires |cur| == s.start && |s.disk| == s.start + s.size && |s.lh| < s.size
    requires forall i :: 0 <= i < |s.lh| ==> s.lh[i] < s.start
  {
    match s.phase
    case Running => !s.committing && (s.outstanding == 0 ==> s.lh == []) && Pending(s, cur)
    case WriteLog(t) => Quiet(s) && t < |s.lh| && Pending(s, cur) && LogFilled(s.start, s.disk, s.lh, cur, t)
    case WriteHead => Quiet(s) && |s.lh| > 0 && Pending(s, cur) && LogFilled(s.start, s.disk, s.lh, cur, |s.lh|)
    case Install(t, rec) =>
      && t < |s.lh| && Committed(s, cur, dur)
      && if rec then Fresh(s) && Installed(s.start, s.disk, Rest(s.lh, t), cur)
         else Quiet(s) && s.cache.dirty == Rest(s.lh, t) && Coherent(s.start, s.disk, s.cache, s.unlogged, cur)
    case ClearHead(rec) =>
      && Committed(s, cur, dur)
      && if rec then Fresh(s) && Installed(s.start, s.disk, {}, cur)
         else Quiet(s) && s.cache.dirty == {} && Coherent(s.start, s.disk, s.cache, s.unlogged, cur)
    case Finish => Quiet(s) && s.lh == [] && Pending(s, cur)
    case ReadHead => Fresh(s) && cur == dur && s.lh == [] && s.cache.data == map[]
  }

  /** State s stands for the current contents cur and the durable contents dur. */
  ghost predicate StateInv(s: State, cur: seq<Block>, dur: seq<Block>) {
    && |cur| == s.start && LogConsistent(s.decode, s.start, s.size, s.disk, dur)
    && CacheInv(s) && HeaderInv(s) && PhaseInv(s, cur, dur)
  }

  ghost function States(cur: seq<Block>, dur: seq<Block>): iset<State> {
    iset s: State | StateInv(s, cur, dur)
  }

  /** State s stands for the atomic disk a. */
  ghost predicate Inv(s: State, a: A.Disk) {
    && A.Wf(a) && |a.base| == s.start && OpsInv(s, a)
    && StateInv(s, A.Current(a), A.Durable(a))
  }

  // ---- Counting lemmas

  lemma {:induction false} CountUpdate(ops: seq<Op>, p: nat, op: Op)
    requires p < |ops|
    ensures ActiveCount(ops[p := op]) ==
            ActiveCount(ops) + (if op.Active? then 1 else 0) - (if ops[p].Active? then 1 else 0)
  {
    var n := |ops| - 1;
    if p == n {
      assert ops[p := op][..n] == ops[..n];
    } else {
      assert ops[p := op][..n] == ops[..n][p := op];
      CountUpdate(ops[..n], p, op);
    }
  }

  lemma {:induction false} NoneActive(ops: seq<Op>)
    requires ActiveCount(ops) == 0
    ensures forall p :: 0 <= p < |ops| ==> ops[p].Idle?
  {
    if ops != [] {
      NoneActive(ops[..|ops| - 1]);
    }
  }

  lemma {:induction false} IdleOps(n: nat)
    ensures ActiveCount(seq(n, _ => Idle)) == 0
  {
    if n > 0 {
      assert seq(n, _ => Idle)[..n - 1] == seq(n - 1, _ => Idle);
      IdleOps(n - 1);
    }
  }

  // ---- Each step keeps the invariant

  lemma BeginOps(ops: seq<Op>, p: nat, nextId: nat, active: set<nat>)
    requires OpsOk(ops, nextId, active, nextId) && p < |ops| && ops[p].Idle?
    requires forall id :: id in active ==> id < nextId
    ensures OpsOk(ops[p := Active(nextId, {})], nextId + 1, active + {nextId}, nextId + 1)
  {
    var ops' := ops[p := Active(nextId, {})];
    forall id | id in active + {nextId}
      ensures exists q :: 0 <= q < |ops'| && ops'[q].Active? && ops'[q].id == id
    {
      if id in active {
        var q :| 0 <= q < |ops| && ops[q].Active? && ops[q].id == id;
        assert ops'[q] == ops[q];
      } else {
        assert ops'[p].id == id;
      }
    }
  }

  lemma BeginKeeps(s: State, cur: seq<Block>, dur: seq<Block>, step: Step)
    requires StateInv(s, cur, dur) && step.BeginOp? && Enabled(s, step)
    ensures StateInv(Do(s, step), cur, dur)
  {
    CountUpdate(s.ops, step.p, Active(s.nextId, {}));
  }

  ghost predicate SamePinned(c: Cache, c': Cache) {
    c'.dirty == c.dirty && forall b :: b in c.dirty && b in c.data ==> b in c'.data && c'.data[b] == c.data[b]
  }

  /** What bread would return for block b. */
  function Latest(c: Cache, disk: seq<Block>, b: nat): (r: Block)
    requires b < |disk|
  {
    if b in c.data then c.data[b] else disk[b]
  }

  /** Recycling buffers loses nothing: bread leaves the latest contents of every
      block alone, and the pinned buffers in the cache. */
  lemma BreadsClean(c: Cache, disk: seq<Block>, bs: set<nat>, c': Cache, unlogged: set<nat>)
    requires CacheClean(c, disk, unlogged) && Breads(c, disk, bs, c')
    ensures CacheClean(c', disk, unlogged) && SamePinned(c, c')
    ensures forall x :: 0 <= x < |disk| ==> Latest(c', disk, x) == Latest(c, disk, x)
  {
  }

  lemma BreadCache(s: State, step: Step)
    requires CacheInv(s) && step.Bread? && Enabled(s, step)
    ensures CacheInv(Do(s, step)) && SamePinned(s.cache, Do(s, step).cache)
  {
    BreadsClean(s.cache, s.disk, {step.b}, step.cache, s.unlogged);
  }

  /** The log part of the invariant only looks at pinned buffers. */
  lemma PhaseFrame(s: State, s': State, cur: seq<Block>, dur: seq<Block>)
    requires StateInv(s, cur, dur) && Booted(s) && SamePinned(s.cache, s'.cache)
    requires s' == s.(cache := s'.cache, holder := s'.holder)
    ensures PhaseInv(s', cur, dur)
  {
    assert Coherent(s.start, s.disk, s.cache, s.unlogged, cur) ==>
      Coherent(s.start, s.disk, s'.cache, s.unlogged, cur);
  }

  lemma BreadKeeps(s: State, cur: seq<Block>, dur: seq<Block>, step: Step)
    requires StateInv(s, cur, dur) && step.Bread? && Enabled(s, step)
    ensures StateInv(Do(s, step), cur, dur)
  {
    BreadCache(s, step);
    PhaseFrame(s, Do(s, step), cur, dur);
  }

  lemma BrelseKeeps(s: State, cur: seq<Block>, dur: seq<Block>, step: Step)
    requires StateInv(s, cur, dur) && step.Brelse? && Enabled(s, step)
    ensures StateInv(Do(s, step), cur, dur)
  {
    assert Booted(s);
    PhaseFrame(s, Do(s, step), cur, dur);
  }

  /** Operations run only between commits. */
  lemma ActiveMeansRunning(s: State, cur: seq<Block>, dur: seq<Block>, p: nat)
    requires StateInv(s, cur, dur) && InOp(s, p)
    ensures s.phase == Running && s.outstanding >= 1
  {
    if s.outstanding == 0 {
      NoneActive(s.ops);
    }
  }

  lemma ModifyKeeps(s: State, cur: seq<Block>, dur: seq<Block>, step: Step)
    requires StateInv(s, cur, dur) && step.Modify? && Enabled(s, step)
    ensures StateInv(Do(s, step), cur, dur)
  {
    ActiveMeansRunning(s, cur, dur, step.p);
    var s' := Do(s, step);
    assert CacheInv(s');
    assert Coherent(s.start, s'.disk, s'.cache, s'.unlogged, cur);
  }

  lemma LogWriteHeader(s: State, step: Step)
    requires HeaderInv(s) && step.LogWrite? && Enabled(s, step) && step.b < s.start && !Overrun(Do(s, step))
    ensures HeaderInv(Do(s, step))
  {
    var s', op := Do(s, step), s.ops[step.p];
    CountUpdate(s.ops, step.p, op.(logged := op.logged + {step.b}));
    assert Elems(s'.lh) == Elems(s.lh) + {step.b};
  }

  /** Operations keep their numbers. */
  lemma OpsFrame(ops: seq<Op>, p: nat, op: Op, nextId: nat, active: set<nat>)
    requires OpsOk(ops, nextId, active, nextId) && p < |ops| && ops[p].Active? && op.Active? && op.id == ops[p].id
    ensures OpsOk(ops[p := op], nextId, active, nextId)
  {
    var ops' := ops[p := op];
    forall id | id in active ensures exists q :: 0 <= q < |ops'| && ops'[q].Active? && ops'[q].id == id {
      var q :| 0 <= q < |ops| && ops[q].Active? && ops[q].id == id;
      assert ops'[q].id == id;
    }
  }

  lemma LogWriteCache(s: State, step: Step, cur: seq<Block>)
    requires CacheInv(s) && step.LogWrite? && Enabled(s, step) && |cur| == s.start < |s.disk|
    requires Pending(s, cur)
    ensures CacheInv(Do(s, step)) && Pending(Do(s, step), cur[step.b := s.cache.data[step.b]])
  {
    assert Elems(Do(s, step).lh) == Elems(s.lh) + {step.b};
  }

  lemma LogWriteKeeps(s: State, cur: seq<Block>, dur: seq<Block>, step: Step)
    requires StateInv(s, cur, dur) && step.LogWrite? && Enabled(s, step) && !Overrun(Do(s, step))
    ensures step.b < s.start && StateInv(Do(s, step), cur[step.b := s.cache.data[step.b]], dur)
  {
    ActiveMeansRunning(s, cur, dur, step.p);
    LogWriteHeader(s, step);
    LogWriteCache(s, step, cur);
  }

  lemma LogTestKeeps(s: State, cur: seq<Block>, dur: seq<Block>, step: Step)
    requires StateInv(s, cur, dur) && step.LogTest? && Enabled(s, step)
    ensures StateInv(Do(s, step), cur, dur)
  {
    ActiveMeansRunning(s, cur, dur, step.p);
    assert Pending(Do(s, step), cur);
  }

  lemma EndOps(ops: seq<Op>, p: nat, nextId: nat, active: set<nat>)
    requires OpsOk(ops, nextId, active, nextId) && p < |ops| && ops[p].Active?
    ensures OpsOk(ops[p := Idle], nextId, active - {ops[p].id}, nextId)
  {
    var ops' := ops[p := Idle];
    forall id | id in active - {ops[p].id}
      ensures exists q :: 0 <= q < |ops'| && ops'[q].Active? && ops'[q].id == id
    {
      var q :| 0 <= q < |ops| && ops[q].Active? && ops[q].id == id;
      assert ops'[q] == ops[q];
    }
  }

  lemma EndKeeps(s: State, cur: seq<Block>, dur: seq<Block>, step: Step)
    requires StateInv(s, cur, dur) && step.EndOp? && Enabled(s, step)
    ensures StateInv(Do(s, step), cur, dur)
  {
    ActiveMeansRunning(s, cur, dur, step.p);
    CountUpdate(s.ops, step.p, Idle);
    var s' := Do(s, step);
    assert CacheInv(s');
    assert Pending(s', cur);
  }

  lemma CrashKeeps(s: State, cur: seq<Block>, dur: seq<Block>)
    requires StateInv(s, cur, dur)
    ensures StateInv(Reboot(s), dur, dur)
  {
    IdleOps(|s.ops|);
  }

  // ---- Disk transfers of commit and recovery

  /** A transfer writes x through the cache to block `to` and loses no other block. */
  ghost predicate Transferred(s: State, to: nat, x: Block, r: State)
    requires to < |s.disk|
  {
    && r == s.(disk := s.disk[to := x], cache := r.cache) && CacheInv(r)
    && r.cache.dirty == s.cache.dirty - {to}
    && (forall b :: b in s.cache.dirty && b in s.cache.data && b != to ==>
          b in r.cache.data && r.cache.data[b] == s.cache.data[b])
  }

  lemma TransferKeeps(s: State, c: Cache, to: nat, x: Block)
    requires CacheInv(s) && Breads(s.cache, s.disk, Buffers(s), c) && to in Buffers(s)
    ensures to < |s.disk| && Transferred(s, to, x, Transfer(s, c, to, x))
  {
    BreadsClean(s.cache, s.disk, Buffers(s), c, s.unlogged);
    assert c.busy - Buffers(s) == s.cache.busy;
  }

  /** One turn of write_log or install_trans moves the latest contents of one block
      to the other and to disk. */
  lemma CopyMoves(s: State, c: Cache, from: nat, to: nat) returns (x: Block, r: State)
    requires CacheInv(s) && Breads(s.cache, s.disk, Buffers(s), c) && from in Buffers(s) && to in Buffers(s)
    ensures from < |s.disk| && to < |s.disk| && from in c.data
    ensures x == c.data[from] == Latest(s.cache, s.disk, from)
    ensures r == Transfer(s, c, to, x) && Transferred(s, to, x, r)
  {
    x := c.data[from];
    TransferKeeps(s, c, to, x);
    r := Transfer(s, c, to, x);
  }

  /** With no operation under way, no buffer holds unlogged changes. */
  lemma QuietMeansLogged(s: State)
    requires CacheInv(s) && HeaderInv(s) && s.outstanding == 0
    ensures s.unlogged == {} && forall p :: 0 <= p < |s.ops| ==> s.ops[p].Idle?
  {
    NoneActive(s.ops);
    assert forall b :: b in s.unlogged ==> b in s.holder;
  }

  lemma ConsistentWriteLog(decode: Block -> seq<nat>, start: nat, size: nat, disk: seq<Block>, durable: seq<Block>,
      i: nat, x: Block)
    requires LogConsistent(decode, start, size, disk, durable) && decode(disk[start]) == [] && start < i < start + size
    ensures LogConsistent(decode, start, size, disk[i := x], durable)
  {
  }

  lemma ConsistentInstall(decode: Block -> seq<nat>, start: nat, size: nat, disk: seq<Block>, durable: seq<Block>,
      t: nat)
    requires LogConsistent(decode, start, size, disk, durable) && t < |decode(disk[start])|
    ensures var b := decode(disk[start])[t];
      disk[start + 1 + t] == durable[b] && LogConsistent(decode, start, size, disk[b := durable[b]], durable)
  {
  }

  /** A write outside the home area changes nothing for readers. */
  lemma CoherentOutside(s: State, r: State, to: nat, x: Block, cur: seq<Block>)
    requires |cur| == s.start <= to < |s.disk| && Transferred(s, to, x, r) && to !in s.cache.dirty
    requires Coherent(s.start, s.disk, s.cache, s.unlogged, cur) && s.cache.dirty <= s.cache.data.Keys
    ensures r.cache.dirty == s.cache.dirty && Coherent(s.start, r.disk, r.cache, r.unlogged, cur)
  {
  }

  lemma CoherentInstall(s: State, r: State, b: nat, cur: seq<Block>)
    requires |cur| == s.start <= |s.disk| && b < s.start && Transferred(s, b, cur[b], r)
    requires Coherent(s.start, s.disk, s.cache, s.unlogged, cur) && s.cache.dirty <= s.cache.data.Keys
    ensures Coherent(s.start, r.disk, r.cache, r.unlogged, cur)
  {
  }

  lemma WriteLogPhase(s: State, cur: seq<Block>, r: State, t: nat, x: Block)
    requires |cur| == s.start && s.start + 1 + t < |s.disk| && t < |s.lh| && s.cache.dirty <= s.cache.data.Keys
    requires forall i :: 0 <= i < |s.lh| ==> s.lh[i] < s.start
    requires Pending(s, cur) && LogFilled(s.start, s.disk, s.lh, cur, t)
    requires x == cur[s.lh[t]] && Transferred(s, s.start + 1 + t, x, r)
    ensures Pending(r, cur) && LogFilled(s.start, r.disk, s.lh, cur, t + 1)
  {
    CoherentOutside(s, r, s.start + 1 + t, x, cur);
  }

  /** What write_log copies are the current contents. */
  lemma ListedLatest(s: State, cur: seq<Block>, dur: seq<Block>, t: nat)
    requires s in States(cur, dur) && s.phase == WriteLog(t)
    ensures Latest(s.cache, s.disk, s.lh[t]) == cur[s.lh[t]] && s.cache.dirty <= s.cache.data.Keys
  {
    QuietMeansLogged(s);
    assert s.lh[t] in s.cache.dirty;
  }

  lemma WriteLogEffect(s: State, cur: seq<Block>, dur: seq<Block>, r: State, t: nat)
    requires s in States(cur, dur) && s.phase == WriteLog(t)
    requires Transferred(s, s.start + 1 + t, Latest(s.cache, s.disk, s.lh[t]), r)
    ensures r.(phase := if t + 1 < |s.lh| then WriteLog(t + 1) else WriteHead) in States(cur, dur)
  {
    var x := cur[s.lh[t]];
    ListedLatest(s, cur, dur, t);
    WriteLogPhase(s, cur, r, t, x);
    ConsistentWriteLog(s.decode, s.start, s.size, s.disk, dur, s.start + 1 + t, x);
  }

  lemma HeadCommits(s: State, cur: seq<Block>, head: Block)
    requires |cur| == s.start && |s.disk| == s.start + s.size && HeaderInv(s) && Pending(s, cur) &&
      s.decode(head) == s.lh
    requires LogFilled(s.start, s.disk, s.lh, cur, |s.lh|)
    ensures LogConsistent(s.decode, s.start, s.size, s.disk[s.start := head], cur)
  {
    assert forall b :: 0 <= b < s.start && b !in s.lh ==> b !in s.cache.dirty;
  }

  lemma WriteHeadEffect(s: State, cur: seq<Block>, dur: seq<Block>, head: Block, r: State)
    requires s in States(cur, dur) && s.phase.WriteHead? && s.decode(head) == s.lh
    requires Transferred(s, s.start, head, r)
    ensures r.(phase := Install(0, false)) in States(cur, cur)
  {
    QuietMeansLogged(s);
    CoherentOutside(s, r, s.start, head, cur);
    assert Rest(s.lh, 0) == Elems(s.lh);
    HeadCommits(s, cur, head);
  }

  function AfterInstall(s: State, t: nat, rec: bool): Phase {
    if t + 1 < |s.lh| then Install(t + 1, rec) else ClearHead(rec)
  }

  lemma InstallValue(s: State, cur: seq<Block>, t: nat)
    requires s in States(cur, cur) && s.phase.Install? && t == s.phase.tail
    ensures Latest(s.cache, s.disk, s.start + 1 + t) == cur[s.lh[t]]
    ensures LogConsistent(s.decode, s.start, s.size, s.disk[s.lh[t] := cur[s.lh[t]]], cur)
  {
    QuietMeansLogged(s);
    ConsistentInstall(s.decode, s.start, s.size, s.disk, cur, t);
  }

  lemma RestTail(lh: seq<nat>, t: nat)
    requires Distinct(lh) && t < |lh|
    ensures Rest(lh, t) - {lh[t]} == Rest(lh, t + 1)
    ensures t + 1 == |lh| ==> Rest(lh, t + 1) == {}
  {
  }

  lemma InstallCommitted(s: State, cur: seq<Block>, r: State, t: nat)
    requires s in States(cur, cur) && s.phase == Install(t, false)
    requires Transferred(s, s.lh[t], cur[s.lh[t]], r)
    requires LogConsistent(s.decode, s.start, s.size, r.disk, cur)
    ensures r.(phase := AfterInstall(s, t, false)) in States(cur, cur)
  {
    RestTail(s.lh, t);
    CoherentInstall(s, r, s.lh[t], cur);
  }

  lemma InstallRecovered(s: State, cur: seq<Block>, r: State, t: nat)
    requires s in States(cur, cur) && s.phase == Install(t, true)
    requires Transferred(s, s.lh[t], cur[s.lh[t]], r)
    requires LogConsistent(s.decode, s.start, s.size, r.disk, cur)
    ensures r.(phase := AfterInstall(s, t, true)) in States(cur, cur)
  {
    RestTail(s.lh, t);
    assert Installed(s.start, r.disk, Rest(s.lh, t + 1), cur);
  }

  lemma InstallEffect(s: State, cur: seq<Block>, r: State, t: nat)
    requires s in States(cur, cur) && s.phase.Install? && s.phase.tail == t
    requires Transferred(s, s.lh[t], Latest(s.cache, s.disk, s.start + 1 + t), r)
    ensures r.(phase := AfterInstall(s, t, s.phase.recovering)) in States(cur, cur)
  {
    InstallValue(s, cur, t);
    if s.phase.recovering {
      InstallRecovered(s, cur, r, t);
    } else {
      InstallCommitted(s, cur, r, t);
    }
  }

  lemma ClearHeadEffect(s: State, cur: seq<Block>, head: Block, r: State)
    requires s in States(cur, cur) && s.phase.ClearHead? && s.decode(head) == []
    requires Transferred(s, s.start, head, r)
    ensures r.(lh := [], phase := if s.phase.recovering then Running else Finish) in States(cur, cur)
  {
    QuietMeansLogged(s);
    assert LogConsistent(s.decode, r.start, r.size, r.disk, cur);
    assert Elems([]) == {};
    assert Coherent(s.start, r.disk, r.cache, r.unlogged, cur);
  }

  lemma ReadHeadEffect(s: State, cur: seq<Block>, r: State, lh: seq<nat>)
    requires s in States(cur, cur) && s.phase.ReadHead? && CacheInv(r)
    requires r == s.(cache := r.cache) && r.cache.dirty == s.cache.dirty && lh == s.decode(s.disk[s.start])
    ensures r.(lh := lh, phase := if lh == [] then ClearHead(true) else Install(0, true)) in States(cur, cur)
  {
    QuietMeansLogged(s);
    assert Rest(lh, 0) == Elems(lh);
  }

  lemma WriteLogDo(s: State, c: Cache, head: Block, t: nat)
    requires s.phase == WriteLog(t) && t < |s.lh| && s.start + 1 + t < |s.disk| && CanLogIO(s, c, head)
    ensures s.lh[t] in c.data
    ensures DoLogIO(s, c, head) ==
      Transfer(s, c, s.start + 1 + t, c.data[s.lh[t]]).(phase := if t + 1 < |s.lh| then WriteLog(t + 1) else WriteHead)
  {
  }

  lemma WriteLogFacts(s: State, cur: seq<Block>, dur: seq<Block>)
    requires s in States(cur, dur) && s.phase.WriteLog?
    ensures CacheInv(s) && s.phase.tail < |s.lh| && s.start + 1 + s.phase.tail < |s.disk|
  {
  }

  lemma WriteLogKeeps(s: State, cur: seq<Block>, dur: seq<Block>, c: Cache, head: Block)
    requires s in States(cur, dur) && s.phase.WriteLog? && CanLogIO(s, c, head)
    ensures DoLogIO(s, c, head) in States(cur, dur)
  {
    var t := s.phase.tail;
    WriteLogFacts(s, cur, dur);
    WriteLogDo(s, c, head, t);
    var x, r := CopyMoves(s, c, s.lh[t], s.start + 1 + t);
    WriteLogEffect(s, cur, dur, r, t);
  }

  lemma InstallDo(s: State, c: Cache, head: Block, t: nat)
    requires s.phase.Install? && s.phase.tail == t < |s.lh| && s.lh[t] < |s.disk| && CanLogIO(s, c, head)
    ensures s.start + 1 + t in c.data
    ensures DoLogIO(s, c, head) ==
      Transfer(s, c, s.lh[t], c.data[s.start + 1 + t]).(phase := AfterInstall(s, t, s.phase.recovering))
  {
  }

  lemma InstallMoves(s: State, c: Cache, head: Block, t: nat) returns (r: State)
    requires s.phase.Install? && s.phase.tail == t < |s.lh| && s.lh[t] < |s.disk| && s.start + 1 + t < |s.disk|
    requires CacheInv(s) && CanLogIO(s, c, head)
    ensures DoLogIO(s, c, head) == r.(phase := AfterInstall(s, t, s.phase.recovering))
    ensures Transferred(s, s.lh[t], Latest(s.cache, s.disk, s.start + 1 + t), r)
  {
    InstallDo(s, c, head, t);
    var x;
    x, r := CopyMoves(s, c, s.start + 1 + t, s.lh[t]);
  }

  lemma InstallBounds(s: State, cur: seq<Block>)
    requires s in States(cur, cur) && s.phase.Install?
    ensures CacheInv(s) && s.phase.tail < |s.lh| && s.lh[s.phase.tail] < |s.disk| &&
      s.start + 1 + s.phase.tail < |s.disk|
  {
  }

  lemma InstallKeeps(s: State, cur: seq<Block>, c: Cache, head: Block)
    requires s in States(cur, cur) && s.phase.Install? && CanLogIO(s, c, head)
    ensures DoLogIO(s, c, head) in States(cur, cur)
  {
    var t := s.phase.tail;
    InstallBounds(s, cur);
    var r := InstallMoves(s, c, head, t);
    InstallEffect(s, cur, r, t);
  }

  lemma WriteHeadKeeps(s: State, cur: seq<Block>, dur: seq<Block>, c: Cache, head: Block)
    requires s in States(cur, dur) && s.phase.WriteHead? && CanLogIO(s, c, head)
    ensures DoLogIO(s, c, head) in States(cur, cur)
  {
    TransferKeeps(s, c, s.start, head);
    WriteHeadEffect(s, cur, dur, head, Transfer(s, c, s.start, head));
  }

  lemma ClearHeadKeeps(s: State, cur: seq<Block>, c: Cache, head: Block)
    requires s in States(cur, cur) && s.phase.ClearHead? && CanLogIO(s, c, head)
    ensures DoLogIO(s, c, head) in States(cur, cur)
  {
    TransferKeeps(s, c, s.start, head);
    ClearHeadEffect(s, cur, head, Transfer(s, c, s.start, head));
  }

  lemma ReadHeadKeeps(s: State, cur: seq<Block>, c: Cache, head: Block)
    requires s in States(cur, cur) && s.phase.ReadHead? && CanLogIO(s, c, head)
    ensures DoLogIO(s, c, head) in States(cur, cur)
  {
    BreadsClean(s.cache, s.disk, {s.start}, c, s.unlogged);
    var r := s.(cache := c.(busy := c.busy - {s.start}));
    assert r.cache.busy == s.cache.busy;
    ReadHeadEffect(s, cur, r, s.decode(c.data[s.start]));
  }

  /** Every disk transfer keeps the contents; the one of write_head commits them. */
  lemma LogIOKeeps(s: State, cur: seq<Block>, dur: seq<Block>, c: Cache, head: Block)
    requires s in States(cur, dur) && CanLogIO(s, c, head)
    ensures DoLogIO(s, c, head) in States(cur, if s.phase.WriteHead? then cur else dur)
  {
    match s.phase {
      case WriteLog(_) => WriteLogKeeps(s, cur, dur, c, head);
      case WriteHead => WriteHeadKeeps(s, cur, dur, c, head);
      case Install(_, _) => InstallKeeps(s, cur, c, head);
      case ClearHead(_) => ClearHeadKeeps(s, cur, c, head);
      case Finish =>
      case ReadHead => ReadHeadKeeps(s, cur, c, head);
    }
  }

  lemma OpsStep(s: State, a: A.Disk, step: Step)
    requires Inv(s, a) && Enabled(s, step)
    ensures A.Allowed(a, Event(s, step)) && OpsInv(Do(s, step), A.Apply(a, Event(s, step)))
  {
    match step
    case BeginOp(p) => BeginOps(s.ops, p, s.nextId, a.active);
    case LogWrite(p, b) =>
      ActiveMeansRunning(s, A.Current(a), A.Durable(a), p);
      OpsFrame(s.ops, p, Do(s, step).ops[p], s.nextId, a.active);
    case EndOp(p) => EndOps(s.ops, p, s.nextId, a.active);
    case LogIO(_, _) => if s.outstanding == 0 { QuietMeansLogged(s); }
    case _ =>
  }

  ghost function NextCurrent(s: State, cur: seq<Block>, dur: seq<Block>, step: Step): seq<Block>
    requires Enabled(s, step) && (step.LogWrite? ==> step.b < |cur|)
  {
    match step
    case LogWrite(_, b) => cur[b := s.cache.data[b]]
    case Crash => dur
    case _ => cur
  }

  function NextDurable(s: State, cur: seq<Block>, dur: seq<Block>, step: Step): seq<Block> {
    if step.LogIO? && s.phase.WriteHead? then cur else dur
  }

  lemma StateStep(s: State, cur: seq<Block>, dur: seq<Block>, step: Step)
    requires StateInv(s, cur, dur) && Enabled(s, step) && !Overrun(Do(s, step))
    ensures step.LogWrite? ==> step.b < |cur|
    ensures StateInv(Do(s, step), NextCurrent(s, cur, dur, step), NextDurable(s, cur, dur, step))
  {
    match step
    case BeginOp(_) => BeginKeeps(s, cur, dur, step);
    case Bread(_, _, _) => BreadKeeps(s, cur, dur, step);
    case Modify(_, _, _) => ModifyKeeps(s, cur, dur, step);
    case LogTest(_, _) => LogTestKeeps(s, cur, dur, step);
    case LogWrite(_, _) => LogWriteKeeps(s, cur, dur, step);
    case Brelse(_, _) => BrelseKeeps(s, cur, dur, step);
    case EndOp(_) => EndKeeps(s, cur, dur, step);
    case LogIO(c, head) =>
      assert Do(s, step) == DoLogIO(s, c, head);
      LogIOKeeps(s, cur, dur, c, head);
    case Crash =>
      assert Do(s, step) == Reboot(s);
      CrashKeeps(s, cur, dur);
  }

  /** Every step of the protocol that does not overrun the header is a step of the atomic disk. */
  lemma StepKeeps(s: State, a: A.Disk, step: Step)
    requires Inv(s, a) && Enabled(s, step) && !Overrun(Do(s, step))
    ensures A.Allowed(a, Event(s, step)) && Inv(Do(s, step), A.Apply(a, Event(s, step)))
  {
    OpsStep(s, a, step);
    A.ApplyContents(a, Event(s, step));
    StateStep(s, A.Current(a), A.Durable(a), step);
    var a' := A.Apply(a, Event(s, step));
    assert A.Current(a') == NextCurrent(s, A.Current(a), A.Durable(a), step);
    assert A.Durable(a') == NextDurable(s, A.Current(a), A.Durable(a), step);
  }
}
