/** What the log guarantees, over all runs. */
module LogTheorems {
  import opened Blocks
  import opened LogHeader
  import opened LogProtocol
  import opened LogSafety
  import A = AtomicDisk

  // ---- Runs

  ghost predicate Next(s: State, step: Step, s': State) {
    Enabled(s, step) && s' == Do(s, step)
  }

  ghost predicate IsRun(run: seq<State>, steps: seq<Step>) {
    && |run| == |steps| + 1
    && forall i :: 0 <= i < |steps| ==> Next(run[i], steps[i], run[i + 1])
  }

  /** A machine about to boot from a disk; `nprocs` process slots, `cap` buffers. */
  function Boot(start: nat, size: nat, disk: seq<Block>, nprocs: nat, cap: nat): (s: State) {
    State(Decode, start, size, disk, Cache(map[], {}, {}, cap), [], 0, false,
          seq(nprocs, _ => Idle), map[], {}, {}, ReadHead, 0)
  }

  ghost function Standing(a: A.Disk): iset<State> {
    iset s: State | Inv(s, a)
  }

  lemma BootInv(start: nat, size: nat, disk: seq<Block>, home: seq<Block>, nprocs: nat, cap: nat)
    requires LogConsistent(Decode, start, size, disk, home)
    ensures Boot(start, size, disk, nprocs, cap) in Standing(A.Start(home))
  {
    IdleOps(nprocs);
  }

  /** Step from s to s' stands for event e, which takes a to a'. */
  ghost predicate StandsFor(s: State, step: Step, s': State, a: A.Disk, e: A.Event, a': A.Disk) {
    Next(s, step, s') && e == Event(s, step) && A.Allowed(a, e) && a' == A.Apply(a, e)
  }

  /** `ghosts` is the run of the atomic disk that the first k steps stand for. */
  ghost predicate SimulatesTo(run: seq<State>, steps: seq<Step>, ghosts: seq<A.Disk>, es: seq<A.Event>, k: nat) {
    && k < |run| == |steps| + 1 && |ghosts| == k + 1 && |es| == k
    && (forall i :: 0 <= i < k ==> StandsFor(run[i], steps[i], run[i + 1], ghosts[i], es[i], ghosts[i + 1]))
    && (forall i :: 0 <= i <= k ==> run[i] in Standing(ghosts[i]))
  }

  ghost predicate Simulates(run: seq<State>, steps: seq<Step>, ghosts: seq<A.Disk>, es: seq<A.Event>) {
    SimulatesTo(run, steps, ghosts, es, |steps|)
  }

  lemma NextRefines(s: State, a: A.Disk, step: Step, s': State) returns (e: A.Event, a': A.Disk)
    requires s in Standing(a) && Next(s, step, s') && !Overrun(s')
    ensures StandsFor(s, step, s', a, e, a') && s' in Standing(a')
  {
    StepKeeps(s, a, step);
    e := Event(s, step);
    a' := A.Apply(a, e);
  }

  lemma StandsOn(run: seq<State>, steps: seq<Step>, ghosts: seq<A.Disk>, es: seq<A.Event>, k: nat, e: A.Event,
      a: A.Disk)
    requires SimulatesTo(run, steps, ghosts, es, k) && k < |steps|
    requires StandsFor(run[k], steps[k], run[k + 1], ghosts[k], e, a) && run[k + 1] in Standing(a)
    ensures SimulatesTo(run, steps, ghosts + [a], es + [e], k + 1)
  {
    var ghosts', es' := ghosts + [a], es + [e];
    forall i | 0 <= i < k + 1
      ensures StandsFor(run[i], steps[i], run[i + 1], ghosts'[i], es'[i], ghosts'[i + 1])
    {
      if i < k {
        assert StandsFor(run[i], steps[i], run[i + 1], ghosts[i], es[i], ghosts[i + 1]);
        assert ghosts'[i] == ghosts[i] && ghosts'[i + 1] == ghosts[i + 1] && es'[i] == es[i];
      }
    }
    forall i | 0 <= i <= k + 1 ensures run[i] in Standing(ghosts'[i]) {
      if i <= k {
        assert ghosts'[i] == ghosts[i];
      }
    }
  }

  lemma Extend(run: seq<State>, steps: seq<Step>, ghosts: seq<A.Disk>, es: seq<A.Event>, k: nat)
    returns (ghosts': seq<A.Disk>, es': seq<A.Event>)
    requires IsRun(run, steps) && k < |steps| && SimulatesTo(run, steps, ghosts, es, k) && !Overrun(run[k + 1])
    ensures SimulatesTo(run, steps, ghosts', es', k + 1) && ghosts'[0] == ghosts[0]
  {
    assert Next(run[k], steps[k], run[k + 1]);
    var e, a := NextRefines(run[k], ghosts[k], steps[k], run[k + 1]);
    StandsOn(run, steps, ghosts, es, k, e, a);
    ghosts', es' := ghosts + [a], es + [e];
  }

  /** No state of the run has overrun the header. */
  ghost predicate NoOverrun(run: seq<State>) {
    forall i :: 0 <= i < |run| ==> !Overrun(run[i])
  }

  lemma SimulatesIsRun(run: seq<State>, steps: seq<Step>, ghosts: seq<A.Disk>, es: seq<A.Event>)
    requires Simulates(run, steps, ghosts, es)
    ensures IsRun(run, steps) && A.IsRun(ghosts, es)
  {
    forall i | 0 <= i < |steps|
      ensures Next(run[i], steps[i], run[i + 1]) && A.Allowed(ghosts[i], es[i]) &&
        ghosts[i + 1] == A.Apply(ghosts[i], es[i])
    {
      assert StandsFor(run[i], steps[i], run[i + 1], ghosts[i], es[i], ghosts[i + 1]);
    }
  }

  /** Every run of the protocol that does not overrun the header stands for a run of the
      atomic disk. */
  lemma RunRefines(run: seq<State>, steps: seq<Step>, a: A.Disk)
    returns (ghosts: seq<A.Disk>, es: seq<A.Event>)
    requires IsRun(run, steps) && NoOverrun(run) && run[0] in Standing(a)
    ensures Simulates(run, steps, ghosts, es) && ghosts[0] == a && A.IsRun(ghosts, es)
  {
    ghosts, es := [a], [];
    for k := 0 to |steps|
      invariant SimulatesTo(run, steps, ghosts, es, k) && ghosts[0] == a
    {
      ghosts, es := Extend(run, steps, ghosts, es, k);
    }
    SimulatesIsRun(run, steps, ghosts, es);
  }

  // ---- Crash safety

  predicate OnlyRecovery(steps: seq<Step>) {
    forall i :: 0 <= i < |steps| ==> steps[i].Crash? || steps[i].LogIO?
  }

  predicate InRecovery(s: State) {
    && s.outstanding == 0 && s.holder == map[]
    && match s.phase {
         case Running => s.lh == []
         case ReadHead => true
         case Install(_, rec) => rec
         case ClearHead(rec) => rec
         case _ => false
       }
  }

  lemma RecoveryStep(s: State, dur: seq<Block>, step: Step, s': State)
    requires s in States(dur, dur) && InRecovery(s) && (step.Crash? || step.LogIO?) && Next(s, step, s')
    ensures s' in States(dur, dur) && InRecovery(s')
  {
    match step {
      case Crash => CrashKeeps(s, dur, dur);
      case LogIO(c, head) => LogIOKeeps(s, dur, dur, c, head);
    }
  }

  /** Recovery, cut off and restarted any number of times, does not move the
      durable contents. */
  lemma RecoveryKeeps(run: seq<State>, steps: seq<Step>, dur: seq<Block>)
    requires IsRun(run, steps) && OnlyRecovery(steps)
    requires run[0] in States(dur, dur) && InRecovery(run[0])
    ensures forall i :: 0 <= i < |run| ==> run[i] in States(dur, dur) && InRecovery(run[i])
  {
    for k := 0 to |steps|
      invariant forall i :: 0 <= i <= k ==> run[i] in States(dur, dur) && InRecovery(run[i])
    {
      assert Next(run[k], steps[k], run[k + 1]);
      RecoveryStep(run[k], dur, steps[k], run[k + 1]);
    }
  }

  /** A recovered disk holds the durable contents, and bread returns them. */
  lemma RecoveredContents(s: State, dur: seq<Block>)
    requires s in States(dur, dur) && InRecovery(s) && s.phase.Running?
    ensures s.disk[..s.start] == dur
    ensures forall b :: 0 <= b < s.start ==> Latest(s.cache, s.disk, b) == dur[b]
  {
    assert Elems([]) == {};
  }

  /** A crash in state s and the recovery that follows it, itself cut off and
      restarted any number of times, up to normal operation in state r. */
  ghost predicate Recovers(s: State, run: seq<State>, steps: seq<Step>, r: State) {
    && IsRun(run, steps) && OnlyRecovery(steps)
    && run[0] == Reboot(s) && run[|run| - 1] == r && r.phase.Running?
  }

  lemma RecoversTo(s: State, cur: seq<Block>, dur: seq<Block>, run: seq<State>, steps: seq<Step>, r: State)
    requires s in States(cur, dur) && Recovers(s, run, steps, r)
    ensures r.start <= |r.disk| && r.disk[..r.start] == dur
    ensures forall b :: 0 <= b < r.start ==> Latest(r.cache, r.disk, b) == dur[b]
  {
    CrashKeeps(s, cur, dur);
    RecoveryKeeps(run, steps, dur);
    RecoveredContents(r, dur);
  }

  /** Crash at any point of any run, then recover: the home blocks on disk are
      exactly the durable contents of the atomic disk at that point, and so is
      what bread returns. */
  lemma CrashSafe(run: seq<State>, steps: seq<Step>, ghosts: seq<A.Disk>, es: seq<A.Event>, i: nat,
                  rrun: seq<State>, rsteps: seq<Step>, r: State)
    requires Simulates(run, steps, ghosts, es) && i < |run| && Recovers(run[i], rrun, rsteps, r)
    ensures A.Wf(ghosts[i]) && r.start <= |r.disk| && r.disk[..r.start] == A.Durable(ghosts[i])
    ensures forall b :: 0 <= b < r.start ==> Latest(r.cache, r.disk, b) == A.Durable(ghosts[i])[b]
  {
    var a := ghosts[i];
    assert run[i] in Standing(a);
    RecoversTo(run[i], A.Current(a), A.Durable(a), rrun, rsteps, r);
  }

  // ---- Commit, cut off anywhere

  predicate Transfers(steps: seq<Step>) {
    forall i :: 0 <= i < |steps| ==> steps[i].LogIO?
  }

  /** One disk transfer of commit: the durable contents move with the header. */
  lemma TransferStep(s: State, cur: seq<Block>, dur: seq<Block>, step: Step, s': State)
    requires s in States(cur, dur) && step.LogIO? && Next(s, step, s')
    ensures s' in States(cur, if s.phase.WriteHead? then cur else dur)
    ensures s.phase.WriteLog? ==>
      s'.lh == s.lh && s'.phase == if s.phase.tail + 1 < |s.lh| then WriteLog(s.phase.tail + 1) else WriteHead
  {
    LogIOKeeps(s, cur, dur, step.cache, step.head);
  }

  /** Where commit stands after k transfers. */
  ghost predicate CommitStands(s: State, cur: seq<Block>, dur: seq<Block>, lh: seq<nat>, k: nat) {
    && (k < |lh| ==> s.phase == WriteLog(k)) && (k == |lh| ==> s.phase == WriteHead) && (k <= |lh| ==> s.lh == lh)
    && s in States(cur, if k <= |lh| then dur else cur)
  }

  lemma CommitStep(s: State, cur: seq<Block>, dur: seq<Block>, lh: seq<nat>, k: nat, step: Step, s': State)
    requires CommitStands(s, cur, dur, lh, k) && step.LogIO? && Next(s, step, s')
    ensures CommitStands(s', cur, dur, lh, k + 1)
  {
    if k <= |lh| {
      TransferStep(s, cur, dur, step, s');
    } else {
      TransferStep(s, cur, cur, step, s');
    }
  }

  ghost function Committing(cur: seq<Block>, dur: seq<Block>, lh: seq<nat>, k: nat): iset<State> {
    iset s: State | CommitStands(s, cur, dur, lh, k)
  }

  lemma CommitNext(run: seq<State>, steps: seq<Step>, cur: seq<Block>, dur: seq<Block>, lh: seq<nat>, k: nat)
    requires IsRun(run, steps) && Transfers(steps) && k < |steps| && run[k] in Committing(cur, dur, lh, k)
    ensures run[k + 1] in Committing(cur, dur, lh, k + 1)
  {
    assert Next(run[k], steps[k], run[k + 1]);
    CommitStep(run[k], cur, dur, lh, k, steps[k], run[k + 1]);
  }

  lemma {:induction false} CommitAt(run: seq<State>, steps: seq<Step>, cur: seq<Block>, dur: seq<Block>, lh: seq<nat>,
      k: nat)
    requires IsRun(run, steps) && Transfers(steps) && k < |run| && run[0] in Committing(cur, dur, lh, 0)
    ensures run[k] in Committing(cur, dur, lh, k)
  {
    if k > 0 {
      CommitAt(run, steps, cur, dur, lh, k - 1);
      CommitNext(run, steps, cur, dur, lh, k - 1);
    }
  }

  /** The transfers before the header write leave the durable contents alone; the
      header write, transfer number |lh|, moves them to the current ones. */
  lemma CommitProgress(run: seq<State>, steps: seq<Step>, cur: seq<Block>, dur: seq<Block>, k: nat)
    requires IsRun(run, steps) && Transfers(steps) && k < |run|
    requires run[0] in States(cur, dur) && run[0].phase == WriteLog(0)
    ensures CommitStands(run[k], cur, dur, run[0].lh, k)
  {
    assert |run[0].lh| > 0;
    CommitAt(run, steps, cur, dur, run[0].lh, k);
  }

  /** Crash atomicity: cut commit() after any number k of its disk transfers and
      recover, with any number of further cuts.  The home blocks end up all old
      or all new, and all new exactly when the header write, transfer number
      |lh|, was among those done. */
  lemma CommitCut(run: seq<State>, steps: seq<Step>, cur: seq<Block>, dur: seq<Block>, k: nat,
                  rrun: seq<State>, rsteps: seq<Step>, r: State)
    requires IsRun(run, steps) && Transfers(steps) && k < |run|
    requires run[0] in States(cur, dur) && run[0].phase == WriteLog(0)
    requires Recovers(run[k], rrun, rsteps, r)
    ensures r.start <= |r.disk| && r.disk[..r.start] == if k <= |run[0].lh| then dur else cur
  {
    CommitProgress(run, steps, cur, dur, k);
    RecoversTo(run[k], cur, if k <= |run[0].lh| then dur else cur, rrun, rsteps, r);
  }

  // ---- Recovery comes to an end

  /** The header format can say that the log is empty. */
  ghost predicate HasEmptyHead(decode: Block -> seq<nat>) {
    exists head :: decode(head) == []
  }

  lemma EmptyHead()
    ensures HasEmptyHead(Decode)
  {
    DecodeEncode(Zeroes(), []);
    assert Decode(Encode(Zeroes(), [])) == [];
  }

  /** With every buffer idle and clean, any one or two blocks can be read. */
  lemma BreadsPossible(c: Cache, disk: seq<Block>, bs: set<nat>) returns (c': Cache)
    requires c.dirty == {} && c.busy == {} && |bs| <= c.cap && forall b :: b in bs || b in c.data ==> b < |disk|
    ensures Breads(c, disk, bs, c')
  {
    c' := c.(data := map b | b in bs :: if b in c.data then c.data[b] else disk[b], busy := bs);
    assert c'.data.Keys == bs;
  }

  lemma RecoveryFacts(s: State, dur: seq<Block>)
    requires s in States(dur, dur) && InRecovery(s) && !s.phase.Running?
    ensures s.start < |s.disk| && s.cache.dirty == {} && s.cache.busy == {}
    ensures forall b :: b in s.cache.data || b in Buffers(s) ==> b < |s.disk|
    ensures s.phase.Install? ==> s.phase.tail < |s.lh|
  {
  }

  /** The transfer that recovery does next can be done with two buffers. */
  lemma NextTransfer(s: State, dur: seq<Block>) returns (step: Step)
    requires s in States(dur, dur) && InRecovery(s) && s.cache.cap >= 2 && !s.phase.Running? && HasEmptyHead(s.decode)
    ensures step.LogIO? && Enabled(s, step)
  {
    RecoveryFacts(s, dur);
    var head :| s.decode(head) == [];
    var c := BreadsPossible(s.cache, s.disk, Buffers(s));
    step := LogIO(c, head);
  }

  function TransfersLeft(s: State): nat {
    match s.phase
    case ReadHead => LOGSIZE + 2
    case Install(t, _) => if t < |s.lh| then 1 + |s.lh| - t else 1
    case ClearHead(_) => 1
    case _ => 0
  }

  lemma FewerLeft(s: State, dur: seq<Block>, step: Step, s': State)
    requires s in States(dur, dur) && InRecovery(s) && !s.phase.Running? && step.LogIO? && Next(s, step, s')
    ensures TransfersLeft(s') < TransfersLeft(s) && s'.cache.cap == s.cache.cap && s'.decode == s.decode
  {
  }

  /** With at least two buffers, recovery always reaches normal operation. */
  lemma RecoveryEnds(s: State, cur: seq<Block>, dur: seq<Block>)
    returns (run: seq<State>, steps: seq<Step>, r: State)
    requires s in States(cur, dur) && s.cache.cap >= 2 && HasEmptyHead(s.decode)
    ensures Recovers(s, run, steps, r)
  {
    CrashKeeps(s, cur, dur);
    r := Reboot(s);
    run, steps := [r], [];
    while !r.phase.Running?
      invariant IsRun(run, steps) && OnlyRecovery(steps) && run[0] == Reboot(s) && run[|run| - 1] == r
      invariant r in States(dur, dur) && InRecovery(r) && r.cache.cap >= 2 && r.decode == s.decode
      decreases TransfersLeft(r)
    {
      var step := NextTransfer(r, dur);
      var r' := Do(r, step);
      assert Next(r, step, r');
      FewerLeft(r, dur, step, r');
      RecoveryStep(r, dur, step, r');
      run, steps, r := run + [r'], steps + [step], r';
    }
  }

  /** Transfers of recovery after a crash: each is one less to do, and with two buffers recovery stops
      only at normal operation. */
  lemma RecoveryBounded(s: State, cur: seq<Block>, dur: seq<Block>, run: seq<State>, steps: seq<Step>)
    requires s in States(cur, dur) && s.cache.cap >= 2 && HasEmptyHead(s.decode)
    requires IsRun(run, steps) && Transfers(steps) && run[0] == Reboot(s)
    ensures |steps| + TransfersLeft(run[|steps|]) <= LOGSIZE + 2
    ensures run[|steps|].phase.Running? <==> forall step: Step :: step.LogIO? ==> !Enabled(run[|steps|], step)
  {
    CrashKeeps(s, cur, dur);
    for k := 0 to |steps|
      invariant run[k] in States(dur, dur) && InRecovery(run[k]) && k + TransfersLeft(run[k]) <= LOGSIZE + 2
      invariant run[k].cache.cap == s.cache.cap && run[k].decode == s.decode
    {
      assert Next(run[k], steps[k], run[k + 1]);
      FewerLeft(run[k], dur, steps[k], run[k + 1]);
      RecoveryStep(run[k], dur, steps[k], run[k + 1]);
    }
    if !run[|steps|].phase.Running? {
      var step := NextTransfer(run[|steps|], dur);
    }
  }

  // ---- When a transfer can be done

  /** The buffers of the next disk transfer can be had: bget finds or recycles them. */
  ghost predicate CanRead(s: State) {
    exists c :: Breads(s.cache, s.disk, Buffers(s), c)
  }

  lemma {:induction false} SizeUpTo(x: set<nat>, y: set<nat>)
    requires x <= y
    ensures |x| <= |y|
  {
    if x != {} {
      var b :| b in x;
      SizeUpTo(x - {b}, y - {b});
    }
  }

  lemma BuffersOnDisk(s: State, cur: seq<Block>, dur: seq<Block>)
    requires s in States(cur, dur) && !s.phase.Running?
    ensures CacheClean(s.cache, s.disk, s.unlogged) && forall b :: b in Buffers(s) ==> b < |s.disk|
  {
  }

  lemma BreadsKeeping(c: Cache, disk: seq<Block>, bs: set<nat>, k: set<nat>) returns (c': Cache)
    requires c.dirty <= c.data.Keys && c.busy <= c.data.Keys && k ==
      c.dirty + c.busy + bs && |k| <= c.cap && bs !! c.busy && forall b :: b in k ==> b < |disk|
    ensures Breads(c, disk, bs, c')
  {
    c' := c.(data := map b | b in k :: if b in c.data then c.data[b] else disk[b], busy := c.busy + bs);
    assert c'.data.Keys == k;
  }

  lemma BreadsExactly(c: Cache, disk: seq<Block>, bs: set<nat>)
    requires c.dirty <= c.data.Keys && c.busy <= c.data.Keys
    requires (forall b :: b in c.data ==> b < |disk|) && forall b :: b in bs ==> b < |disk|
    ensures (exists c' :: Breads(c, disk, bs, c')) <==> bs !! c.busy && |c.dirty + c.busy + bs| <= c.cap
  {
    var k := c.dirty + c.busy + bs;
    if c' :| Breads(c, disk, bs, c') {
      SizeUpTo(k, c'.data.Keys);
    }
    if bs !! c.busy && |k| <= c.cap {
      var c' := BreadsKeeping(c, disk, bs, k);
    }
  }

  /** The next transfer of commit or recovery can be done exactly when none of its buffers is
      held and they fit besides the pinned and the held ones. */
  lemma ReadsExactly(s: State, cur: seq<Block>, dur: seq<Block>)
    requires s in States(cur, dur) && !s.phase.Running?
    ensures CanRead(s) <==>
      Buffers(s) !! s.cache.busy && |s.cache.dirty + s.cache.busy + Buffers(s)| <= s.cache.cap
  {
    BuffersOnDisk(s, cur, dur);
    BreadsExactly(s.cache, s.disk, Buffers(s));
  }

  lemma OneMore(dirty: set<nat>, busy: set<nat>, l: nat, h: nat)
    requires h in dirty && l !in dirty && l !in busy
    ensures |dirty + busy + {l, h}| == |dirty + busy| + 1
    ensures {l, h} !! busy <==> h !in busy
  {
    assert dirty + busy + {l, h} == dirty + busy + {l};
    assert {l, h} * busy == if h in busy then {h} else {};
  }

  lemma FitsOneMore(c: Cache, bs: set<nat>, l: nat, h: nat)
    requires h in c.dirty && l !in c.dirty && l !in c.busy && bs == {l, h}
    ensures bs !! c.busy && |c.dirty + c.busy + bs| <= c.cap <==> h !in c.busy && |c.dirty + c.busy| < c.cap
  {
    OneMore(c.dirty, c.busy, l, h);
  }

  lemma CommitBuffers(s: State, cur: seq<Block>, dur: seq<Block>)
    requires s in States(cur, dur) && s.phase.WriteLog?
    ensures var t := s.phase.tail;
      && t < |s.lh| && Buffers(s) == {s.start + 1 + t, s.lh[t]} && s.lh[t] in s.cache.dirty
      && s.start + 1 + t !in s.cache.dirty && s.start + 1 + t !in s.cache.busy
  {
  }

  /** For a copy of write_log: the home buffer is not held, and one buffer is neither pinned
      nor held. */
  lemma CommitReads(s: State, cur: seq<Block>, dur: seq<Block>)
    requires s in States(cur, dur) && s.phase.WriteLog? && s.phase.tail < |s.lh|
    ensures CanRead(s) <==> s.lh[s.phase.tail] !in s.cache.busy && |s.cache.dirty + s.cache.busy| < s.cache.cap
  {
    ReadsExactly(s, cur, dur);
    CommitBuffers(s, cur, dur);
    FitsOneMore(s.cache, Buffers(s), s.start + 1 + s.phase.tail, s.lh[s.phase.tail]);
  }

  // ---- Reading and writing ahead

  /** In every state with the system up, bread returns the latest logged contents. */
  lemma BreadReturnsLatest(s: State, cur: seq<Block>, dur: seq<Block>, step: Step)
    requires s in States(cur, dur) && step.Bread? && Enabled(s, step)
    ensures Do(s, step).cache.data[step.b] == cur[step.b]
  {
    BreadsClean(s.cache, s.disk, {step.b}, step.cache, s.unlogged);
  }

  /** State s is about to copy home block b, durable contents dur[b], out of the log. */
  ghost predicate InstallsFrom(s: State, dur: seq<Block>, b: nat) {
    && s.phase.Install? && s.phase.tail < |s.lh| && b == s.lh[s.phase.tail]
    && s.start + 1 + s.phase.tail < |s.disk| && b < |dur|
    && s.decode(s.disk[s.start]) == s.lh && s.disk[s.start + 1 + s.phase.tail] == dur[b]
  }

  /** Only disk transfers write, and only install_trans writes home blocks. */
  lemma HomeWrites(s: State, step: Step)
    requires Enabled(s, step)
    ensures !step.LogIO? ==> Do(s, step).disk == s.disk
    ensures step.LogIO? && !s.phase.Install? ==> s.start < |s.disk| && Do(s, step).disk[..s.start] == s.disk[..s.start]
  {
    if step.LogIO? {
      match s.phase {
        case WriteLog(_) =>
        case WriteHead =>
        case Install(_, _) =>
        case _ =>
      }
    }
  }

  lemma OnlyInstallWrites(s: State, step: Step, s': State, b: nat)
    requires Next(s, step, s') && b < s.start && b < |s'.disk| && b < |s.disk| && s'.disk[b] != s.disk[b]
    ensures s.phase.Install? && s.phase.tail < |s.lh| && b == s.lh[s.phase.tail] &&
      s.start + 1 + s.phase.tail < |s.disk|
    ensures s'.disk[b] == Latest(s.cache, s.disk, s.start + 1 + s.phase.tail)
  {
    HomeWrites(s, step);
    assert step.LogIO? && s.phase.Install? by {
      assert s.start <= |s.disk| ==> s.disk[..s.start][b] == s.disk[b];
      assert s.start <= |s'.disk| ==> s'.disk[..s.start][b] == s'.disk[b];
    }
  }

  lemma InstallFacts(s: State, cur: seq<Block>, dur: seq<Block>)
    requires s in States(cur, dur) && s.phase.Install? && s.phase.tail < |s.lh|
    ensures InstallsFrom(s, dur, s.lh[s.phase.tail])
    ensures Latest(s.cache, s.disk, s.start + 1 + s.phase.tail) == dur[s.lh[s.phase.tail]]
  {
    InstallValue(s, cur, s.phase.tail);
    ConsistentInstall(s.decode, s.start, s.size, s.disk, dur, s.phase.tail);
  }

  /** Write-ahead: a step that changes a home block on disk installs contents that
      are already durable, from a log that a crash would replay. */
  lemma WriteAhead(s: State, cur: seq<Block>, dur: seq<Block>, step: Step, s': State, b: nat)
    requires s in States(cur, dur) && Next(s, step, s')
    requires b < s.start && b < |s'.disk| && b < |s.disk| && s'.disk[b] != s.disk[b]
    ensures InstallsFrom(s, dur, b) && b < |dur| && s'.disk[b] == dur[b]
  {
    OnlyInstallWrites(s, step, s', b);
    InstallFacts(s, cur, dur);
  }

  /** Outside commit and recovery the pinned buffers are exactly the blocks in the
      log header; during a commit no operation is under way and none can start. */
  lemma PinnedAreLogged(s: State, cur: seq<Block>, dur: seq<Block>)
    requires s in States(cur, dur) && Booted(s)
    ensures s.phase.Running? ==> s.cache.dirty == Elems(s.lh)
    ensures !s.phase.Running? ==>
      (forall p :: 0 <= p < |s.ops| ==> s.ops[p].Idle? && !Enabled(s, BeginOp(p)) && !Enabled(s, EndOp(p)))
  {
    if !s.phase.Running? {
      NoneActive(s.ops);
    }
  }
}
