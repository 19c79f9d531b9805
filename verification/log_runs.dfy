/** The guarantees of the log for a machine that boots from a disk, over all runs. */
module LogRuns {
  import opened Common
  import opened Blocks
  import opened LogHeader
  import opened LogProtocol
  import opened LogSafety
  import opened LogTheorems
  import opened LogBudget
  import A = AtomicDisk

  ghost predicate BootsAs(s: State, start: nat, size: nat, disk: seq<Block>, nprocs: nat, cap: nat, home: seq<Block>) {
    LogConsistent(Decode, start, size, disk, home) && s == Boot(start, size, disk, nprocs, cap)
  }

  /** A run from boot, of a disk that stands for the home contents `home`. */
  ghost predicate FromBoot(run: seq<State>, steps: seq<Step>, home: seq<Block>) {
    && IsRun(run, steps)
    && exists start, size, disk, nprocs, cap :: BootsAs(run[0], start, size, disk, nprocs, cap, home)
  }

  // ---- Runs that do not overrun the header

  lemma Refined(run: seq<State>, steps: seq<Step>, home: seq<Block>) returns (ghosts: seq<A.Disk>, es: seq<A.Event>)
    requires FromBoot(run, steps, home) && NoOverrun(run)
    ensures Simulates(run, steps, ghosts, es) && A.IsRun(ghosts, es) && ghosts[0] == A.Start(home)
  {
    var start, size, disk, nprocs, cap :| BootsAs(run[0], start, size, disk, nprocs, cap, home);
    BootInv(start, size, disk, home, nprocs, cap);
    ghosts, es := RunRefines(run, steps, A.Start(home));
  }

  lemma InStates(run: seq<State>, steps: seq<Step>, ghosts: seq<A.Disk>, es: seq<A.Event>, i: nat)
    requires Simulates(run, steps, ghosts, es) && i < |run|
    ensures A.Wf(ghosts[i]) && run[i] in States(A.Current(ghosts[i]), A.Durable(ghosts[i]))
  {
    assert run[i] in Standing(ghosts[i]);
  }

  /** Whatever a run has done and wherever it is cut off, recovery ends with the home blocks as
      the whole operations of some history leave them: that of the operations it has run. */
  lemma CrashedRun(run: seq<State>, steps: seq<Step>, home: seq<Block>, i: nat,
                   rrun: seq<State>, rsteps: seq<Step>, r: State)
    returns (ghosts: seq<A.Disk>, es: seq<A.Event>)
    requires FromBoot(run, steps, home) && NoOverrun(run) && i < |run| && Recovers(run[i], rrun, rsteps, r)
    ensures Simulates(run, steps, ghosts, es) && A.IsRun(ghosts, es) && ghosts[0] == A.Start(home) && i < |ghosts|
    ensures A.Wf(ghosts[i]) && A.AllOrNothing(ghosts[i])
    ensures r.start <= |r.disk| && r.disk[..r.start] == A.Durable(ghosts[i])
  {
    ghosts, es := Refined(run, steps, home);
    CrashSafe(run, steps, ghosts, es, i, rrun, rsteps, r);
  }

  /** A step changes neither the number of buffers nor the format of the header nor the size of the log. */
  lemma SameFormat(s: State, step: Step, s': State)
    requires Next(s, step, s')
    ensures s'.cache.cap == s.cache.cap && s'.decode == s.decode && s'.size == s.size
  {
    match step
    case LogIO(c, head) => assert s' == DoLogIO(s, c, head);
    case _ =>
  }

  /** Where a run is cut off, the machine is one that can recover. */
  lemma CutOff(run: seq<State>, steps: seq<Step>, home: seq<Block>, i: nat) returns (cur: seq<Block>, dur: seq<Block>)
    requires FromBoot(run, steps, home) && NoOverrun(run) && i < |run|
    ensures run[i] in States(cur, dur) && run[i].cache.cap == run[0].cache.cap && HasEmptyHead(run[i].decode)
  {
    var ghosts, es := Refined(run, steps, home);
    InStates(run, steps, ghosts, es, i);
    cur, dur := A.Current(ghosts[i]), A.Durable(ghosts[i]);
    assert run[0].decode == Decode;
    for k := 0 to i
      invariant run[k].cache.cap == run[0].cache.cap && run[k].decode == Decode
    {
      assert Next(run[k], steps[k], run[k + 1]);
      SameFormat(run[k], steps[k], run[k + 1]);
    }
    EmptyHead();
  }

  /** Wherever a run is cut off, a machine of two buffers or more can recover: some recovery comes
      to normal operation, and it ends as every other does (CrashedRun). */
  lemma RecoverableRun(run: seq<State>, steps: seq<Step>, home: seq<Block>, i: nat)
    returns (rrun: seq<State>, rsteps: seq<Step>, r: State)
    requires FromBoot(run, steps, home) && NoOverrun(run) && i < |run| && run[0].cache.cap >= 2
    ensures Recovers(run[i], rrun, rsteps, r)
  {
    var cur, dur := CutOff(run, steps, home, i);
    rrun, rsteps, r := RecoveryEnds(run[i], cur, dur);
  }

  /** Every recovery that is not cut off again is at normal operation after at most LOGSIZE + 2 transfers,
      and is stuck nowhere before. */
  lemma EveryRecovery(run: seq<State>, steps: seq<Step>, home: seq<Block>, i: nat, rrun: seq<State>, rsteps: seq<Step>)
    requires FromBoot(run, steps, home) && NoOverrun(run) && i < |run| && run[0].cache.cap >= 2
    requires IsRun(rrun, rsteps) && Transfers(rsteps) && rrun[0] == Reboot(run[i])
    ensures |rsteps| <= LOGSIZE + 2
    ensures Recovers(run[i], rrun, rsteps, rrun[|rsteps|]) <==>
      forall step: Step :: step.LogIO? ==> !Enabled(rrun[|rsteps|], step)
  {
    var cur, dur := CutOff(run, steps, home, i);
    RecoveryBounded(run[i], cur, dur, rrun, rsteps);
  }

  /** A commit that a run has come to, cut off after k transfers: recovery ends with all that was
      current when it began if the header was written, and with what was durable otherwise. */
  lemma CutRun(run: seq<State>, steps: seq<Step>, home: seq<Block>, crun: seq<State>, csteps: seq<Step>, k: nat,
               rrun: seq<State>, rsteps: seq<Step>, r: State) returns (ghosts: seq<A.Disk>, es: seq<A.Event>)
    requires FromBoot(run, steps, home) && NoOverrun(run) && run[|run| - 1].phase == WriteLog(0)
    requires IsRun(crun, csteps) && Transfers(csteps) && crun[0] == run[|run| - 1] && k < |crun|
    requires Recovers(crun[k], rrun, rsteps, r)
    ensures Simulates(run, steps, ghosts, es) && ghosts[0] == A.Start(home) && A.Wf(ghosts[|run| - 1])
    ensures var a := ghosts[|run| - 1];
      r.start <= |r.disk| && r.disk[..r.start] == if k <= |crun[0].lh| then A.Durable(a) else A.Current(a)
  {
    ghosts, es := Refined(run, steps, home);
    InStates(run, steps, ghosts, es, |run| - 1);
    var a := ghosts[|run| - 1];
    CommitCut(crun, csteps, A.Current(a), A.Durable(a), k, rrun, rsteps, r);
  }

  /** In every state the header lists distinct blocks, pins just those outside commit and
      recovery, and a commit is under way with no operation. */
  lemma BootedRun(run: seq<State>, steps: seq<Step>, home: seq<Block>, i: nat)
    requires FromBoot(run, steps, home) && NoOverrun(run) && i < |run|
    ensures var s := run[i];
      && Distinct(s.lh) && (s.phase.Running? ==> s.cache.dirty == Elems(s.lh))
      && (Booted(s) && !s.phase.Running? ==>
            forall p :: 0 <= p < |s.ops| ==> s.ops[p].Idle? && !Enabled(s, BeginOp(p)))
  {
    var ghosts, es := Refined(run, steps, home);
    InStates(run, steps, ghosts, es, i);
    if Booted(run[i]) {
      PinnedAreLogged(run[i], A.Current(ghosts[i]), A.Durable(ghosts[i]));
    }
  }

  /** bread returns what the operations so far have logged. */
  lemma CoherentRun(run: seq<State>, steps: seq<Step>, home: seq<Block>, i: nat)
    returns (ghosts: seq<A.Disk>, es: seq<A.Event>)
    requires FromBoot(run, steps, home) && NoOverrun(run) && i < |steps| && steps[i].Bread?
    ensures Simulates(run, steps, ghosts, es) && ghosts[0] == A.Start(home) && A.Wf(ghosts[i])
    ensures var b := steps[i].b; var cur := A.Current(ghosts[i]);
      b < |cur| && b in run[i + 1].cache.data && run[i + 1].cache.data[b] == cur[b]
  {
    ghosts, es := Refined(run, steps, home);
    InStates(run, steps, ghosts, es, i);
    assert Next(run[i], steps[i], run[i + 1]);
    BreadReturnsLatest(run[i], A.Current(ghosts[i]), A.Durable(ghosts[i]), steps[i]);
  }

  /** A home block on disk changes only to contents that are already durable. */
  lemma WriteAheadRun(run: seq<State>, steps: seq<Step>, home: seq<Block>, i: nat, b: nat)
    returns (ghosts: seq<A.Disk>, es: seq<A.Event>)
    requires FromBoot(run, steps, home) && NoOverrun(run) && i < |steps|
    requires b < run[i].start && b < |run[i].disk| && b < |run[i + 1].disk| && run[i + 1].disk[b] != run[i].disk[b]
    ensures Simulates(run, steps, ghosts, es) && ghosts[0] == A.Start(home) && A.Wf(ghosts[i])
    ensures b < |A.Durable(ghosts[i])| && run[i + 1].disk[b] == A.Durable(ghosts[i])[b]
  {
    ghosts, es := Refined(run, steps, home);
    InStates(run, steps, ghosts, es, i);
    assert Next(run[i], steps[i], run[i + 1]);
    WriteAhead(run[i], A.Current(ghosts[i]), A.Durable(ghosts[i]), steps[i], run[i + 1], b);
  }

  // ---- Which runs do not overrun it

  lemma OtherTransfers(s: State, cur: seq<Block>, dur: seq<Block>, c: Cache, head: Block)
    requires s in States(cur, dur) && CanLogIO(s, c, head)
    ensures !Overrun(DoLogIO(s, c, head)) && DoLogIO(s, c, head).size == s.size
  {
    LogIOKeeps(s, cur, dur, c, head);
  }

  /** Only log_write can overrun the header. */
  lemma OtherSteps(s: State, cur: seq<Block>, dur: seq<Block>, step: Step, s': State)
    requires s in States(cur, dur) && Next(s, step, s') && !step.LogWrite?
    ensures !Overrun(s') && s'.size == s.size
  {
    match step
    case LogIO(c, head) => OtherTransfers(s, cur, dur, c, head);
    case _ =>
  }

  /** Every log_write goes on to the lock right after its tests. */
  predicate Uninterrupted(steps: seq<Step>) {
    forall i :: 0 <= i < |steps| && steps[i].LogWrite? ==> i > 0 && steps[i - 1] == LogTest(steps[i].p, steps[i].b)
  }

  lemma BootStands(run: seq<State>, steps: seq<Step>, home: seq<Block>)
    requires FromBoot(run, steps, home)
    ensures run[0] in Standing(A.Start(home)) && run[0].cache.data == map[] && run[0].phase == ReadHead && Fresh(run[0])
  {
    var start, size, disk, nprocs, cap :| BootsAs(run[0], start, size, disk, nprocs, cap, home);
    BootInv(start, size, disk, home, nprocs, cap);
  }

  /** Where log_write is not interrupted between its tests and its lock, the header is never
      overrun, whatever the operations log. */
  lemma UninterruptedRun(run: seq<State>, steps: seq<Step>, home: seq<Block>)
    requires FromBoot(run, steps, home) && Uninterrupted(steps)
    ensures NoOverrun(run)
  {
    BootStands(run, steps, home);
    var a := A.Start(home);
    assert !Overrun(run[0]);
    for k := 0 to |steps|
      invariant run[k] in Standing(a) && forall i :: 0 <= i <= k ==> !Overrun(run[i])
    {
      assert Next(run[k], steps[k], run[k + 1]);
      if steps[k].LogWrite? {
        assert Next(run[k - 1], steps[k - 1], run[k]);
      } else {
        OtherSteps(run[k], A.Current(a), A.Durable(a), steps[k], run[k + 1]);
      }
      var e;
      e, a := NextRefines(run[k], a, steps[k], run[k + 1]);
    }
  }

  /** Every operation of the run keeps within `budget`. */
  ghost predicate WithinRun(run: seq<State>, budget: nat) {
    forall i :: 0 <= i < |run| ==> Within(run[i].ops, budget)
  }

  ghost predicate Roomy(s: State, budget: nat) {
    Top(budget) <= Limit(s.size) || s.cache.cap <= Limit(s.size)
  }

  lemma ListedAfter(s: State, cur: seq<Block>, dur: seq<Block>, budget: nat, step: Step, s': State)
    requires s in States(cur, dur) && Next(s, step, s') && step.LogWrite? && Reserved(s', budget) && Capped(s')
    ensures |s'.lh| <= Top(budget) && |s'.lh| <= s'.cache.cap
  {
    ActiveMeansRunning(s, cur, dur, step.p);
    UnusedBound(s'.ops, budget);
    assert s'.cache.dirty == s.cache.dirty + {step.b} && Elems(s'.lh) == Elems(s.lh) + {step.b};
    ElemsSize(s'.lh);
    SizeUpTo(Elems(s'.lh), s'.cache.data.Keys);
  }

  lemma NextFits(s: State, cur: seq<Block>, dur: seq<Block>, budget: nat, step: Step, s': State)
    requires s in States(cur, dur) && Reserved(s, budget) && Capped(s) && Roomy(s, budget)
    requires Next(s, step, s') && Within(s'.ops, budget)
    ensures !Overrun(s') && Reserved(s', budget) && Capped(s') && Roomy(s', budget)
  {
    SpaceStep(s, cur, dur, budget, step, s');
    CapStep(s, step, s');
    if step.LogWrite? {
      ListedAfter(s, cur, dur, budget, step, s');
    } else {
      OtherSteps(s, cur, dur, step, s');
    }
  }

  /** Where every operation keeps within a budget that the log has room for, or there are no more
      buffers than room, the header is never overrun, however calls of log_write interleave; and
      the log has room for what the operations under way have yet to log. */
  lemma BudgetRun(run: seq<State>, steps: seq<Step>, home: seq<Block>, budget: nat)
    requires FromBoot(run, steps, home) && WithinRun(run, budget) && Roomy(run[0], budget)
    ensures NoOverrun(run) && forall i :: 0 <= i < |run| ==>
      Reserved(run[i], budget) && Capped(run[i]) && Roomy(run[i], budget)
  {
    BootStands(run, steps, home);
    var a := A.Start(home);
    assert !Overrun(run[0]) && Reserved(run[0], budget);
    for k := 0 to |steps|
      invariant run[k] in Standing(a)
      invariant forall i :: 0 <= i <= k ==>
        !Overrun(run[i]) && Reserved(run[i], budget) && Capped(run[i]) && Roomy(run[i], budget)
    {
      assert Next(run[k], steps[k], run[k + 1]);
      NextFits(run[k], A.Current(a), A.Durable(a), budget, steps[k], run[k + 1]);
      var e;
      e, a := NextRefines(run[k], a, steps[k], run[k + 1]);
    }
  }

  lemma {:induction false} SameConfig(run: seq<State>, steps: seq<Step>, i: nat)
    requires IsRun(run, steps) && i < |run|
    ensures run[i].size == run[0].size && run[i].cache.cap == run[0].cache.cap
  {
    if i > 0 {
      SameConfig(run, steps, i - 1);
      assert Next(run[i - 1], steps[i - 1], run[i]);
      SameFormat(run[i - 1], steps[i - 1], run[i]);
    }
  }

  /** In such a run log_write does not panic for an operation with some of its budget left. */
  lemma PanicFreeRun(run: seq<State>, steps: seq<Step>, home: seq<Block>, budget: nat, i: nat, p: nat)
    requires FromBoot(run, steps, home) && WithinRun(run, budget) && i < |run|
    requires Top(budget) <= Limit(run[0].size) || run[0].cache.cap < Limit(run[0].size)
    requires InOp(run[i], p) && |run[i].ops[p].logged| < budget
    ensures !LogWritePanics(run[i])
  {
    BudgetRun(run, steps, home, budget);
    var ghosts, es := Refined(run, steps, home);
    InStates(run, steps, ghosts, es, i);
    SameConfig(run, steps, i);
    NoPanic(run[i], A.Current(ghosts[i]), A.Durable(ghosts[i]), budget, p);
  }
}
