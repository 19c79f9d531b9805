/** The mark of kill, and which new processes have it (kernel/proc.c): kill does not ask whether the
    slot with the pid is in use, and allocproc does not clear the mark. */
module ProcKill {
  import opened ProcSteps
  import opened ProcInv
  import opened ProcFamily
  import opened ProcTheorems

  /** The step is that of a kill which finds slot q. */
  predicate Marks(s: State, step: Step, q: nat) {
    step.IrqDo? && step.c < |s.cpus| && s.cpus[step.c].irq.Killing? && FindPid(s.procs, s.cpus[step.c].irq.pid, 0) == q
  }

  /** wait gives slot q back. */
  predicate Clears(step: Step, q: nat) {
    step.WaitReap? && step.k == q
  }

  /** No process of this slot has been started since it was given back. */
  predicate Fresh(x: Proc) {
    x.st == UNUSED || x.st == EMBRYO
  }

  // ---- One step

  /** From x to y a mark comes by kill and goes by wait, and only by wait a slot becomes fresh. */
  predicate Goes(x: Proc, y: Proc, marks: bool, clears: bool) {
    && (y.killed <==> !clears && (x.killed || marks))
    && (!Fresh(x) && !clears ==> !Fresh(y))
  }

  lemma MeGoes(s: State, step: Step)
    requires Enabled(s, step) && (Local(step) || step.Switch?)
    ensures Goes(Me(s, step.c), NewMe(s, step), false, false)
  {
  }

  lemma PlainGoes(s: State, step: Step, q: nat)
    requires Inv(s) && Enabled(s, step) && q < |s.procs| && (Plain(step) || step.Switch?)
    ensures Goes(s.procs[q], Do(s, step).procs[q], false, false)
  {
    Running(s, step);
    assert NewProcs(s, step) == s.procs[Cur(s, step.c) := NewMe(s, step)];
    MeGoes(s, step);
  }

  lemma ChildGoes(s: State, step: Step, y: Proc)
    requires TwoProcs(step) && (step.ForkFail? ==> y.st == EMBRYO) && (step.ForkAlloc? ==> y.st == UNUSED)
    ensures Goes(y, NewChild(s, step, y), false, step.WaitReap?)
  {
  }

  lemma TwoGoes(s: State, step: Step, q: nat)
    requires Inv(s) && Enabled(s, step) && q < |s.procs| && TwoProcs(step)
    ensures Goes(s.procs[q], Do(s, step).procs[q], false, Clears(step, q))
  {
    ChildOff(s, step);
    TwoShape(s, step);
    MeGoes(s, step);
    assert s.procs[Cur(s, step.c)] == Me(s, step.c);
    if step.ForkFail? {
      assert ForkLink(s.procs, s.procs[Cur(s, step.c)], Cur(s, step.c));
    }
    ChildGoes(s, step, s.procs[ChildOf(s, step)]);
  }

  lemma IrqGoes(s: State, step: Step, q: nat)
    requires Enabled(s, step) && q < |s.procs| && step.IrqDo?
    ensures Goes(s.procs[q], Do(s, step).procs[q], Marks(s, step, q), false)
  {
  }

  lemma ExitGoes(s: State, step: Step, q: nat)
    requires Inv(s) && Enabled(s, step) && q < |s.procs| && step.ExitDo?
    ensures Goes(s.procs[q], Do(s, step).procs[q], false, false)
  {
    Running(s, step);
    var y := ExitedAt(s.procs, Cur(s, step.c), s.init, q);
  }

  /** Of all steps only kill sets the mark, on the slot it finds, and only wait clears it; and only
      by wait does the slot of a started process become fresh. */
  lemma StepGoes(s: State, step: Step, q: nat)
    requires Inv(s) && Enabled(s, step) && q < |s.procs|
    ensures |Do(s, step).procs| == |s.procs|
    ensures Goes(s.procs[q], Do(s, step).procs[q], Marks(s, step, q), Clears(step, q))
  {
    if Plain(step) || step.Switch? {
      PlainGoes(s, step, q);
    } else if TwoProcs(step) {
      TwoGoes(s, step, q);
    } else if step.IrqDo? {
      IrqGoes(s, step, q);
    } else if step.ExitDo? {
      ExitGoes(s, step, q);
    }
  }

  // ---- Runs

  /** One step of a run. */
  lemma RunGoes(run: seq<State>, steps: seq<Step>, i: nat, q: nat)
    requires IsRun(run, steps) && i < |steps|
    ensures |run[i + 1].procs| == |run[i].procs|
    ensures q < |run[i].procs| ==>
      Goes(run[i].procs[q], run[i + 1].procs[q], Marks(run[i], steps[i], q), Clears(steps[i], q))
  {
    RunInv(run, steps, i);
    assert run[i + 1] == Do(run[i], steps[i]);
    if q < |run[i].procs| {
      StepGoes(run[i], steps[i], q);
    }
  }

  /** A kill at step j found slot q, and wait has not given it back before step i. */
  ghost predicate MarkedAt(run: seq<State>, steps: seq<Step>, i: nat, q: nat, j: nat) {
    && j < i <= |steps| && i <= |run| && Marks(run[j], steps[j], q)
    && forall k :: j < k < i ==> !Clears(steps[k], q)
  }

  ghost predicate MarkedSince(run: seq<State>, steps: seq<Step>, i: nat, q: nat) {
    exists j: nat :: MarkedAt(run, steps, i, q, j)
  }

  lemma MarkedNext(run: seq<State>, steps: seq<Step>, i: nat, q: nat)
    requires i < |steps| && |run| == |steps| + 1
    ensures MarkedSince(run, steps, i + 1, q) <==>
      !Clears(steps[i], q) && (Marks(run[i], steps[i], q) || MarkedSince(run, steps, i, q))
  {
    if MarkedSince(run, steps, i + 1, q) {
      var j: nat :| MarkedAt(run, steps, i + 1, q, j);
      assert j < i ==> MarkedAt(run, steps, i, q, j);
    }
    if Marks(run[i], steps[i], q) {
      assert MarkedAt(run, steps, i + 1, q, i);
    } else if !Clears(steps[i], q) && MarkedSince(run, steps, i, q) {
      var j: nat :| MarkedAt(run, steps, i, q, j);
      assert MarkedAt(run, steps, i + 1, q, j);
    }
  }

  /** The mark of slot q is as it should be after i steps. */
  ghost predicate MarkOk(run: seq<State>, steps: seq<Step>, i: nat, q: nat) {
    i < |run| && q < |run[i].procs| && (run[i].procs[q].killed <==> MarkedSince(run, steps, i, q))
  }

  lemma BootOk(run: seq<State>, steps: seq<Step>, q: nat)
    requires IsRun(run, steps) && q < |run[0].procs|
    ensures MarkOk(run, steps, 0, q)
  {
  }

  lemma NextOk(run: seq<State>, steps: seq<Step>, i: nat, q: nat)
    requires IsRun(run, steps) && i < |steps| && MarkOk(run, steps, i, q)
    ensures MarkOk(run, steps, i + 1, q)
  {
    RunGoes(run, steps, i, q);
    MarkedNext(run, steps, i, q);
  }

  /** The mark of a slot in any run: a kill found it since wait last gave it back. */
  lemma {:induction false} KilledSince(run: seq<State>, steps: seq<Step>, i: nat, q: nat)
    requires IsRun(run, steps) && i < |run| && q < |run[0].procs|
    ensures q < |run[i].procs| && (run[i].procs[q].killed <==> MarkedSince(run, steps, i, q))
  {
    if i == 0 {
      BootOk(run, steps, q);
    } else {
      KilledSince(run, steps, i - 1, q);
      NextOk(run, steps, i - 1, q);
    }
  }

  /** A slot that is fresh was so ever since it was given back. */
  lemma {:induction false} FreshSince(run: seq<State>, steps: seq<Step>, i: nat, q: nat, j: nat)
    requires IsRun(run, steps) && j <= i < |run| && q < |run[i].procs| && Fresh(run[i].procs[q])
    requires forall k :: j <= k < i ==> !Clears(steps[k], q)
    ensures q < |run[j].procs| && Fresh(run[j].procs[q])
    decreases i - j
  {
    if j < i {
      RunGoes(run, steps, i - 1, q);
      FreshSince(run, steps, i - 1, q, j);
    }
  }

  /** A kill found slot q while no process of it had been started since it was given back. */
  ghost predicate HitFresh(run: seq<State>, steps: seq<Step>, i: nat, q: nat) {
    exists j: nat :: MarkedAt(run, steps, i, q, j) && q < |run[j].procs| && Fresh(run[j].procs[q])
  }

  lemma {:induction false} SameSize(run: seq<State>, steps: seq<Step>, i: nat)
    requires IsRun(run, steps) && i < |run|
    ensures |run[i].procs| == |run[0].procs|
  {
    if i > 0 {
      SameSize(run, steps, i - 1);
      RunGoes(run, steps, i - 1, 0);
    }
  }

  /** allocproc takes an unused slot and leaves its mark alone. */
  lemma Taken(run: seq<State>, steps: seq<Step>, i: nat)
    requires IsRun(run, steps) && i < |steps| && steps[i].ForkAlloc?
    ensures steps[i].k < |run[i].procs| == |run[0].procs| && |run[i + 1].procs| == |run[i].procs|
    ensures run[i].procs[steps[i].k].st == UNUSED && run[i + 1].procs[steps[i].k].st == EMBRYO
    ensures run[i + 1].procs[steps[i].k].killed == run[i].procs[steps[i].k].killed
  {
    SameSize(run, steps, i);
    RunInv(run, steps, i);
    assert run[i + 1] == Do(run[i], steps[i]);
    ChildOff(run[i], steps[i]);
    TwoShape(run[i], steps[i]);
  }

  /** A new process is born killed exactly if a kill found its slot since wait last gave it back:
      while the slot was unused, or that of a child whose fork failed. */
  lemma BornKilled(run: seq<State>, steps: seq<Step>, i: nat)
    requires IsRun(run, steps) && i < |steps| && steps[i].ForkAlloc?
    ensures steps[i].k < |run[i + 1].procs| && run[i + 1].procs[steps[i].k].st == EMBRYO
    ensures run[i + 1].procs[steps[i].k].killed <==> HitFresh(run, steps, i, steps[i].k)
  {
    var q := steps[i].k;
    Taken(run, steps, i);
    KilledSince(run, steps, i, q);
    if MarkedSince(run, steps, i, q) {
      var j: nat :| MarkedAt(run, steps, i, q, j);
      FreshSince(run, steps, i, q, j);
    }
  }

  // ---- A case

  function FreeSlot(killed: bool): (y: Proc) {
    Proc(UNUSED, 0, No, NoChan, killed, false, false, Resumed(Never), NoFork, No, NoCall)
  }

  /** One CPU, init and a free slot with its mark. */
  function Small(st: PState, pc: Pc, killed: bool, cpu: Cpu, lock: Lock): (s: State) {
    State([Proc(st, 1, No, NoChan, false, true, false, pc, NoFork, cpu.proc, NoCall), FreeSlot(killed)],
      [cpu], [lock], 0, 2, [])
  }

  function Booted(): (s: State) {
    Small(RUNNABLE, Resumed(ToUser), false, Cpu(No, false, NoIrq, 0, false, true, {}), Lock(No, 0))
  }

  function Scheduling(): (s: State) {
    Small(RUNNABLE, Resumed(ToUser), false, Cpu(No, true, NoIrq, 1, true, false, {0}), Lock(Yes(0), 1))
  }

  function Dispatched(): (s: State) {
    Small(RUNNING, Resumed(ToUser), false, Cpu(Yes(0), false, NoIrq, 1, false, false, {0}), Lock(Yes(0), 1))
  }

  function AtUser(killed: bool, acq: nat): (s: State) {
    Small(RUNNING, User, killed, Cpu(Yes(0), false, NoIrq, 0, false, false, {}), Lock(No, acq))
  }

  /** init at a place where it holds ptable.lock. */
  function Locked(pc: Pc, irq: Irq, killed: bool, acq: nat): (s: State) {
    Small(RUNNING, pc, killed, Cpu(Yes(0), false, irq, 1, false, false, {0}), Lock(Yes(0), acq))
  }

  ghost function Reaches(): iset<State> {
    iset s: State | Reachable(s)
  }

  lemma OneMore(run: seq<State>, steps: seq<Step>, s: State, step: Step)
    requires IsRun(run, steps) && run[|run| - 1] == s && Enabled(s, step)
    ensures IsRun(run + [Do(s, step)], steps + [step])
  {
    var run', steps' := run + [Do(s, step)], steps + [step];
    forall i | 0 <= i < |steps'| ensures Enabled(run'[i], steps'[i]) && run'[i + 1] == Do(run'[i], steps'[i]) {
      if i < |steps| {
        assert run'[i] == run[i] && run'[i + 1] == run[i + 1] && steps'[i] == steps[i];
      } else {
        assert run'[i] == s && run'[i + 1] == Do(s, step) && steps'[i] == step;
      }
    }
  }

  lemma ReachStep(s: State, step: Step, s': State)
    requires s in Reaches() && Enabled(s, step)
    requires NewProcs(s, step) == s'.procs && s.cpus[step.c := NewCpu(s, step)] == s'.cpus &&
      NewLocks(s.locks, step.c, OpOf(s, step)) == s'.locks
    requires s'.init == s.init && s'.nextpid == s.nextpid && s'.reaped == s.reaped && !step.ForkAlloc? &&
      !step.WaitReap?
    ensures s' in Reaches()
  {
    var run, steps :| IsRun(run, steps) && run[|run| - 1] == s;
    OneMore(run, steps, s, step);
    assert Do(s, step) == s';
  }

  lemma ReachScheduling()
    ensures Scheduling() in Reaches()
  {
    assert IsRun([Booted()], []);
    assert Booted().cpus[0].held + {0} == {0};
    ReachStep(Booted(), SchedLock(0), Scheduling());
  }

  lemma ReachDispatched()
    ensures Dispatched() in Reaches()
  {
    ReachScheduling();
    ReachStep(Scheduling(), Dispatch(0, 0), Dispatched());
  }

  lemma ReachUser()
    ensures AtUser(false, 1) in Reaches()
  {
    ReachDispatched();
    assert Dispatched().cpus[0].held - {0} == {};
    ReachStep(Dispatched(), Resume(0), AtUser(false, 1));
  }

  lemma ReachKill()
    ensures Locked(User, Killing(0), false, 2) in Reaches()
  {
    ReachUser();
    assert AtUser(false, 1).cpus[0].held + {0} == {0};
    ReachStep(AtUser(false, 1), IrqLock(0, Killing(0)), Locked(User, Killing(0), false, 2));
  }

  lemma ReachMark()
    ensures AtUser(true, 2) in Reaches()
  {
    ReachKill();
    var s := Locked(User, Killing(0), false, 2);
    assert FindPid(s.procs, 0, 0) == 1;
    assert s.cpus[0].held - {0} == {};
    ReachStep(s, IrqDo(0), AtUser(true, 2));
  }

  lemma ReachAlloc()
    ensures Locked(Allocating, NoIrq, true, 3) in Reaches()
  {
    ReachMark();
    assert AtUser(true, 2).cpus[0].held + {0} == {0};
    ReachStep(AtUser(true, 2), ForkLock(0), Locked(Allocating, NoIrq, true, 3));
  }

  /** Right after boot, init calls kill(0) and forks: kill finds the free slot, whose pid is 0, and
      the child is born killed. */
  lemma KillZero() returns (s: State)
    ensures Reachable(s) && Enabled(s, ForkAlloc(0, 1)) && |s.procs| == 2
    ensures var s' := Do(s, ForkAlloc(0, 1)); s'.procs[1].st == EMBRYO && s'.procs[1].killed
  {
    ReachAlloc();
    s := Locked(Allocating, NoIrq, true, 3);
  }
}
