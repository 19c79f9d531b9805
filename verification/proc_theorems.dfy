/** Every run of the process system: no wakeup is lost, CPUs and running processes match,
    and zombies are reaped once, by their parent, off their CPU. */
module ProcTheorems {
  import opened ProcSteps
  import opened ProcInv
  import opened ProcFamily

  // ---- Calls of sleep

  /** A call of sleep that has not been woken is before its sleep, its lock untouched or
      ptable.lock held, or asleep on its channel. */
  predicate CallOk(x: Proc, locks: seq<Lock>) {
    match x.call
    case NoCall => !x.pc.SleepCalled? && !x.pc.SleepLocked? && !x.pc.SleepReady? && x.st != SLEEPING
    case Call(chan, lk, at) =>
      && lk < |locks| && at <= locks[lk].acq
      && (if x.pc == SleepCalled(chan, lk) || x.pc == SleepLocked(chan, lk) then at == locks[lk].acq
          else if x.pc == SleepReady(chan, lk) then lk == 0 ==> at == locks[lk].acq
          else x.st == SLEEPING && x.chan == chan && !x.pc.SleepCalled? && !x.pc.SleepLocked? && !x.pc.SleepReady?)
  }

  ghost predicate CallsOk(procs: seq<Proc>, locks: seq<Lock>) {
    forall p :: 0 <= p < |procs| ==> CallOk(procs[p], locks)
  }

  ghost predicate Inv(s: State) {
    && LocksOk(s.cpus, s.locks) && SchedOk(s.procs, s.cpus) && CallsOk(s.procs, s.locks)
    && FamilyOk(s.procs, s.init) && PidsOk(s.procs, s.nextpid, s.reaped)
  }

  /** Nobody acquires the lock of a process that is about to sleep. */
  lemma CallKept(x: Proc, p: nat, cpus: seq<Cpu>, locks: seq<Lock>, c: nat, op: LockOp)
    requires LocksOk(cpus, locks) && PlaceOk(x, p, cpus) && CallOk(x, locks) && OpOk(locks, c, op)
    ensures CallOk(x, NewLocks(locks, c, op))
  {
    if x.on.Yes? {
      assert HeldOk(cpus[x.on.v], x.on.v, locks);
    }
  }

  lemma CallsKept(procs: seq<Proc>, cpus: seq<Cpu>, locks: seq<Lock>, c: nat, op: LockOp)
    requires LocksOk(cpus, locks) && SchedOk(procs, cpus) && CallsOk(procs, locks) && OpOk(locks, c, op)
    ensures CallsOk(procs, NewLocks(locks, c, op))
  {
    forall p | 0 <= p < |procs| ensures CallOk(procs[p], NewLocks(locks, c, op)) {
      CallKept(procs[p], p, cpus, locks, c, op);
    }
  }

  lemma SleepCall(s: State, step: Step)
    requires Enabled(s, step) && SleepStep(step) && Runs(s, step.c, Cur(s, step.c))
    requires RunOk(Me(s, step.c), s.cpus[step.c]) && CallOk(Me(s, step.c), s.locks)
    ensures CallOk(NewMe(s, step), NewLocks(s.locks, step.c, OpOf(s, step)))
  {
  }

  lemma WaitCall(s: State, step: Step)
    requires Enabled(s, step) && WaitStep(step) && Runs(s, step.c, Cur(s, step.c))
    requires RunOk(Me(s, step.c), s.cpus[step.c]) && CallOk(Me(s, step.c), s.locks)
    ensures CallOk(NewMe(s, step), NewLocks(s.locks, step.c, OpOf(s, step)))
  {
  }

  lemma ForkCall(s: State, step: Step)
    requires Enabled(s, step) && ForkStep(step) && Runs(s, step.c, Cur(s, step.c))
    requires RunOk(Me(s, step.c), s.cpus[step.c]) && CallOk(Me(s, step.c), s.locks)
    ensures CallOk(NewMe(s, step), NewLocks(s.locks, step.c, OpOf(s, step)))
  {
  }

  lemma LocalCall(s: State, step: Step)
    requires Enabled(s, step) && Local(step) && Runs(s, step.c, Cur(s, step.c))
    requires RunOk(Me(s, step.c), s.cpus[step.c]) && CallOk(Me(s, step.c), s.locks)
    ensures CallOk(NewMe(s, step), NewLocks(s.locks, step.c, OpOf(s, step)))
  {
    if SleepStep(step) {
      SleepCall(s, step);
    } else if WaitStep(step) {
      WaitCall(s, step);
    } else {
      ForkCall(s, step);
    }
  }

  // ---- Every step keeps the invariant

  lemma LocksStep(s: State, step: Step)
    requires LocksOk(s.cpus, s.locks) && Enabled(s, step)
    ensures LocksOk(Do(s, step).cpus, Do(s, step).locks)
  {
    LockStep(s.cpus, s.locks, step.c, OpOf(s, step), Rescheduled(s, step));
  }

  /** Who is running the step, for the steps of a process. */
  lemma Running(s: State, step: Step)
    requires SchedOk(s.procs, s.cpus) && Enabled(s, step) && (Local(step) || step.Switch? || step.ExitDo?)
    ensures Runs(s, step.c, Cur(s, step.c)) && RunOk(Me(s, step.c), s.cpus[step.c]) && Me(s, step.c).on == Yes(step.c)
  {
    var c, p := step.c, Cur(s, step.c);
    assert Runs(s, c, p);
    assert CpuPlace(s.cpus[c], c, s.procs) && PlaceOk(s.procs[p], p, s.cpus);
  }

  predicate TwoProcs(step: Step) {
    step.WaitReap? || step.ForkAlloc? || step.ForkFail? || step.ForkSetup? || step.StartDo?
  }

  /** Steps of a process that change it alone. */
  lemma PlainKeeps(s: State, step: Step)
    requires Inv(s) && Enabled(s, step) && Plain(step)
    ensures Inv(Do(s, step))
  {
    Running(s, step);
    LocksStep(s, step);
    LocalSched(s, step);
    PlainFamily(s, step);
    var c, p := step.c, Cur(s, step.c);
    CallsKept(s.procs, s.cpus, s.locks, c, OpOf(s, step));
    assert CallOk(s.procs[p], s.locks);
    LocalCall(s, step);
    assert NewProcs(s, step) == s.procs[p := NewMe(s, step)];
  }

  /** Steps of a CPU that change no process. */
  lemma QuietKeeps(s: State, step: Step)
    requires Inv(s) && Enabled(s, step)
    requires step.Acquire? || step.Release? || step.SetInterrupts? || step.IrqLock? || step.SchedLock? ||
      step.SchedUnlock?
    ensures Inv(Do(s, step))
  {
    LocksStep(s, step);
    if step.SchedLock? || step.SchedUnlock? {
      SchedulerSched(s, step);
    } else {
      OrdinarySched(s, step);
    }
    CallsKept(s.procs, s.cpus, s.locks, step.c, OpOf(s, step));
    assert NewProcs(s, step) == s.procs;
  }

  lemma SwitchStepKeeps(s: State, step: Step)
    requires Inv(s) && Enabled(s, step) && step.Switch?
    ensures Inv(Do(s, step))
  {
    Running(s, step);
    LocksStep(s, step);
    SwitchSched(s, step);
    PlainFamily(s, step);
    assert CallOk(s.procs[Cur(s, step.c)], s.locks);
  }

  lemma DispatchKeeps(s: State, step: Step)
    requires Inv(s) && Enabled(s, step) && step.Dispatch?
    ensures Inv(Do(s, step))
  {
    LocksStep(s, step);
    SchedulerHolds(s, step.c, step.p);
    assert PlaceOk(s.procs[step.p], step.p, s.cpus);
    DispatchSched(s, step);
    DispatchFamily(s, step);
    assert CallOk(s.procs[step.p], s.locks);
  }

  lemma IrqCall(x: Proc, p: nat, cpus: seq<Cpu>, locks: seq<Lock>)
    requires CallOk(x, locks)
    ensures x.st != SLEEPING || (!x.pc.SleepCalled? && !x.pc.SleepLocked? && !x.pc.SleepReady?) ==>
      (forall chan :: CallOk(Woken(x, chan), locks)) && CallOk(Killed(x), locks)
  {
  }

  lemma IrqKeeps(s: State, step: Step)
    requires Inv(s) && Enabled(s, step) && step.IrqDo?
    ensures Inv(Do(s, step))
  {
    LocksStep(s, step);
    IrqSched(s, step);
    IrqFamily(s, step);
    CallsKept(s.procs, s.cpus, s.locks, step.c, OpOf(s, step));
    var ps, locks := NewProcs(s, step), NewLocks(s.locks, step.c, OpOf(s, step));
    forall p | 0 <= p < |ps| ensures CallOk(ps[p], locks) {
      assert CallOk(s.procs[p], locks);
      IrqCall(s.procs[p], p, s.cpus, locks);
    }
  }

  /** exit loses no call of sleep and no pid. */
  lemma ExitCalls(procs: seq<Proc>, cpus: seq<Cpu>, locks: seq<Lock>, nextpid: nat, reaped: seq<nat>, p: nat, init: nat)
    requires CallsOk(procs, locks) && SchedOk(procs, cpus) && PidsOk(procs, nextpid, reaped) && p < |procs| &&
      procs[p].pc == InExit && procs[p].st == RUNNING
    ensures CallsOk(Exited(procs, p, init), locks) && PidsOk(Exited(procs, p, init), nextpid, reaped)
  {
    var ps := Exited(procs, p, init);
    forall q | 0 <= q < |ps|
      ensures ps[q].st != UNUSED ==> procs[q].st != UNUSED && ps[q].pid == procs[q].pid
      ensures CallOk(ps[q], locks)
    {
      var y := ExitedAt(procs, p, init, q);
      assert CallOk(procs[q], locks) && PlaceOk(procs[q], q, cpus);
    }
    PidsMap(procs, ps, nextpid, reaped);
  }

  /** While one process holds ptable.lock in exit, none is about to sleep in wait. */
  lemma NoneReady(s: State, c: nat, q: nat)
    requires LocksOk(s.cpus, s.locks) && SchedOk(s.procs, s.cpus) && c < |s.cpus| && q < |s.procs|
    requires Runs(s, c, Cur(s, c)) && At(s, c) == InExit
    ensures s.procs[q].pc.SleepReady? ==> s.procs[q].pc.lk != 0
  {
    assert CpuPlace(s.cpus[c], c, s.procs) && PlaceOk(s.procs[Cur(s, c)], Cur(s, c), s.cpus) &&
      PlaceOk(s.procs[q], q, s.cpus);
    OneInTable(s.procs, s.cpus, s.locks, c, q);
  }

  lemma ExitKeeps(s: State, step: Step)
    requires Inv(s) && Enabled(s, step) && step.ExitDo?
    ensures Inv(Do(s, step))
  {
    var c, p := step.c, Cur(s, step.c);
    Running(s, step);
    LocksStep(s, step);
    ExitSched(s, step);
    forall q | 0 <= q < |s.procs| && s.procs[q].pc.SleepReady? ensures s.procs[q].pc.lk != 0 {
      NoneReady(s, c, q);
    }
    ExitFamily(s.procs, p, s.init);
    ExitCalls(s.procs, s.cpus, s.locks, s.nextpid, s.reaped, p, s.init);
    assert Do(s, step) == s.(procs := Exited(s.procs, p, s.init), cpus := s.cpus[c := NewCpu(s, step)]);
  }

  // ---- Steps that change a child too

  /** The other process such a step changes. */
  function ChildOf(s: State, step: Step): (k: nat) {
    match step
    case WaitReap(_, k) => k
    case ForkAlloc(_, k) => k
    case _ => if Me(s, step.c).fork == NoFork then 0 else Me(s, step.c).fork.k
  }

  lemma ReapedAtRest(s: State, step: Step)
    requires Inv(s) && Enabled(s, step) && step.WaitReap? && Runs(s, step.c, Cur(s, step.c))
    ensures step.k < |s.procs| && s.procs[step.k].on == No && step.k != Cur(s, step.c)
  {
    assert PlaceOk(s.procs[Cur(s, step.c)], Cur(s, step.c), s.cpus);
    OneInTable(s.procs, s.cpus, s.locks, step.c, step.k);
  }

  lemma EmbryoAtRest(s: State, p: nat, k: nat)
    requires SchedOk(s.procs, s.cpus) && p < |s.procs| && k < |s.procs| && s.procs[k].st == EMBRYO && s.procs[p].on.Yes?
    requires s.procs[p].st == RUNNING
    ensures s.procs[k].on == No && k != p
  {
    assert PlaceOk(s.procs[k], k, s.cpus) && PlaceOk(s.procs[p], p, s.cpus);
  }

  /** fork's child is an EMBRYO until it is started. */
  lemma EmbryoMade(s: State, step: Step, p: nat)
    requires AllForks(s.procs) && Reached(s, step) && (step.ForkFail? || step.ForkSetup? || step.StartDo?)
    requires Runs(s, step.c, p)
    ensures ChildOf(s, step) < |s.procs| && s.procs[ChildOf(s, step)].st == EMBRYO
  {
    assert ForkLink(s.procs, s.procs[p], p) && s.procs[p] == Me(s, step.c);
  }

  lemma ForkedAtRest(s: State, step: Step)
    requires Inv(s) && Enabled(s, step) && (step.ForkFail? || step.ForkSetup? || step.StartDo?) &&
      Runs(s, step.c, Cur(s, step.c))
    ensures ChildOf(s, step) < |s.procs| && s.procs[ChildOf(s, step)].on == No && ChildOf(s, step) != Cur(s, step.c)
  {
    var p, k := Cur(s, step.c), ChildOf(s, step);
    Running(s, step);
    EmbryoMade(s, step, p);
    EmbryoAtRest(s, p, k);
  }

  /** The child is an EMBRYO, a free slot or a zombie off its CPU. */
  lemma ChildAtRest(s: State, step: Step)
    requires Inv(s) && Enabled(s, step) && TwoProcs(step) && Runs(s, step.c, Cur(s, step.c))
    ensures ChildOf(s, step) < |s.procs| && s.procs[ChildOf(s, step)].on == No && ChildOf(s, step) != Cur(s, step.c)
  {
    if step.WaitReap? {
      ReapedAtRest(s, step);
    } else if step.ForkAlloc? {
      assert PlaceOk(s.procs[step.k], step.k, s.cpus);
    } else {
      ForkedAtRest(s, step);
    }
  }

  /** It is on no CPU and is not the running process. */
  lemma ChildOff(s: State, step: Step)
    requires Inv(s) && Enabled(s, step) && TwoProcs(step)
    ensures Runs(s, step.c, Cur(s, step.c)) && RunOk(Me(s, step.c), s.cpus[step.c]) && Me(s, step.c).on == Yes(step.c)
    ensures ChildOf(s, step) < |s.procs| && ChildOf(s, step) != Cur(s, step.c)
    ensures s.procs[ChildOf(s, step)].on == No && RestOk(s.procs[ChildOf(s, step)]) &&
      s.procs[ChildOf(s, step)].fork == NoFork
  {
    Running(s, step);
    ChildAtRest(s, step);
    assert PlaceOk(s.procs[ChildOf(s, step)], ChildOf(s, step), s.cpus);
  }

  /** The child after the step. */
  function NewChild(s: State, step: Step, y: Proc): (r: Proc) {
    match step
    case WaitReap(_, _) => y.(st := UNUSED, pid := 0, parent := No, killed := false, kstack := false)
    case ForkAlloc(_, _) => y.(st := EMBRYO, pid := s.nextpid)
    case ForkFail(_) => y.(st := UNUSED, kstack := false)
    case ForkSetup(_) => y.(kstack := true, parent := Yes(Cur(s, step.c)))
    case _ => y.(st := RUNNABLE, pc := Resumed(ToUser))
  }

  lemma TwoShape(s: State, step: Step)
    requires Enabled(s, step) && TwoProcs(step) && Cur(s, step.c) < |s.procs|
    requires ChildOf(s, step) < |s.procs| && ChildOf(s, step) != Cur(s, step.c)
    ensures NewProcs(s, step) ==
      s.procs[Cur(s, step.c) := NewMe(s, step)][ChildOf(s, step) := NewChild(s, step, s.procs[ChildOf(s, step)])]
  {
  }

  lemma ChildRests(s: State, step: Step, y: Proc)
    requires Enabled(s, step) && TwoProcs(step) && y.on == No && RestOk(y) && y.fork == NoFork
    requires ChildOf(s, step) < |s.procs| && y == s.procs[ChildOf(s, step)]
    ensures NewChild(s, step, y).on == No && RestOk(NewChild(s, step, y))
  {
  }

  lemma TwoSched(s: State, step: Step)
    requires SchedOk(s.procs, s.cpus) && LocksOk(s.cpus, s.locks) && Enabled(s, step) && TwoProcs(step)
    requires Runs(s, step.c, Cur(s, step.c)) && ChildOf(s, step) < |s.procs| && ChildOf(s, step) != Cur(s, step.c)
    requires s.procs[ChildOf(s, step)].on == No && RestOk(s.procs[ChildOf(s, step)]) &&
      s.procs[ChildOf(s, step)].fork == NoFork
    ensures NewProcs(s, step) == s.procs[Cur(s, step.c) := NewMe(s, step)][ChildOf(s, step) := NewChild(s, step,
      s.procs[ChildOf(s, step)])]
    ensures SchedOk(NewProcs(s, step), s.cpus[step.c := NewCpu(s, step)])
  {
    var p, k := Cur(s, step.c), ChildOf(s, step);
    TwoShape(s, step);
    ChildRests(s, step, s.procs[k]);
    LocalSched(s, step);
    RestKeeps(s.procs[p := NewMe(s, step)], s.cpus[step.c := NewCpu(s, step)], k, NewChild(s, step, s.procs[k]));
  }

  /** The later steps of fork. */
  lemma ForkedFamily(s: State, step: Step, p: nat, k: nat, x: Proc, y: Proc)
    requires Inv(s) && Enabled(s, step) && (step.ForkFail? || step.ForkSetup? || step.StartDo?)
    requires Runs(s, step.c, p) && RunOk(s.procs[p], s.cpus[step.c]) && k == ChildOf(s, step) < |s.procs| && k != p
    requires s.procs[k].on == No && RestOk(s.procs[k]) && s.procs[k].fork == NoFork
    requires x == NewMe(s, step) && y == NewChild(s, step, s.procs[k])
    ensures FamilyOk(s.procs[p := x][k := y], s.init)
  {
    assert s.procs[p] == Me(s, step.c);
    if step.StartDo? {
      StartFamily(s.procs, p, k, s.init, x, y);
    } else {
      ChildFamily(s.procs, p, k, s.init, x, y);
    }
  }

  lemma TwoFamily(s: State, step: Step)
    requires Inv(s) && Enabled(s, step) && TwoProcs(step)
    requires Runs(s, step.c, Cur(s, step.c)) && RunOk(Me(s, step.c), s.cpus[step.c])
    requires ChildOf(s, step) < |s.procs| && ChildOf(s, step) != Cur(s, step.c)
    requires s.procs[ChildOf(s, step)].on == No && RestOk(s.procs[ChildOf(s, step)]) &&
      s.procs[ChildOf(s, step)].fork == NoFork
    ensures FamilyOk(s.procs[Cur(s, step.c) := NewMe(s, step)][ChildOf(s, step) := NewChild(s, step,
      s.procs[ChildOf(s, step)])], s.init)
  {
    var p, k := Cur(s, step.c), ChildOf(s, step);
    var x, y := NewMe(s, step), NewChild(s, step, s.procs[k]);
    if step.WaitReap? {
      ReapFamily(s.procs, p, k, s.init, x, y);
    } else if step.ForkAlloc? {
      AllocFamily(s.procs, p, k, s.init, s.nextpid, x, y);
    } else {
      ForkedFamily(s, step, p, k, x, y);
    }
  }

  lemma OnePid(procs: seq<Proc>, p: nat, x: Proc, nextpid: nat, reaped: seq<nat>)
    requires PidsOk(procs, nextpid, reaped) && p < |procs| &&
      (x.st != UNUSED ==> procs[p].st != UNUSED && x.pid == procs[p].pid)
    ensures PidsOk(procs[p := x], nextpid, reaped)
  {
    PidsMap(procs, procs[p := x], nextpid, reaped);
  }

  /** Only reaping and allocating take and give pids. */
  lemma SamePids(s: State, step: Step)
    requires Inv(s) && Enabled(s, step) && TwoProcs(step) && Runs(s, step.c, Cur(s, step.c)) &&
      ChildOf(s, step) < |s.procs|
    ensures NewMe(s, step).st != UNUSED ==> Me(s, step.c).st != UNUSED && NewMe(s, step).pid == Me(s, step.c).pid
    ensures var y := s.procs[ChildOf(s, step)]; var z := NewChild(s, step, y);
      !step.WaitReap? && !step.ForkAlloc? && z.st != UNUSED ==> y.st != UNUSED && z.pid == y.pid
  {
    assert ForkLink(s.procs, Me(s, step.c), Cur(s, step.c));
  }

  lemma TwoPids(s: State, step: Step)
    requires Inv(s) && Enabled(s, step) && TwoProcs(step)
    requires Runs(s, step.c, Cur(s, step.c)) && RunOk(Me(s, step.c), s.cpus[step.c])
    requires ChildOf(s, step) < |s.procs| && ChildOf(s, step) != Cur(s, step.c)
    ensures PidsOk(s.procs[Cur(s, step.c) := NewMe(s, step)][ChildOf(s, step) := NewChild(s, step,
      s.procs[ChildOf(s, step)])],
                   if step.ForkAlloc? then s.nextpid + 1 else s.nextpid,
                   if step.WaitReap? then s.reaped + [s.procs[step.k].pid] else s.reaped)
  {
    var p, k := Cur(s, step.c), ChildOf(s, step);
    var x, y := NewMe(s, step), NewChild(s, step, s.procs[k]);
    SamePids(s, step);
    OnePid(s.procs, p, x, s.nextpid, s.reaped);
    if step.WaitReap? {
      ReapPids(s.procs[p := x], k, y, s.nextpid, s.reaped);
    } else if step.ForkAlloc? {
      AllocPids(s.procs[p := x], k, y, s.nextpid, s.reaped);
    } else {
      OnePid(s.procs[p := x], k, y, s.nextpid, s.reaped);
    }
  }

  lemma TwoCalls(s: State, step: Step, locks: seq<Lock>)
    requires CallsOk(s.procs, locks) && Enabled(s, step) && TwoProcs(step) && Runs(s, step.c, Cur(s, step.c))
    requires CallOk(NewMe(s, step), locks) && ChildOf(s, step) < |s.procs| && ChildOf(s, step) != Cur(s, step.c)
    requires s.procs[ChildOf(s, step)].st == ZOMBIE || s.procs[ChildOf(s, step)].st == UNUSED ||
      s.procs[ChildOf(s, step)].st == EMBRYO
    requires RestOk(s.procs[ChildOf(s, step)])
    ensures CallsOk(s.procs[Cur(s, step.c) := NewMe(s, step)][ChildOf(s, step) := NewChild(s, step,
      s.procs[ChildOf(s, step)])], locks)
  {
    var k := ChildOf(s, step);
    assert CallOk(s.procs[k], locks);
    assert CallOk(NewChild(s, step, s.procs[k]), locks);
  }

  lemma TwoKeeps(s: State, step: Step)
    requires Inv(s) && Enabled(s, step) && TwoProcs(step)
    ensures Inv(Do(s, step))
  {
    ChildOff(s, step);
    LocksStep(s, step);
    TwoSched(s, step);
    TwoFamily(s, step);
    TwoPids(s, step);
    var p, k := Cur(s, step.c), ChildOf(s, step);
    CallsKept(s.procs, s.cpus, s.locks, step.c, OpOf(s, step));
    assert CallOk(s.procs[p], s.locks) && CallOk(s.procs[k], s.locks);
    LocalCall(s, step);
    TwoCalls(s, step, NewLocks(s.locks, step.c, OpOf(s, step)));
  }

  /** Every step keeps the invariant. */
  lemma StepKeeps(s: State, step: Step)
    requires Inv(s) && Enabled(s, step)
    ensures Inv(Do(s, step))
  {
    if Plain(step) {
      PlainKeeps(s, step);
    } else if TwoProcs(step) {
      TwoKeeps(s, step);
    } else if step.Switch? {
      SwitchStepKeeps(s, step);
    } else if step.Dispatch? {
      DispatchKeeps(s, step);
    } else if step.IrqDo? {
      IrqKeeps(s, step);
    } else if step.ExitDo? {
      ExitKeeps(s, step);
    } else {
      QuietKeeps(s, step);
    }
  }

  // ---- Runs

  /** The system after userinit: init is runnable, everything else is idle. */
  ghost predicate Boot(s: State) {
    && s.init < |s.procs| && s.reaped == [] && 0 < |s.locks|
    && (forall p :: 0 <= p < |s.procs| ==>
          s.procs[p] == Proc(if p == s.init then RUNNABLE else UNUSED, if p == s.init then 1
            else 0, No, NoChan, false, p == s.init,
                             s.procs[p].intena, Resumed(if p == s.init then ToUser else Never), NoFork, No, NoCall))
    && (forall c :: 0 <= c < |s.cpus| ==> s.cpus[c] == Cpu(No, false, NoIrq, 0, s.cpus[c].intena, s.cpus[c].iflag, {}))
    && (forall l :: 0 <= l < |s.locks| ==> s.locks[l].holder == No)
    && s.nextpid == 2
  }

  lemma BootInv(s: State)
    requires Boot(s)
    ensures Inv(s)
  {
    forall p | 0 <= p < |s.procs| ensures KinOk(s.procs, s.init, s.procs[p], p) && AsleepOk(s.procs, s.procs[p], p) {
    }
  }

  ghost predicate IsRun(run: seq<State>, steps: seq<Step>) {
    && |run| == |steps| + 1 && Boot(run[0])
    && forall i :: 0 <= i < |steps| ==> Enabled(run[i], steps[i]) && run[i + 1] == Do(run[i], steps[i])
  }

  ghost predicate Reachable(s: State) {
    exists run, steps :: IsRun(run, steps) && run[|run| - 1] == s
  }

  lemma RunInv(run: seq<State>, steps: seq<Step>, n: nat)
    requires IsRun(run, steps) && n < |run|
    ensures Inv(run[n])
  {
    BootInv(run[0]);
    for i := 0 to n
      invariant Inv(run[i])
    {
      StepKeeps(run[i], steps[i]);
    }
  }

  lemma ReachableInv(s: State)
    requires Reachable(s)
    ensures Inv(s)
  {
    var run, steps :| IsRun(run, steps) && run[|run| - 1] == s;
    RunInv(run, steps, |run| - 1);
  }

  // ---- What it means

  /** No lost wakeup: if process p called sleep(chan, lk) and was not woken since, then a
      wakeup(chan) under way after anyone has acquired lk again finds p asleep on chan
      and makes it runnable. */
  lemma NoLostWakeup(s: State, c: nat, p: nat)
    requires Reachable(s) && Enabled(s, IrqDo(c)) && s.cpus[c].irq.Waking? && p < |s.procs|
    requires s.procs[p].call.Call? && s.procs[p].call.chan == s.cpus[c].irq.chan
    requires s.procs[p].call.lk < |s.locks| && s.locks[s.procs[p].call.lk].acq > s.procs[p].call.at
    ensures s.procs[p].st == SLEEPING && s.procs[p].chan == s.cpus[c].irq.chan
    ensures Do(s, IrqDo(c)).procs[p].st == RUNNABLE
  {
    ReachableInv(s);
    assert CallOk(s.procs[p], s.locks) && PlaceOk(s.procs[p], p, s.cpus);
    assert HolderOk(s.locks[0], 0, s.cpus) && CpuPlace(s.cpus[c], c, s.procs);
    OneInTable(s.procs, s.cpus, s.locks, c, p);
  }

  /** The same for the wakeup of a parent in exit: a child's exit cannot slip between the
      parent's scan of its children and its sleep. */
  lemma ExitFindsParent(s: State, c: nat)
    requires Reachable(s) && Enabled(s, ExitDo(c))
    ensures var p := Cur(s, c);
      && p < |s.procs| && s.procs[p].parent.Yes? && s.procs[p].parent.v < |s.procs|
      && !WaitsAsleep(Do(s, ExitDo(c)).procs[s.procs[p].parent.v])
  {
    ReachableInv(s);
    var p := Cur(s, c);
    Running(s, ExitDo(c));
    assert KinOk(s.procs, s.init, s.procs[p], p);
    var q := s.procs[p].parent.v;
    var y := ExitedAt(s.procs, p, s.init, q);
    assert AsleepOk(s.procs, s.procs[q], q);
    NoneReady(s, c, q);
    StepKeeps(s, ExitDo(c));
    var z := ExitedAt(s.procs, p, s.init, p);
    assert Do(s, ExitDo(c)).procs[p].parent == Yes(q) && Do(s, ExitDo(c)).procs[p].st == ZOMBIE;
    assert LeavesZombie(Do(s, ExitDo(c)).procs, q);
    assert AsleepOk(Do(s, ExitDo(c)).procs, Do(s, ExitDo(c)).procs[q], q);
  }

  /** Lock hand-off: whenever ptable.lock is free, the RUNNING processes and the CPUs with
      a current process are in bijection. */
  lemma HandOff(s: State)
    requires Reachable(s) && 0 < |s.locks| && s.locks[0].holder == No
    ensures forall p :: 0 <= p < |s.procs| && s.procs[p].st == RUNNING ==>
      s.procs[p].on.Yes? && s.procs[p].on.v < |s.cpus| && s.cpus[s.procs[p].on.v].proc == Yes(p)
    ensures forall c :: 0 <= c < |s.cpus| && s.cpus[c].proc.Yes? ==>
      s.cpus[c].proc.v < |s.procs| && s.procs[s.cpus[c].proc.v].st == RUNNING && s.procs[s.cpus[c].proc.v].on == Yes(c)
  {
    ReachableInv(s);
    forall p | 0 <= p < |s.procs| && s.procs[p].st == RUNNING
      ensures s.procs[p].on.Yes? && s.procs[p].on.v < |s.cpus| && s.cpus[s.procs[p].on.v].proc == Yes(p)
    {
      assert PlaceOk(s.procs[p], p, s.cpus);
    }
    forall c | 0 <= c < |s.cpus| && s.cpus[c].proc.Yes?
      ensures s.cpus[c].proc.v < |s.procs| && s.procs[s.cpus[c].proc.v].st == RUNNING &&
        s.procs[s.cpus[c].proc.v].on == Yes(c)
    {
      assert CpuPlace(s.cpus[c], c, s.procs) && HeldOk(s.cpus[c], c, s.locks);
      assert PlaceOk(s.procs[s.cpus[c].proc.v], s.cpus[c].proc.v, s.cpus);
    }
  }

  /** Interrupts are off on any CPU that holds a lock, and its nesting depth is the number it holds. */
  lemma InterruptsOff(s: State, c: nat, l: nat)
    requires Reachable(s) && l < |s.locks| && s.locks[l].holder == Yes(c)
    ensures c < |s.cpus| && !s.cpus[c].iflag && s.cpus[c].ncli == |s.cpus[c].held| && l in s.cpus[c].held
  {
    ReachableInv(s);
    assert HolderOk(s.locks[l], l, s.cpus) && CpuOk(s.cpus[c]);
    assert |s.cpus[c].held| > 0;
  }

  /** None of sched's panics is reached: ptable.lock is held, alone, by a CPU with
      interrupts off, and the process is no longer RUNNING. */
  lemma SchedSafe(s: State, c: nat)
    requires Reachable(s) && Enabled(s, Switch(c))
    ensures 0 < |s.locks| && s.locks[0].holder == Yes(c) && s.cpus[c].ncli == 1 && Me(s, c).st != RUNNING &&
      !s.cpus[c].iflag
  {
    ReachableInv(s);
    Running(s, Switch(c));
    assert CpuOk(s.cpus[c]) && HeldOk(s.cpus[c], c, s.locks);
    assert s.cpus[c].held == {0};
  }

  /** wait frees a kernel stack only when its owner, a zombie child of the caller, is on no CPU. */
  lemma ReapSafe(s: State, c: nat, k: nat)
    requires Reachable(s) && Enabled(s, WaitReap(c, k))
    ensures s.procs[k].st == ZOMBIE && s.procs[k].parent == Yes(Cur(s, c)) && s.procs[k].kstack
    ensures forall d :: 0 <= d < |s.cpus| ==> s.cpus[d].proc != Yes(k)
    ensures s.procs[k].pid !in s.reaped
  {
    ReachableInv(s);
    ChildOff(s, WaitReap(c, k));
    assert KinOk(s.procs, s.init, s.procs[k], k);
    forall d | 0 <= d < |s.cpus| ensures s.cpus[d].proc != Yes(k) {
      assert CpuPlace(s.cpus[d], d, s.procs);
    }
  }

  /** Exit and wait: every started process but init has a live parent, no one sleeps in
      wait with a zombie child, pids in use are distinct, and no pid is reaped twice. */
  lemma Families(s: State)
    requires Reachable(s)
    ensures s.init < |s.procs| && Live(s.procs[s.init])
    ensures forall p :: 0 <= p < |s.procs| && Started(s.procs[p]) && p != s.init ==>
      s.procs[p].parent.Yes? && s.procs[p].parent.v < |s.procs| && Live(s.procs[s.procs[p].parent.v])
    ensures forall p :: 0 <= p < |s.procs| && s.procs[p].st == SLEEPING && s.procs[p].pc == Resumed(ToWait) ==>
      !LeavesZombie(s.procs, p)
    ensures forall p, q :: 0 <= p < q < |s.procs| && s.procs[p].st != UNUSED && s.procs[q].st != UNUSED ==>
      s.procs[p].pid != s.procs[q].pid
    ensures forall i, j :: 0 <= i < j < |s.reaped| ==> s.reaped[i] != s.reaped[j]
  {
    ReachableInv(s);
    forall p | 0 <= p < |s.procs| && Started(s.procs[p]) && p != s.init
      ensures s.procs[p].parent.Yes? && s.procs[p].parent.v < |s.procs| && Live(s.procs[s.procs[p].parent.v])
    {
      assert KinOk(s.procs, s.init, s.procs[p], p);
    }
    forall p | 0 <= p < |s.procs| && s.procs[p].st == SLEEPING && s.procs[p].pc == Resumed(ToWait)
      ensures !LeavesZombie(s.procs, p) {
      assert AsleepOk(s.procs, s.procs[p], p);
    }
  }
}
