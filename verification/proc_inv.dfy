/** What every step of the process system keeps. */
module ProcInv {
  import opened ProcSteps

  // ---- Locks and interrupts

  /** A CPU's nesting depth counts the locks it holds, and interrupts are off while it holds any. */
  ghost predicate CpuOk(cpu: Cpu) {
    cpu.ncli == |cpu.held| && (cpu.ncli > 0 ==> !cpu.iflag)
  }

  ghost predicate HeldOk(cpu: Cpu, c: nat, locks: seq<Lock>) {
    forall l :: l in cpu.held ==> l < |locks| && locks[l].holder == Yes(c)
  }

  ghost predicate HolderOk(lock: Lock, l: nat, cpus: seq<Cpu>) {
    lock.holder.Yes? ==> lock.holder.v < |cpus| && l in cpus[lock.holder.v].held
  }

  ghost predicate LocksOk(cpus: seq<Cpu>, locks: seq<Lock>) {
    && 0 < |locks|
    && (forall c :: 0 <= c < |cpus| ==> CpuOk(cpus[c]))
    && (forall c :: 0 <= c < |cpus| ==> HeldOk(cpus[c], c, locks))
    && (forall l :: 0 <= l < |locks| ==> HolderOk(locks[l], l, cpus))
  }

  lemma MaskedOk(cpu: Cpu, op: LockOp, iflag: bool)
    requires cpu.ncli == |cpu.held| && (cpu.ncli > 0 ==> !iflag) && (cpu.iflag == iflag || cpu.ncli == 0)
    requires (op.Take? ==> op.l !in cpu.held) && (op.Give? ==> op.l in cpu.held)
    ensures CpuOk(Masked(cpu, op))
  {
    if op.Give? {
      assert |cpu.held - {op.l}| == |cpu.held| - 1;
    }
  }

  lemma LockStep(cpus: seq<Cpu>, locks: seq<Lock>, c: nat, op: LockOp, cpu: Cpu)
    requires LocksOk(cpus, locks) && c < |cpus| && OpOk(locks, c, op)
    requires cpu.held == cpus[c].held && cpu.ncli == cpus[c].ncli && (cpu.iflag == cpus[c].iflag || cpu.ncli == 0)
    ensures LocksOk(cpus[c := Masked(cpu, op)], NewLocks(locks, c, op))
  {
    assert CpuOk(cpus[c]) && HeldOk(cpus[c], c, locks);
    var cs, ls := cpus[c := Masked(cpu, op)], NewLocks(locks, c, op);
    if !op.Keep? {
      assert HolderOk(locks[op.l], op.l, cpus);
    }
    MaskedOk(cpu, op, cpus[c].iflag);
    forall d | 0 <= d < |cs| ensures CpuOk(cs[d]) && HeldOk(cs[d], d, ls) {
      assert CpuOk(cpus[d]) && HeldOk(cpus[d], d, locks);
    }
    forall l | 0 <= l < |ls| ensures HolderOk(ls[l], l, cs) {
      assert HolderOk(locks[l], l, cpus);
    }
  }

  // ---- Processes on CPUs

  /** Whether a process at pc holds ptable.lock, and whether it holds nothing else. */
  predicate Table(pc: Pc) {
    !pc.User? && !pc.SleepCalled? && !pc.Relock?
  }

  predicate Alone(pc: Pc) {
    Table(pc) && !pc.SleepLocked?
  }

  function StateAt(next: Resume): (st: PState) {
    match next
    case ToUser => RUNNABLE
    case ToRelock(_) => RUNNABLE
    case AfterSleep(_) => SLEEPING
    case ToWait => SLEEPING
    case Never => ZOMBIE
  }

  predicate ResumeOk(next: Resume) {
    (next.ToRelock? || next.AfterSleep?) ==> next.lk != 0
  }

  predicate PcOk(pc: Pc, held: set<nat>) {
    && (Alone(pc) ==> held == {0})
    && (pc.SleepCalled? ==> pc.lk != 0 && held == {pc.lk})
    && (pc.SleepLocked? ==> pc.lk != 0 && held == {0, pc.lk})
    && (pc.Relock? ==> pc.lk != 0)
    && ((pc.Switching? || pc.Resumed? || pc.Yielding?) ==> ResumeOk(pc.next))
    && (pc.Yielding? ==> pc.next.ToUser? || pc.next.ToRelock?)
    && (pc.Resumed? ==> pc.next != Never)
  }

  predicate ForkOk(fork: Fork, pc: Pc) {
    && (fork != NoFork ==>
      pc == User || pc == Yielding(ToUser) || pc == Switching(ToUser) || pc == Resumed(ToUser) || pc == Starting)
    && (pc == Starting ==> fork.Ready?)
  }

  /** A process on a CPU. */
  predicate RunOk(x: Proc, cpu: Cpu) {
    && x.st == (if x.pc.Switching? then StateAt(x.pc.next) else RUNNING)
    && PcOk(x.pc, if cpu.irq == NoIrq then cpu.held else cpu.held - {0})
    && (cpu.irq != NoIrq ==> 0 in cpu.held && (x.pc == User || x.pc.Relock?))
    && (cpu.irq == NoIrq ==> (0 in cpu.held <==> Table(x.pc)))
    && ForkOk(x.fork, x.pc) && !cpu.sched
  }

  /** A process on no CPU. */
  predicate RestOk(x: Proc) {
    && x.st != RUNNING && x.pc.Resumed? && ResumeOk(x.pc.next)
    && (x.st == SLEEPING ==> x.pc.next.AfterSleep? || x.pc.next.ToWait?)
    && (x.st == ZOMBIE ==> x.pc.next == Never)
    && (x.st == RUNNABLE ==> x.pc.next != Never)
    && (x.fork != NoFork ==> x.st == RUNNABLE && x.pc.next == ToUser)
  }

  predicate PlaceOk(x: Proc, p: nat, cpus: seq<Cpu>) {
    match x.on
    case No => RestOk(x)
    case Yes(c) => c < |cpus| && cpus[c].proc == Yes(p) && RunOk(x, cpus[c])
  }

  predicate CpuPlace(cpu: Cpu, c: nat, procs: seq<Proc>) {
    match cpu.proc
    case Yes(p) => p < |procs| && procs[p].on == Yes(c) && !cpu.sched
    case No =>
      if cpu.sched then cpu.held == {0} && cpu.irq == NoIrq
      else (0 in cpu.held <==> cpu.irq != NoIrq)
  }

  ghost predicate SchedOk(procs: seq<Proc>, cpus: seq<Cpu>) {
    && (forall p :: 0 <= p < |procs| ==> PlaceOk(procs[p], p, cpus))
    && (forall c :: 0 <= c < |cpus| ==> CpuPlace(cpus[c], c, procs))
  }

  /** A step that changes the running process and its CPU. */
  lemma MeKeeps(procs: seq<Proc>, cpus: seq<Cpu>, p: nat, c: nat, x: Proc, cpu: Cpu)
    requires SchedOk(procs, cpus) && p < |procs| && c < |cpus| && cpus[c].proc == Yes(p)
    requires x.on == Yes(c) && cpu.proc == Yes(p) && RunOk(x, cpu)
    ensures SchedOk(procs[p := x], cpus[c := cpu])
  {
    var ps, cs := procs[p := x], cpus[c := cpu];
    forall q | 0 <= q < |procs| ensures PlaceOk(ps[q], q, cs) {
      assert PlaceOk(procs[q], q, cpus);
    }
    forall d | 0 <= d < |cpus| ensures CpuPlace(cs[d], d, ps) {
      assert CpuPlace(cpus[d], d, procs);
    }
  }

  /** A step of a CPU that runs no process. */
  lemma IdleKeeps(procs: seq<Proc>, cpus: seq<Cpu>, c: nat, cpu: Cpu)
    requires SchedOk(procs, cpus) && c < |cpus| && cpus[c].proc == No && cpu.proc == No && CpuPlace(cpu, c, procs)
    ensures SchedOk(procs, cpus[c := cpu])
  {
    var cs := cpus[c := cpu];
    forall q | 0 <= q < |procs| ensures PlaceOk(procs[q], q, cs) {
      assert PlaceOk(procs[q], q, cpus);
    }
    forall d | 0 <= d < |cpus| ensures CpuPlace(cs[d], d, procs) {
      assert CpuPlace(cpus[d], d, procs);
    }
  }

  /** A change to a process that is on no CPU. */
  lemma RestKeeps(procs: seq<Proc>, cpus: seq<Cpu>, p: nat, x: Proc)
    requires SchedOk(procs, cpus) && p < |procs| && procs[p].on == No && x.on == No && RestOk(x)
    ensures SchedOk(procs[p := x], cpus)
  {
    var ps := procs[p := x];
    forall q | 0 <= q < |procs| ensures PlaceOk(ps[q], q, cpus) {
      assert PlaceOk(procs[q], q, cpus);
    }
    forall d | 0 <= d < |cpus| ensures CpuPlace(cpus[d], d, ps) {
      assert CpuPlace(cpus[d], d, procs);
    }
  }

  lemma SwitchKeeps(procs: seq<Proc>, cpus: seq<Cpu>, p: nat, c: nat, x: Proc, cpu: Cpu)
    requires SchedOk(procs, cpus) && p < |procs| && c < |cpus|
    requires (cpus[c].proc == Yes(p) && x.on == No && RestOk(x) && cpu.proc == No && cpu.sched && cpu.held == {0} &&
      cpu.irq == NoIrq)
          || (cpus[c].proc == No && procs[p].on == No && x.on == Yes(c) && cpu.proc == Yes(p) && RunOk(x, cpu))
    ensures SchedOk(procs[p := x], cpus[c := cpu])
  {
    var ps, cs := procs[p := x], cpus[c := cpu];
    forall q | 0 <= q < |procs| ensures PlaceOk(ps[q], q, cs) {
      assert PlaceOk(procs[q], q, cpus);
    }
    forall d | 0 <= d < |cpus| ensures CpuPlace(cs[d], d, ps) {
      assert CpuPlace(cpus[d], d, procs);
    }
  }

  /** While CPU c holds ptable.lock, no other CPU's process is in table code. */
  lemma OneInTable(procs: seq<Proc>, cpus: seq<Cpu>, locks: seq<Lock>, c: nat, q: nat)
    requires SchedOk(procs, cpus) && LocksOk(cpus, locks) && c < |cpus| && 0 in cpus[c].held && q < |procs|
    ensures procs[q].on.Yes? && procs[q].on.v != c ==> procs[q].st == RUNNING && !Table(procs[q].pc)
  {
    assert PlaceOk(procs[q], q, cpus);
    assert HeldOk(cpus[c], c, locks);
    if procs[q].on.Yes? {
      assert HeldOk(cpus[procs[q].on.v], procs[q].on.v, locks);
    }
  }

  // ---- Each step keeps the processes on their CPUs

  predicate SleepStep(step: Step) {
    match step
    case CallSleep(_, _, _) | SleepLock(_) | SleepUnlock(_) | SleepSet(_) | Resume(_)
      | SleepRelock(_) | YieldLock(_) | YieldSet(_) => true
    case _ => false
  }

  predicate WaitStep(step: Step) {
    match step
    case ExitLock(_) | WaitLock(_) | WaitReap(_, _) | WaitNone(_) | WaitSleep(_) => true
    case _ => false
  }

  predicate ForkStep(step: Step) {
    match step
    case ForkLock(_) | ForkAlloc(_, _) | ForkNone(_) | ForkFail(_) | ForkSetup(_) | StartLock(_) | StartDo(_) => true
    case _ => false
  }

  /** The steps after which the running process is still running. */
  predicate Local(step: Step) {
    SleepStep(step) || WaitStep(step) || ForkStep(step)
  }

  lemma SleepLockRun(me: Proc, cpu: Cpu)
    requires RunOk(me, cpu) && me.pc.SleepCalled?
    ensures RunOk(me.(pc := SleepLocked(me.pc.chan, me.pc.lk)), Masked(cpu, Take(0)))
  {
  }

  lemma SleepUnlockRun(me: Proc, cpu: Cpu)
    requires RunOk(me, cpu) && me.pc.SleepLocked?
    ensures RunOk(me.(pc := SleepReady(me.pc.chan, me.pc.lk)), Masked(cpu, Give(me.pc.lk)))
  {
    assert {0, me.pc.lk} - {me.pc.lk} == {0};
  }

  lemma RelockRun(me: Proc, cpu: Cpu)
    requires RunOk(me, cpu) && me.pc.Relock? && cpu.irq == NoIrq
    ensures RunOk(me.(pc := User), Masked(cpu, Take(me.pc.lk)))
  {
  }

  lemma YieldRun(me: Proc, cpu: Cpu, next: Resume)
    requires RunOk(me, cpu) && CpuOk(cpu) && (me.pc == User || me.pc.Relock?) && cpu.ncli == 0
    requires next == if me.pc == User then ToUser else ToRelock(me.pc.lk)
    ensures RunOk(me.(pc := Yielding(next)), Masked(cpu, Take(0)))
  {
    assert cpu.held == {};
  }

  lemma ResumeRun(me: Proc, cpu: Cpu)
    requires RunOk(me, cpu) && me.pc.Resumed? && (me.pc.next.ToRelock? || me.pc.next.AfterSleep?)
    ensures RunOk(me.(pc := Relock(me.pc.next.lk)), Masked(cpu, Give(0)))
  {
  }

  /** Leaving the table code: ptable.lock is released and nothing else was held. */
  lemma LeaveRun(me: Proc, cpu: Cpu)
    requires RunOk(me, cpu) && CpuOk(cpu) && Alone(me.pc) && !me.pc.Switching? && me.pc != Starting
    ensures RunOk(me.(pc := User), Masked(cpu, Give(0)))
  {
  }

  lemma SleepRun(s: State, step: Step)
    requires Enabled(s, step) && SleepStep(step) && Runs(s, step.c, Cur(s, step.c))
    requires RunOk(Me(s, step.c), s.cpus[step.c]) && CpuOk(s.cpus[step.c])
    ensures RunOk(NewMe(s, step), NewCpu(s, step))
  {
    var me, cpu := Me(s, step.c), s.cpus[step.c];
    match step {
      case SleepLock(_) => SleepLockRun(me, cpu);
      case SleepUnlock(_) => SleepUnlockRun(me, cpu);
      case SleepRelock(_) => RelockRun(me, cpu);
      case YieldLock(_) => YieldRun(me, cpu, if me.pc == User then ToUser else ToRelock(me.pc.lk));
      case Resume(_) =>
        if me.pc.next.ToRelock? || me.pc.next.AfterSleep? {
          ResumeRun(me, cpu);
        } else if me.pc.next == ToUser {
          LeaveRun(me, cpu);
        }
      case _ =>
    }
  }

  lemma EnterRun(me: Proc, cpu: Cpu, pc: Pc)
    requires RunOk(me, cpu) && CpuOk(cpu) && me.pc == User && me.fork == NoFork && cpu.ncli == 0 &&
      (pc == InExit || pc == InWait)
    ensures RunOk(me.(pc := pc), Masked(cpu, Take(0)))
  {
    assert cpu.held == {};
  }

  lemma WaitRun(s: State, step: Step)
    requires Enabled(s, step) && WaitStep(step) && Runs(s, step.c, Cur(s, step.c))
    requires RunOk(Me(s, step.c), s.cpus[step.c]) && CpuOk(s.cpus[step.c])
    ensures RunOk(NewMe(s, step), NewCpu(s, step))
  {
    var me, cpu := Me(s, step.c), s.cpus[step.c];
    match step {
      case ExitLock(_) => EnterRun(me, cpu, InExit);
      case WaitLock(_) => EnterRun(me, cpu, InWait);
      case WaitReap(_, _) => LeaveRun(me, cpu);
      case WaitNone(_) => LeaveRun(me, cpu);
      case WaitSleep(_) =>
    }
  }

  lemma ForkRun(s: State, step: Step)
    requires Enabled(s, step) && ForkStep(step) && Runs(s, step.c, Cur(s, step.c))
    requires RunOk(Me(s, step.c), s.cpus[step.c]) && CpuOk(s.cpus[step.c])
    ensures RunOk(NewMe(s, step), NewCpu(s, step))
  {
    var held := s.cpus[step.c].held;
    assert s.cpus[step.c].ncli == 0 ==> held == {};
  }

  lemma LocalSched(s: State, step: Step)
    requires SchedOk(s.procs, s.cpus) && LocksOk(s.cpus, s.locks) && Enabled(s, step) && Local(step)
    ensures Runs(s, step.c, Cur(s, step.c)) && RunOk(Me(s, step.c), s.cpus[step.c]) && Me(s, step.c).on == Yes(step.c)
    ensures RunOk(NewMe(s, step), NewCpu(s, step))
    ensures SchedOk(s.procs[Cur(s, step.c) := NewMe(s, step)], s.cpus[step.c := NewCpu(s, step)])
  {
    var c, p := step.c, Cur(s, step.c);
    assert Runs(s, c, p);
    assert CpuPlace(s.cpus[c], c, s.procs) && PlaceOk(s.procs[p], p, s.cpus) && CpuOk(s.cpus[c]);
    if SleepStep(step) {
      SleepRun(s, step);
    } else if WaitStep(step) {
      WaitRun(s, step);
    } else {
      ForkRun(s, step);
    }
    MeKeeps(s.procs, s.cpus, p, c, NewMe(s, step), NewCpu(s, step));
  }

  lemma MapKeeps(procs: seq<Proc>, procs': seq<Proc>, cpus: seq<Cpu>)
    requires SchedOk(procs, cpus) && |procs'| == |procs|
    requires forall q :: 0 <= q < |procs| ==> procs'[q].on == procs[q].on && PlaceOk(procs'[q], q, cpus)
    ensures SchedOk(procs', cpus)
  {
    forall c | 0 <= c < |cpus| ensures CpuPlace(cpus[c], c, procs') {
      assert CpuPlace(cpus[c], c, procs);
    }
  }

  lemma OrdinarySched(s: State, step: Step)
    requires SchedOk(s.procs, s.cpus) && LocksOk(s.cpus, s.locks) && Enabled(s, step)
    requires step.Acquire? || step.Release? || step.SetInterrupts? || step.IrqLock?
    ensures SchedOk(s.procs, s.cpus[step.c := NewCpu(s, step)])
  {
    var c := step.c;
    var cpu := s.cpus[c];
    assert CpuPlace(cpu, c, s.procs) && CpuOk(cpu) && HeldOk(cpu, c, s.locks);
    if cpu.proc.Yes? {
      var p := Cur(s, c);
      assert PlaceOk(s.procs[p], p, s.cpus);
      assert RunOk(s.procs[p], NewCpu(s, step));
      MeKeeps(s.procs, s.cpus, p, c, s.procs[p], NewCpu(s, step));
      assert s.procs[p := s.procs[p]] == s.procs;
    } else {
      IdleKeeps(s.procs, s.cpus, c, NewCpu(s, step));
    }
  }

  lemma SwitchSched(s: State, step: Step)
    requires SchedOk(s.procs, s.cpus) && LocksOk(s.cpus, s.locks) && Enabled(s, step) && step.Switch?
    ensures SchedOk(NewProcs(s, step), s.cpus[step.c := NewCpu(s, step)])
  {
    var c, p := step.c, Cur(s, step.c);
    assert CpuPlace(s.cpus[c], c, s.procs) && PlaceOk(s.procs[p], p, s.cpus);
    SwitchKeeps(s.procs, s.cpus, p, c, NewMe(s, step), NewCpu(s, step));
  }

  /** While a scheduler holds ptable.lock, runnable processes are on no CPU. */
  lemma SchedulerHolds(s: State, c: nat, p: nat)
    requires SchedOk(s.procs, s.cpus) && LocksOk(s.cpus, s.locks) && c < |s.cpus| && s.cpus[c].sched && p < |s.procs|
    ensures s.cpus[c].proc == No && 0 in s.cpus[c].held && (s.procs[p].st != RUNNING ==> s.procs[p].on == No)
  {
    assert CpuPlace(s.cpus[c], c, s.procs) && PlaceOk(s.procs[p], p, s.cpus);
    OneInTable(s.procs, s.cpus, s.locks, c, p);
  }

  lemma DispatchSched(s: State, step: Step)
    requires SchedOk(s.procs, s.cpus) && LocksOk(s.cpus, s.locks) && Enabled(s, step) && step.Dispatch?
    ensures SchedOk(NewProcs(s, step), s.cpus[step.c := NewCpu(s, step)])
  {
    var c, p := step.c, step.p;
    SchedulerHolds(s, c, p);
    assert CpuPlace(s.cpus[c], c, s.procs) && PlaceOk(s.procs[p], p, s.cpus);
    SwitchKeeps(s.procs, s.cpus, p, c, NewProcs(s, step)[p], NewCpu(s, step));
  }

  lemma SchedulerSched(s: State, step: Step)
    requires SchedOk(s.procs, s.cpus) && LocksOk(s.cpus, s.locks) && Enabled(s, step) &&
      (step.SchedLock? || step.SchedUnlock?)
    ensures SchedOk(s.procs, s.cpus[step.c := NewCpu(s, step)])
  {
    var c := step.c;
    assert CpuPlace(s.cpus[c], c, s.procs) && CpuOk(s.cpus[c]);
    if step.SchedUnlock? && 0 < |s.procs| {
      SchedulerHolds(s, c, 0);
    }
    IdleKeeps(s.procs, s.cpus, c, NewCpu(s, step));
  }

  lemma IrqDone(procs: seq<Proc>, cpus: seq<Cpu>, c: nat, cpu: Cpu)
    requires SchedOk(procs, cpus) && c < |cpus| && cpus[c].irq != NoIrq
    requires cpu.proc == cpus[c].proc && cpu.sched == cpus[c].sched && cpu.irq == NoIrq &&
      cpu.held == cpus[c].held - {0}
    ensures SchedOk(procs, cpus[c := cpu])
  {
    assert CpuPlace(cpus[c], c, procs);
    if cpus[c].proc.Yes? {
      var p := cpus[c].proc.v;
      assert PlaceOk(procs[p], p, cpus);
      MeKeeps(procs, cpus, p, c, procs[p], cpu);
      assert procs[p := procs[p]] == procs;
    } else {
      IdleKeeps(procs, cpus, c, cpu);
    }
  }

  /** An interrupt's wakeup or kill: everybody on a CPU is RUNNING. */
  lemma IrqSched(s: State, step: Step)
    requires SchedOk(s.procs, s.cpus) && LocksOk(s.cpus, s.locks) && Enabled(s, step) && step.IrqDo?
    ensures SchedOk(NewProcs(s, step), s.cpus[step.c := NewCpu(s, step)])
  {
    var c := step.c;
    var cpu, ps := s.cpus[c], NewProcs(s, step);
    assert CpuPlace(cpu, c, s.procs) && CpuOk(cpu) && HolderOk(s.locks[0], 0, s.cpus);
    forall q | 0 <= q < |s.procs| ensures ps[q].on == s.procs[q].on && PlaceOk(ps[q], q, s.cpus) {
      OneInTable(s.procs, s.cpus, s.locks, c, q);
      assert PlaceOk(s.procs[q], q, s.cpus);
    }
    MapKeeps(s.procs, ps, s.cpus);
    IrqDone(ps, s.cpus, c, NewCpu(s, step));
  }

  /** y is x, or x woken; its parent may have changed. */
  predicate SameOrWoken(x: Proc, y: Proc) {
    && y.on == x.on && y.fork == x.fork && y.pid == x.pid && y.kstack == x.kstack && y.pc == x.pc &&
      y.chan == x.chan && y.killed == x.killed
    && ((y.st == x.st && y.call == x.call) || (x.st == SLEEPING && y.st == RUNNABLE && y.call == NoCall))
  }

  lemma ExitedProcOk(x: Proc, p: nat, init: nat, parent: Opt, zombie: bool)
    ensures SameOrWoken(x, ExitedProc(x, p, init, parent, zombie))
    ensures ExitedProc(x, p, init, parent, zombie).parent == if x.parent == Yes(p) then Yes(init) else x.parent
  {
  }

  /** exit changes others only by waking and adopting them. */
  lemma ExitedAt(ps: seq<Proc>, p: nat, init: nat, q: nat) returns (y: Proc)
    requires p < |ps| && q < |ps|
    ensures SameOrWoken(ps[q], y) && y.parent == if ps[q].parent == Yes(p) then Yes(init) else ps[q].parent
    ensures Exited(ps, p, init)[q] == if q == p then y.(st := ZOMBIE, pc := Switching(Never)) else y
    ensures y == ExitedProc(ps[q], p, init, ps[p].parent, LeavesZombie(ps, p))
  {
    y := ExitedProc(ps[q], p, init, ps[p].parent, LeavesZombie(ps, p));
    ExitedProcOk(ps[q], p, init, ps[p].parent, LeavesZombie(ps, p));
  }

  lemma WokenPlace(x: Proc, y: Proc, q: nat, cpus: seq<Cpu>)
    requires PlaceOk(x, q, cpus) && SameOrWoken(x, y) && (x.on.Yes? ==> x.st == RUNNING)
    ensures PlaceOk(y, q, cpus)
  {
  }

  lemma ExitSched(s: State, step: Step)
    requires SchedOk(s.procs, s.cpus) && LocksOk(s.cpus, s.locks) && Enabled(s, step) && step.ExitDo?
    ensures SchedOk(NewProcs(s, step), s.cpus[step.c := NewCpu(s, step)])
  {
    var c, p := step.c, Cur(s, step.c);
    var ps := Exited(s.procs, p, s.init);
    assert CpuPlace(s.cpus[c], c, s.procs) && PlaceOk(s.procs[p], p, s.cpus);
    assert RunOk(s.procs[p], s.cpus[c]) && s.procs[p].pc == InExit;
    forall q | 0 <= q < |s.procs| ensures ps[q].on == s.procs[q].on && PlaceOk(ps[q], q, s.cpus) {
      OneInTable(s.procs, s.cpus, s.locks, c, q);
      var y := ExitedAt(s.procs, p, s.init, q);
      assert PlaceOk(s.procs[q], q, s.cpus);
      if q != p {
        WokenPlace(s.procs[q], y, q, s.cpus);
      }
    }
    MapKeeps(s.procs, ps, s.cpus);
    assert s.cpus[c := NewCpu(s, step)] == s.cpus;
  }
}
