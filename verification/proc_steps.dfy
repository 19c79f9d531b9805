/** Processes, CPUs and spinlocks (kernel/proc.c, kernel/spinlock.c) as a step system
    over any number of each.  A step is what happens between two lock operations;
    lock 0 is ptable.lock. */
module ProcSteps {

  datatype Opt = No | Yes(v: nat)

  datatype PState = UNUSED | EMBRYO | SLEEPING | RUNNABLE | RUNNING | ZOMBIE

  datatype Chan = NoChan | ProcChan(p: nat) | Chan(id: nat)

  /** Where a descheduled process goes on: back to its code, to the end of sleep, into
      wait's loop, or, for a zombie, nowhere. */
  datatype Resume = ToUser | ToRelock(lk: nat) | AfterSleep(lk: nat) | ToWait | Never

  /** Where a process is in the code of proc.c. */
  datatype Pc =
    | User                              // outside it
    | SleepCalled(chan: Chan, lk: nat)  // in sleep, holding lk, wants ptable.lock
    | SleepLocked(chan: Chan, lk: nat)  // holds both
    | SleepReady(chan: Chan, lk: nat)   // holds ptable.lock alone, not yet SLEEPING
    | Relock(lk: nat)                   // at the end of sleep, wants lk again
    | Yielding(next: Resume) | InWait | InExit | Allocating | Starting   // hold ptable.lock
    | Switching(next: Resume)           // in sched, state set, before swtch
    | Resumed(next: Resume)             // swtch has saved it or returned to it

  /** A child being made by fork. */
  datatype Fork = NoFork | Allocated(k: nat) | Ready(k: nat)

  /** A call of sleep that has not been woken: its lock and that lock's acquisition number. */
  datatype Call = NoCall | Call(chan: Chan, lk: nat, at: nat)

  datatype Proc = Proc(st: PState, pid: nat, parent: Opt, chan: Chan, killed: bool, kstack: bool,
                       intena: bool, pc: Pc, fork: Fork, on: Opt, call: Call)

  /** What interrupts, or any code, may do with ptable.lock briefly held. */
  datatype Irq = NoIrq | Waking(chan: Chan) | Killing(pid: nat)

  datatype Cpu = Cpu(proc: Opt, sched: bool, irq: Irq, ncli: int, intena: bool, iflag: bool, held: set<nat>)

  datatype Lock = Lock(holder: Opt, acq: nat)

  datatype State = State(procs: seq<Proc>, cpus: seq<Cpu>, locks: seq<Lock>, init: nat, nextpid: nat, reaped: seq<nat>)

  // ---- Locks: acquire with pushcli, release with popcli

  /** What a step does with a lock. */
  datatype LockOp = Keep | Take(l: nat) | Give(l: nat)

  /** acquire waits for a free lock; release panics unless this CPU holds the lock. */
  predicate OpOk(locks: seq<Lock>, c: nat, op: LockOp) {
    match op
    case Keep => true
    case Take(l) => l < |locks| && locks[l].holder == No
    case Give(l) => l < |locks| && locks[l].holder == Yes(c)
  }

  function NewLocks(locks: seq<Lock>, c: nat, op: LockOp): (r: seq<Lock>)
    requires OpOk(locks, c, op)
  {
    match op
    case Keep => locks
    case Take(l) => locks[l := Lock(Yes(c), locks[l].acq + 1)]
    case Give(l) => locks[l := locks[l].(holder := No)]
  }

  /** pushcli on acquire, popcli on release. */
  function Masked(cpu: Cpu, op: LockOp): (r: Cpu) {
    match op
    case Keep => cpu
    case Take(l) =>
      cpu.(held := cpu.held + {l}, ncli := cpu.ncli + 1, intena := if cpu.ncli == 0 then cpu.iflag
        else cpu.intena, iflag := false)
    case Give(l) =>
      cpu.(held := cpu.held - {l}, ncli := cpu.ncli - 1, iflag := if cpu.ncli == 1 &&
        cpu.intena then true else cpu.iflag)
  }

  // ---- The table scans

  /** wakeup1 */
  function Woken(p: Proc, chan: Chan): (r: Proc) {
    if p.st == SLEEPING && p.chan == chan then p.(st := RUNNABLE, call := NoCall) else p
  }

  function WakeAll(ps: seq<Proc>, chan: Chan): (r: seq<Proc>)
    ensures |r| == |ps| && forall i :: 0 <= i < |ps| ==> r[i] == Woken(ps[i], chan)
  {
    seq(|ps|, i requires 0 <= i < |ps| => Woken(ps[i], chan))
  }

  /** Whether exit of p leaves a zombie child behind. */
  predicate LeavesZombie(ps: seq<Proc>, p: nat) {
    exists i :: 0 <= i < |ps| && ps[i].parent == Yes(p) && ps[i].st == ZOMBIE
  }

  function Adopted(q: Proc, p: nat, init: nat): (r: Proc) {
    if q.parent == Yes(p) then q.(parent := Yes(init)) else q
  }

  /** The loop of exit that passes children to init. */
  function PassChildren(ps: seq<Proc>, p: nat, init: nat): (r: seq<Proc>)
    ensures |r| == |ps|
    ensures forall i :: 0 <= i < |ps| ==>
      r[i] == Adopted(if LeavesZombie(ps, p) then Woken(ps[i], ProcChan(init)) else ps[i], p, init)
  {
    var ws := if LeavesZombie(ps, p) then WakeAll(ps, ProcChan(init)) else ps;
    seq(|ps|, i requires 0 <= i < |ps| => Adopted(ws[i], p, init))
  }

  predicate HasChild(ps: seq<Proc>, p: nat) {
    exists i :: 0 <= i < |ps| && ps[i].parent == Yes(p)
  }

  /** The first process with this pid, or |ps|. */
  function FindPid(ps: seq<Proc>, pid: nat, i: nat): (k: nat)
    requires i <= |ps|
    ensures i <= k <= |ps| && (k < |ps| ==> ps[k].pid == pid) && forall j :: i <= j < k ==> ps[j].pid != pid
    decreases |ps| - i
  {
    if i == |ps| || ps[i].pid == pid then i else FindPid(ps, pid, i + 1)
  }

  function Killed(p: Proc): (r: Proc) {
    if p.st == SLEEPING then p.(killed := true, st := RUNNABLE, call := NoCall) else p.(killed := true)
  }

  // ---- What kill, wakeup and exit do to one process, field by field

  /** Fields that none of them changes. */
  predicate SameRest(p: Proc, q: Proc) {
    && q.pid == p.pid && q.chan == p.chan && q.kstack == p.kstack && q.intena == p.intena && q.fork == p.fork
    && q.on == p.on
  }

  /** From p to q by a kill: the mark is set, a sleeper becomes runnable, and that is all. */
  predicate KilledTo(p: Proc, q: Proc) {
    && SameRest(p, q) && q.parent == p.parent && q.pc == p.pc && q.killed
    && q.st == (if p.st == SLEEPING then RUNNABLE else p.st)
    && (p.st != SLEEPING ==> q.call == p.call)
  }

  /** From p to q by a wakeup, of p if `woken`: a sleeper becomes runnable, and that is all. */
  predicate WokenTo(p: Proc, q: Proc, woken: bool) {
    && SameRest(p, q) && q.parent == p.parent && q.pc == p.pc && q.killed == p.killed
    && (if woken then p.st == SLEEPING && q.st == RUNNABLE else q.st == p.st && q.call == p.call)
  }

  // ---- Steps; c is the CPU that takes it

  datatype Step =
    | Acquire(c: nat, l: nat) | Release(c: nat, l: nat) | SetInterrupts(c: nat, on: bool)
    | CallSleep(c: nat, chan: Chan, lk: nat) | SleepLock(c: nat) | SleepUnlock(c: nat) | SleepSet(c: nat)
    | Switch(c: nat) | SchedLock(c: nat) | Dispatch(c: nat, p: nat) | SchedUnlock(c: nat)
    | Resume(c: nat) | SleepRelock(c: nat)
    | IrqLock(c: nat, irq: Irq) | IrqDo(c: nat)
    | YieldLock(c: nat) | YieldSet(c: nat)
    | ExitLock(c: nat) | ExitDo(c: nat)
    | WaitLock(c: nat) | WaitReap(c: nat, k: nat) | WaitNone(c: nat) | WaitSleep(c: nat)
    | ForkLock(c: nat) | ForkAlloc(c: nat, k: nat) | ForkNone(c: nat) | ForkFail(c: nat) | ForkSetup(c: nat)
    | StartLock(c: nat) | StartDo(c: nat)

  /** CPU c runs process p, and is not in the middle of an interrupt's use of the table. */
  predicate Runs(s: State, c: nat, p: nat) {
    c < |s.cpus| && s.cpus[c].proc == Yes(p) && p < |s.procs| && s.cpus[c].irq == NoIrq
  }

  function Cur(s: State, c: nat): (p: nat) {
    if c < |s.cpus| && s.cpus[c].proc.Yes? then s.cpus[c].proc.v else 0
  }

  /** The process running on c. */
  function Me(s: State, c: nat): (p: Proc) {
    if Runs(s, c, Cur(s, c)) then s.procs[Cur(s, c)]
    else Proc(UNUSED, 0, No, NoChan, false, false, false, Resumed(Never), NoFork, No, NoCall)
  }

  function At(s: State, c: nat): (pc: Pc) {
    Me(s, c).pc
  }

  predicate IdleCpu(s: State, c: nat) {
    c < |s.cpus| && s.cpus[c].proc == No && !s.cpus[c].sched && s.cpus[c].irq == NoIrq
  }

  /** Ordinary code: of a process, or of an interrupt handler on an idle CPU. */
  predicate Ordinary(s: State, c: nat) {
    IdleCpu(s, c) || (Runs(s, c, Cur(s, c)) && (At(s, c) == User || At(s, c).Relock?))
  }

  /** A system call of a process that holds no lock and is not in the middle of fork. */
  predicate Calls(s: State, c: nat) {
    Runs(s, c, Cur(s, c)) && At(s, c) == User && s.cpus[c].ncli == 0 && s.procs[Cur(s, c)].fork == NoFork
  }

  function OpOf(s: State, step: Step): (op: LockOp) {
    match step
    case Acquire(_, l) => Take(l)
    case Release(_, l) => Give(l)
    case SleepUnlock(c) => if At(s, c).SleepLocked? then Give(At(s, c).lk) else Keep
    case SleepRelock(c) => if At(s, c).Relock? then Take(At(s, c).lk) else Keep
    case SleepLock(_) | SchedLock(_) | IrqLock(_, _) | YieldLock(_) => Take(0)
    case ExitLock(_) | WaitLock(_) | ForkLock(_) | StartLock(_) => Take(0)
    case SchedUnlock(_) | IrqDo(_) | WaitReap(_, _) | WaitNone(_) => Give(0)
    case ForkAlloc(_, _) | ForkNone(_) | StartDo(_) => Give(0)
    case Resume(c) => if At(s, c) == Resumed(ToWait) then Keep else Give(0)
    case _ => Keep
  }

  /** The step's place in the code, and the tests that lead to it. */
  predicate Reached(s: State, step: Step) {
    match step
    case Acquire(c, l) => l != 0 && Ordinary(s, c) && !At(s, c).Relock?
    case Release(c, l) => l != 0 && Ordinary(s, c) && !At(s, c).Relock?
    case SetInterrupts(c, on) => Ordinary(s, c) && s.cpus[c].ncli == 0
    case CallSleep(c, chan, lk) =>
      lk != 0 && lk < |s.locks| && At(s, c) == User && Me(s, c).fork == NoFork && s.cpus[c].held == {lk}
    case SleepLock(c) => At(s, c).SleepCalled?
    case SleepUnlock(c) => At(s, c).SleepLocked?
    case SleepSet(c) => At(s, c).SleepReady?
    case Switch(c) => At(s, c).Switching?
    case SchedLock(c) => IdleCpu(s, c) && s.cpus[c].ncli == 0
    case Dispatch(c, p) => c < |s.cpus| && s.cpus[c].sched && p < |s.procs| && s.procs[p].st == RUNNABLE
    case SchedUnlock(c) => c < |s.cpus| && s.cpus[c].sched
    case Resume(c) => At(s, c).Resumed? && At(s, c).next != Never
    case SleepRelock(c) => At(s, c).Relock?
    case IrqLock(c, irq) => irq != NoIrq && Ordinary(s, c)
    case IrqDo(c) => c < |s.cpus| && s.cpus[c].irq != NoIrq
    case YieldLock(c) => (At(s, c) == User || At(s, c).Relock?) && s.cpus[c].ncli == 0
    case YieldSet(c) => At(s, c).Yielding?
    case ExitLock(c) => Calls(s, c) && Cur(s, c) != s.init
    case ExitDo(c) => At(s, c) == InExit && Cur(s, c) != s.init
    case WaitLock(c) => Calls(s, c)
    case WaitReap(c, k) => At(s, c) == InWait && k < |s.procs| && s.procs[k].parent == Yes(Cur(s, c)) &&
      s.procs[k].st == ZOMBIE
    case WaitNone(c) =>
      At(s, c) == InWait && !LeavesZombie(s.procs, Cur(s, c)) && (!HasChild(s.procs, Cur(s, c)) || Me(s, c).killed)
    case WaitSleep(c) =>
      At(s, c) == InWait && !LeavesZombie(s.procs, Cur(s, c)) && HasChild(s.procs, Cur(s, c)) && !Me(s, c).killed &&
        0 < |s.locks|
    case ForkLock(c) => Calls(s, c)
    case ForkAlloc(c, k) => At(s, c) == Allocating && k < |s.procs| && s.procs[k].st == UNUSED
    case ForkNone(c) => At(s, c) == Allocating && forall k :: 0 <= k < |s.procs| ==> s.procs[k].st != UNUSED
    case ForkFail(c) => At(s, c) == User && Me(s, c).fork.Allocated? && Me(s, c).fork.k < |s.procs|
    case ForkSetup(c) => At(s, c) == User && Me(s, c).fork.Allocated? && Me(s, c).fork.k < |s.procs|
    case StartLock(c) => At(s, c) == User && s.cpus[c].ncli == 0 && Me(s, c).fork.Ready?
    case StartDo(c) => At(s, c) == Starting && Me(s, c).fork.Ready? && Me(s, c).fork.k < |s.procs|
  }

  predicate Enabled(s: State, step: Step) {
    Reached(s, step) && step.c < |s.cpus| && OpOk(s.locks, step.c, OpOf(s, step))
  }

  /** The running process after a step that changes it alone. */
  function NewMe(s: State, step: Step): (r: Proc)
    requires Reached(s, step)
  {
    var me := Me(s, step.c);
    match step
    case CallSleep(c, chan, lk) => me.(pc := SleepCalled(chan, lk), call := Call(chan, lk, s.locks[lk].acq))
    case SleepLock(_) => me.(pc := SleepLocked(me.pc.chan, me.pc.lk))
    case SleepUnlock(_) => me.(pc := SleepReady(me.pc.chan, me.pc.lk))
    case SleepSet(_) => me.(chan := me.pc.chan, st := SLEEPING,
      pc := Switching(if me.pc.lk == 0 then ToWait else AfterSleep(me.pc.lk)))
    case Switch(c) => me.(pc := Resumed(me.pc.next), on := No, intena := s.cpus[c].intena)
    case Resume(_) =>
      (match me.pc.next
       case ToRelock(lk) => me.(pc := Relock(lk))
       case AfterSleep(lk) => me.(pc := Relock(lk), chan := NoChan)
       case ToWait => me.(pc := InWait, chan := NoChan)
       case _ => me.(pc := User))
    case YieldLock(_) => me.(pc := Yielding(if me.pc == User then ToUser else ToRelock(me.pc.lk)))
    case YieldSet(_) => me.(st := RUNNABLE, pc := Switching(me.pc.next))
    case ExitLock(_) => me.(pc := InExit)
    case WaitLock(_) => me.(pc := InWait)
    case WaitSleep(c) => me.(pc := SleepReady(ProcChan(Cur(s, c)), 0),
      call := Call(ProcChan(Cur(s, c)), 0, s.locks[0].acq))
    case ForkLock(_) => me.(pc := Allocating)
    case StartLock(_) => me.(pc := Starting)
    case SleepRelock(_) | WaitReap(_, _) | WaitNone(_) | ForkNone(_) => me.(pc := User)
    case ForkAlloc(_, k) => me.(pc := User, fork := Allocated(k))
    case ForkFail(_) => me.(fork := NoFork)
    case ForkSetup(_) => me.(fork := Ready(me.fork.k))
    case StartDo(_) => me.(pc := User, fork := NoFork)
    case _ => me
  }

  function Put(ps: seq<Proc>, i: nat, p: Proc): (r: seq<Proc>)
    ensures |r| == |ps|
  {
    if i < |ps| then ps[i := p] else ps
  }

  function KillPid(ps: seq<Proc>, pid: nat): (r: seq<Proc>)
    ensures |r| == |ps|
  {
    var k := FindPid(ps, pid, 0);
    if k < |ps| then ps[k := Killed(ps[k])] else ps
  }

  /** What exit of p does to another process: wake it if it is p's parent or, when a zombie
      is passed on, init; and pass it to init if it is p's child. */
  function ExitedProc(x: Proc, p: nat, init: nat, parent: Opt, zombie: bool): (r: Proc) {
    var y := if parent.Yes? then Woken(x, ProcChan(parent.v)) else x;
    Adopted(if zombie then Woken(y, ProcChan(init)) else y, p, init)
  }

  /** Waking makes no zombie and no child. */
  lemma WakeZombies(ps: seq<Proc>, ws: seq<Proc>, p: nat)
    requires |ws| == |ps| && forall i :: 0 <= i < |ps| ==>
      ws[i].parent == ps[i].parent && (ws[i].st == ZOMBIE <==> ps[i].st == ZOMBIE)
    ensures LeavesZombie(ws, p) <==> LeavesZombie(ps, p)
  {
    if LeavesZombie(ps, p) {
      var i :| 0 <= i < |ps| && ps[i].parent == Yes(p) && ps[i].st == ZOMBIE;
      assert ws[i].parent == Yes(p) && ws[i].st == ZOMBIE;
    }
  }

  /** The loops of exit: wakeup1(proc->parent), then the children. */
  function ExitLoops(ps: seq<Proc>, p: nat, init: nat, parent: Opt): (r: seq<Proc>)
    ensures |r| == |ps|
    ensures forall i :: 0 <= i < |ps| ==> r[i] == ExitedProc(ps[i], p, init, parent, LeavesZombie(ps, p))
  {
    var ws := if parent.Yes? then WakeAll(ps, ProcChan(parent.v)) else ps;
    WakeZombies(ps, ws, p);
    PassChildren(ws, p, init)
  }

  /** exit: wake the parent, pass the children to init, become a zombie. */
  function Exited(ps: seq<Proc>, p: nat, init: nat): (r: seq<Proc>)
    ensures |r| == |ps|
  {
    if p < |ps| then
      var qs := ExitLoops(ps, p, init, ps[p].parent);
      qs[p := qs[p].(st := ZOMBIE, pc := Switching(Never))]
    else ps
  }

  function NewProcs(s: State, step: Step): (r: seq<Proc>)
    requires Reached(s, step)
    ensures |r| == |s.procs|
  {
    var ps := s.procs;
    match step
    case Acquire(_, _) | Release(_, _) | SetInterrupts(_, _) | SchedLock(_) | SchedUnlock(_) | IrqLock(_, _) => ps
    case Dispatch(c, p) => Put(ps, p, ps[p].(st := RUNNING, on := Yes(c)))
    case IrqDo(c) =>
      (match s.cpus[c].irq
       case Waking(chan) => WakeAll(ps, chan)
       case Killing(pid) => KillPid(ps, pid)
       case NoIrq => ps)
    case ExitDo(c) => Exited(ps, Cur(s, c), s.init)
    case WaitReap(c, k) =>
      Put(Put(ps, Cur(s, c), NewMe(s, step)), k,
        ps[k].(st := UNUSED, pid := 0, parent := No, killed := false, kstack := false))
    case ForkAlloc(c, k) => Put(Put(ps, Cur(s, c), NewMe(s, step)), k, ps[k].(st := EMBRYO, pid := s.nextpid))
    case ForkFail(c) => Put(Put(ps, Cur(s, c), NewMe(s, step)), Me(s, c).fork.k,
      ps[Me(s, c).fork.k].(st := UNUSED, kstack := false))
    case ForkSetup(c) => Put(Put(ps, Cur(s, c), NewMe(s, step)), Me(s, c).fork.k,
      ps[Me(s, c).fork.k].(kstack := true, parent := Yes(Cur(s, c))))
    case StartDo(c) => Put(Put(ps, Cur(s, c), NewMe(s, step)), Me(s, c).fork.k,
      ps[Me(s, c).fork.k].(st := RUNNABLE, pc := Resumed(ToUser)))
    case _ => Put(ps, Cur(s, step.c), NewMe(s, step))
  }

  /** The CPU after the step, but for the lock it takes or gives. */
  function Rescheduled(s: State, step: Step): (r: Cpu)
    requires Reached(s, step) && step.c < |s.cpus|
  {
    var cpu := s.cpus[step.c];
    match step
    case SetInterrupts(_, on) => cpu.(iflag := on)
    case Switch(_) => cpu.(proc := No, sched := true)
    case SchedLock(_) => cpu.(sched := true)
    case Dispatch(_, p) => cpu.(proc := Yes(p), sched := false, intena := s.procs[p].intena)
    case SchedUnlock(_) => cpu.(sched := false)
    case IrqLock(_, irq) => cpu.(irq := irq)
    case IrqDo(_) => cpu.(irq := NoIrq)
    case _ => cpu
  }

  function NewCpu(s: State, step: Step): (r: Cpu)
    requires Reached(s, step) && step.c < |s.cpus|
  {
    Masked(Rescheduled(s, step), OpOf(s, step))
  }

  function Do(s: State, step: Step): (r: State)
    requires Enabled(s, step)
  {
    State(NewProcs(s, step), s.cpus[step.c := NewCpu(s, step)], NewLocks(s.locks, step.c, OpOf(s, step)), s.init,
          if step.ForkAlloc? then s.nextpid + 1 else s.nextpid,
          if step.WaitReap? then s.reaped + [s.procs[step.k].pid] else s.reaped)
  }
}
