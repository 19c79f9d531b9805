/** What kill, wakeup, exit and wait do to the process table (kernel/proc.c), field by field, in every
    run: each slot they are for changes as they say, and no other slot changes. */
module ProcEffects {
  import opened ProcSteps
  import opened ProcInv
  import opened ProcFamily
  import opened ProcTheorems
  import opened ProcKill

  /** A kill that finds slot k marks it and lets it sleep no longer; no other slot changes. */
  lemma KillWakes(run: seq<State>, steps: seq<Step>, i: nat, k: nat)
    requires IsRun(run, steps) && i < |steps| && k < |run[i].procs| && Marks(run[i], steps[i], k)
    ensures |run[i + 1].procs| == |run[i].procs|
    ensures KilledTo(run[i].procs[k], run[i + 1].procs[k]) && run[i + 1].procs[k].st != SLEEPING
    ensures forall j :: 0 <= j < |run[i].procs| && j != k ==> run[i + 1].procs[j] == run[i].procs[j]
  {
    assert run[i + 1] == Do(run[i], steps[i]);
  }

  predicate SleepsOn(p: Proc, chan: Chan) {
    p.st == SLEEPING && p.chan == chan
  }

  /** A wakeup makes exactly the sleepers on its channel runnable, and no other field changes. */
  lemma WakeExactly(run: seq<State>, steps: seq<Step>, i: nat, chan: Chan)
    requires IsRun(run, steps) && i < |steps| && steps[i].IrqDo? && steps[i].c < |run[i].cpus|
    requires run[i].cpus[steps[i].c].irq == Waking(chan)
    ensures |run[i + 1].procs| == |run[i].procs|
    ensures forall j :: 0 <= j < |run[i].procs| ==>
      WokenTo(run[i].procs[j], run[i + 1].procs[j], SleepsOn(run[i].procs[j], chan))
  {
    assert run[i + 1] == Do(run[i], steps[i]);
  }

  /** The sleepers an exit wakes: on the parent, or on init when a zombie child is left. */
  predicate Wakes(x: Proc, parent: nat, init: nat, zombie: bool) {
    SleepsOn(x, ProcChan(parent)) || (zombie && SleepsOn(x, ProcChan(init)))
  }

  /** What exit of p does to the process in another slot. */
  ghost predicate ByExit(x: Proc, y: Proc, p: nat, init: nat, parent: nat, zombie: bool) {
    && WokenTo(x, y.(parent := x.parent), Wakes(x, parent, init, zombie))
    && y.parent == if x.parent == Yes(p) then Yes(init) else x.parent
  }

  lemma ExitOther(x: Proc, p: nat, init: nat, parent: nat, zombie: bool)
    ensures ByExit(x, ExitedProc(x, p, init, Yes(parent), zombie), p, init, parent, zombie)
  {
  }

  /** What it does to p itself. */
  ghost predicate Ends(x: Proc, y: Proc) {
    SameRest(x, y) && y.parent == x.parent && y.killed == x.killed && y.st == ZOMBIE && y.pc == Switching(Never)
  }

  lemma ExitAll(s: State, c: nat, p: nat)
    requires Inv(s) && Enabled(s, ExitDo(c)) && p == Cur(s, c)
    ensures var r := Do(s, ExitDo(c)).procs;
      && |r| == |s.procs| && p < |s.procs| && s.procs[p].parent.Yes? && Ends(s.procs[p], r[p])
      && forall j :: 0 <= j < |s.procs| && j != p ==>
           ByExit(s.procs[j], r[j], p, s.init, s.procs[p].parent.v, LeavesZombie(s.procs, p))
  {
    Running(s, ExitDo(c));
    assert KinOk(s.procs, s.init, s.procs[p], p);
    var ps := s.procs;
    forall j | 0 <= j < |ps| && j != p
      ensures ByExit(ps[j], Exited(ps, p, s.init)[j], p, s.init, ps[p].parent.v, LeavesZombie(ps, p)) {
      var y := ExitedAt(ps, p, s.init, j);
      ExitOther(ps[j], p, s.init, ps[p].parent.v, LeavesZombie(ps, p));
    }
    var y := ExitedAt(ps, p, s.init, p);
  }

  /** Exit of p leaves p a zombie that never runs again, wakes exactly the sleepers on its parent and,
      if it leaves a zombie child, on init, gives exactly its children to init, and changes nothing else. */
  lemma ExitExactly(run: seq<State>, steps: seq<Step>, i: nat, p: nat)
    requires IsRun(run, steps) && i < |steps| && steps[i].ExitDo? && p == Cur(run[i], steps[i].c)
    ensures |run[i + 1].procs| == |run[i].procs| && p < |run[i].procs| && run[i].procs[p].parent.Yes?
    ensures Ends(run[i].procs[p], run[i + 1].procs[p])
    ensures forall j :: 0 <= j < |run[i].procs| && j != p ==>
      ByExit(run[i].procs[j], run[i + 1].procs[j], p, run[i].init, run[i].procs[p].parent.v,
        LeavesZombie(run[i].procs, p))
  {
    RunInv(run, steps, i);
    var s := run[i];
    ExitAll(s, steps[i].c, p);
    assert run[i + 1] == Do(s, steps[i]);
  }

  // ---- Channels and interrupt flags of processes that are switched

  /** On its way into the scheduler from sleep, in it, or on its way out. */
  predicate Sleeps(pc: Pc) {
    (pc.Switching? || pc.Resumed?) && (pc.next.AfterSleep? || pc.next.ToWait?)
  }

  /** A process has a channel only in sleep, and a slot without a live process has none. */
  predicate TidyOk(x: Proc) {
    x.chan != NoChan ==> Sleeps(x.pc) && x.st != UNUSED && x.st != EMBRYO && x.st != ZOMBIE
  }

  /** p goes into the scheduler, on CPU c. */
  predicate Leaves(s: State, step: Step, p: nat) {
    step.Switch? && step.c < |s.cpus| && Cur(s, step.c) == p
  }

  /** From x to y a process stays tidy, and the flag it saved is replaced by `flag` when it leaves. */
  predicate Tidies(x: Proc, y: Proc, leaves: bool, flag: bool) {
    (TidyOk(x) ==> TidyOk(y)) && y.intena == if leaves then flag else x.intena
  }

  lemma MeTidies(s: State, step: Step)
    requires Enabled(s, step) && (Local(step) || step.Switch?) && Runs(s, step.c, Cur(s, step.c))
    requires RunOk(Me(s, step.c), s.cpus[step.c])
    ensures Tidies(Me(s, step.c), NewMe(s, step), step.Switch?, s.cpus[step.c].intena)
  {
  }

  lemma ChildTidies(s: State, step: Step, y: Proc)
    requires TwoProcs(step) && (step.WaitReap? ==> y.st == ZOMBIE) && (step.ForkAlloc? ==> y.st == UNUSED)
    requires step.ForkFail? || step.ForkSetup? || step.StartDo? ==> y.st == EMBRYO
    ensures Tidies(y, NewChild(s, step, y), false, false)
  {
  }

  lemma PlainTidies(s: State, step: Step, q: nat)
    requires Inv(s) && Enabled(s, step) && q < |s.procs| && (Plain(step) || step.Switch?)
    ensures Tidies(s.procs[q], Do(s, step).procs[q], Leaves(s, step, q), s.cpus[step.c].intena)
  {
    Running(s, step);
    PlainShape(s, step);
    assert PlaceOk(s.procs[Cur(s, step.c)], Cur(s, step.c), s.cpus);
    MeTidies(s, step);
  }

  /** The state of the child that the step changes. */
  lemma TwoReady(s: State, step: Step)
    requires Inv(s) && Enabled(s, step) && TwoProcs(step)
    ensures Runs(s, step.c, Cur(s, step.c)) && RunOk(Me(s, step.c), s.cpus[step.c])
    ensures ChildOf(s, step) < |s.procs| && ChildOf(s, step) != Cur(s, step.c)
    ensures step.ForkFail? || step.ForkSetup? || step.StartDo? ==> s.procs[ChildOf(s, step)].st == EMBRYO
  {
    Running(s, step);
    ChildOff(s, step);
    assert PlaceOk(s.procs[Cur(s, step.c)], Cur(s, step.c), s.cpus);
    assert ForkLink(s.procs, s.procs[Cur(s, step.c)], Cur(s, step.c));
  }

  lemma TwoTidies(s: State, step: Step, q: nat)
    requires Inv(s) && Enabled(s, step) && q < |s.procs| && TwoProcs(step)
    ensures Tidies(s.procs[q], Do(s, step).procs[q], false, false)
  {
    TwoReady(s, step);
    TwoShape(s, step);
    MeTidies(s, step);
    ChildTidies(s, step, s.procs[ChildOf(s, step)]);
  }

  lemma IrqTidies(s: State, step: Step, q: nat)
    requires Enabled(s, step) && q < |s.procs| && step.IrqDo?
    ensures Tidies(s.procs[q], Do(s, step).procs[q], false, false)
  {
  }

  lemma ExitTidies(s: State, step: Step, q: nat)
    requires Inv(s) && Enabled(s, step) && q < |s.procs| && step.ExitDo?
    ensures Tidies(s.procs[q], Do(s, step).procs[q], false, false)
  {
    Running(s, step);
    var y := ExitedAt(s.procs, Cur(s, step.c), s.init, q);
  }

  lemma StepTidies(s: State, step: Step, q: nat)
    requires Inv(s) && Enabled(s, step) && q < |s.procs|
    ensures |Do(s, step).procs| == |s.procs|
    ensures Tidies(s.procs[q], Do(s, step).procs[q], Leaves(s, step, q), s.cpus[step.c].intena)
  {
    if Plain(step) || step.Switch? {
      PlainTidies(s, step, q);
    } else if TwoProcs(step) {
      TwoTidies(s, step, q);
    } else if step.IrqDo? {
      IrqTidies(s, step, q);
    } else if step.ExitDo? {
      ExitTidies(s, step, q);
    }
  }

  lemma RunTidies(run: seq<State>, steps: seq<Step>, i: nat, q: nat)
    requires IsRun(run, steps) && i < |steps| && q < |run[i].procs|
    ensures |run[i + 1].procs| == |run[i].procs| && steps[i].c < |run[i].cpus|
    ensures Tidies(run[i].procs[q], run[i + 1].procs[q], Leaves(run[i], steps[i], q), run[i].cpus[steps[i].c].intena)
  {
    RunInv(run, steps, i);
    assert run[i + 1] == Do(run[i], steps[i]);
    StepTidies(run[i], steps[i], q);
  }

  /** In every run a process has a channel only while it is in sleep: no later wakeup can mistake it. */
  lemma {:induction false} ChannelsTidy(run: seq<State>, steps: seq<Step>, i: nat, q: nat)
    requires IsRun(run, steps) && i < |run| && q < |run[i].procs|
    ensures TidyOk(run[i].procs[q])
  {
    if i > 0 {
      SameSize(run, steps, i);
      SameSize(run, steps, i - 1);
      ChannelsTidy(run, steps, i - 1, q);
      RunTidies(run, steps, i - 1, q);
    }
  }

  /** sched keeps the interrupt flag of the process: from when it goes into the scheduler until it is dispatched
      again, on whatever CPU, its saved flag stays, and that CPU takes it over. */
  lemma FlagKept(run: seq<State>, steps: seq<Step>, i: nat, j: nat, p: nat)
    requires IsRun(run, steps) && i < j < |steps| && p < |run[i].procs| && Leaves(run[i], steps[i], p)
    requires forall k :: i < k < j ==> !Leaves(run[k], steps[k], p)
    requires steps[j].Dispatch? && steps[j].p == p
    ensures steps[j].c < |run[j + 1].cpus| && run[j + 1].cpus[steps[j].c].proc == Yes(p)
    ensures run[j + 1].cpus[steps[j].c].intena == run[i].cpus[steps[i].c].intena
  {
    RunTidies(run, steps, i, p);
    for k := i + 1 to j
      invariant |run[k].procs| == |run[i].procs| && run[k].procs[p].intena == run[i].cpus[steps[i].c].intena
    {
      RunTidies(run, steps, k, p);
    }
    assert run[j + 1] == Do(run[j], steps[j]);
  }

  /** A process that the scheduler has returned to goes on where it left off: in wait it scans its children again,
      with the table still locked, after any other sleep it asks for its lock again, and its channel is gone. */
  lemma ResumeExactly(run: seq<State>, steps: seq<Step>, i: nat, p: nat)
    requires IsRun(run, steps) && i < |steps| && steps[i].Resume? && p == Cur(run[i], steps[i].c)
    ensures p < |run[i].procs| == |run[i + 1].procs| && run[i].procs[p].pc.Resumed? && 0 < |run[i + 1].locks|
    ensures var y := run[i + 1].procs[p];
      && y.chan == NoChan && y.st == RUNNING
      && match run[i].procs[p].pc.next
         case ToWait => y.pc == InWait && run[i + 1].locks[0].holder == Yes(steps[i].c)
         case AfterSleep(lk) => y.pc == Relock(lk) && run[i + 1].locks[0].holder == No
         case ToRelock(lk) => y.pc == Relock(lk) && run[i + 1].locks[0].holder == No
         case _ => y.pc == User && run[i + 1].locks[0].holder == No
    ensures forall j :: 0 <= j < |run[i].procs| && j != p ==> run[i + 1].procs[j] == run[i].procs[j]
  {
    var s := run[i];
    RunInv(run, steps, i);
    Running(s, steps[i]);
    PlainShape(s, steps[i]);
    ChannelsTidy(run, steps, i, p);
    assert PlaceOk(s.procs[p], p, s.cpus) && HolderOk(s.locks[0], 0, s.cpus);
    assert run[i + 1] == Do(s, steps[i]);
  }

  /** Which interrupts are on after a step: off on a CPU that takes a lock, as saved on one that gives its last
      lock, as the code says where it says so, and else as before. */
  lemma FlagsExactly(run: seq<State>, steps: seq<Step>, i: nat, k: nat)
    requires IsRun(run, steps) && i < |steps| && k < |run[i].cpus|
    ensures |run[i + 1].cpus| == |run[i].cpus|
    ensures var x, y, op := run[i].cpus[k], run[i + 1].cpus[k], OpOf(run[i], steps[i]);
      && (k != steps[i].c || (op == Keep && !steps[i].SetInterrupts?) ==> y.iflag == x.iflag)
      && (k == steps[i].c && steps[i].SetInterrupts? ==> y.iflag == steps[i].on)
      && (k == steps[i].c && op.Take? ==> !y.iflag && y.ncli == x.ncli + 1)
      && (k == steps[i].c && op.Give? ==> !x.iflag && y.iflag == (x.ncli == 1 && x.intena) && y.ncli == x.ncli - 1)
  {
    RunInv(run, steps, i);
    var s := run[i];
    assert run[i + 1] == Do(s, steps[i]);
    if k == steps[i].c && OpOf(s, steps[i]).Give? {
      assert HolderOk(s.locks[OpOf(s, steps[i]).l], OpOf(s, steps[i]).l, s.cpus);
    }
  }

  // ---- Slots

  /** wait gives exactly the slot it found back: nothing of the child stays, its pid is the one
      returned, the caller goes back to its code, and nothing else changes. */
  lemma ReapExactly(run: seq<State>, steps: seq<Step>, i: nat, p: nat, k: nat)
    requires IsRun(run, steps) && i < |steps| && steps[i].WaitReap? && steps[i].k == k && p == Cur(run[i], steps[i].c)
    ensures |run[i + 1].procs| == |run[i].procs| && p < |run[i].procs| && k < |run[i].procs| && k != p
    ensures var y := run[i + 1].procs[k];
      y.st == UNUSED && y.pid == 0 && y.parent == No && y.chan == NoChan && !y.killed && !y.kstack
    ensures run[i + 1].procs[p] == run[i].procs[p].(pc := User) && run[i].procs[p].pc == InWait
    ensures run[i + 1].reaped == run[i].reaped + [run[i].procs[k].pid]
    ensures forall j :: 0 <= j < |run[i].procs| && j != p && j != k ==> run[i + 1].procs[j] == run[i].procs[j]
  {
    RunInv(run, steps, i);
    ChannelsTidy(run, steps, i, k);
    ChildOff(run[i], steps[i]);
    TwoShape(run[i], steps[i]);
    assert run[i + 1] == Do(run[i], steps[i]);
  }

  /** allocproc gives exactly one unused slot, with a pid larger than every other, and nothing else changes. */
  lemma AllocExactly(run: seq<State>, steps: seq<Step>, i: nat, p: nat, k: nat)
    requires IsRun(run, steps) && i < |steps| && steps[i].ForkAlloc? && steps[i].k == k && p == Cur(run[i], steps[i].c)
    ensures |run[i + 1].procs| == |run[i].procs| && p < |run[i].procs| && k < |run[i].procs| && k != p
    ensures run[i].procs[k].st == UNUSED
    ensures run[i + 1].procs[k] == run[i].procs[k].(st := EMBRYO, pid := run[i].nextpid)
    ensures run[i + 1].nextpid > run[i].nextpid
    ensures run[i + 1].procs[p] == run[i].procs[p].(pc := User, fork := Allocated(k))
    ensures forall j :: 0 <= j < |run[i].procs| && run[i].procs[j].st != UNUSED ==> run[i].procs[j].pid < run[i].nextpid
    ensures forall j :: 0 <= j < |run[i].procs| && j != p && j != k ==> run[i + 1].procs[j] == run[i].procs[j]
  {
    RunInv(run, steps, i);
    ChildOff(run[i], steps[i]);
    TwoShape(run[i], steps[i]);
    assert run[i + 1] == Do(run[i], steps[i]);
  }
}
