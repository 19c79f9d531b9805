/** Parents, children, zombies and pids: what every step keeps of them. */
module ProcFamily {
  import opened ProcSteps
  import opened ProcInv

  predicate Live(x: Proc) {
    x.st == SLEEPING || x.st == RUNNABLE || x.st == RUNNING
  }

  predicate Started(x: Proc) {
    Live(x) || x.st == ZOMBIE
  }

  /** A started process has a stack and, unless it is init, a live parent. */
  predicate KinOk(procs: seq<Proc>, init: nat, x: Proc, p: nat) {
    && (Started(x) ==>
      x.kstack && (p != init ==> x.parent.Yes? && x.parent.v < |procs| && x.parent.v != p && Live(procs[x.parent.v])))
    && (x.st == UNUSED ==> x.parent == No)
  }

  /** A process asleep in wait, or about to be. */
  predicate WaitsAsleep(x: Proc) {
    (x.st == SLEEPING && (x.pc == Switching(ToWait) || x.pc == Resumed(ToWait))) || (x.pc.SleepReady? && x.pc.lk == 0)
  }

  /** A process that sleeps in wait sleeps on its own channel and has no zombie child. */
  predicate AsleepOk(procs: seq<Proc>, x: Proc, p: nat) {
    && (WaitsAsleep(x) ==> !LeavesZombie(procs, p))
    && (WaitsAsleep(x) && x.st == SLEEPING ==> x.chan == ProcChan(p))
    && (x.pc.SleepReady? && x.pc.lk == 0 ==> x.pc.chan == ProcChan(p))
  }

  /** The child of a process in fork is an EMBRYO, and once set up has that parent. */
  predicate ForkLink(procs: seq<Proc>, x: Proc, p: nat) {
    match x.fork
    case NoFork => true
    case Allocated(k) => k < |procs| && procs[k].st == EMBRYO && procs[k].parent == No
    case Ready(k) => k < |procs| && procs[k].st == EMBRYO && procs[k].parent == Yes(p) && procs[k].kstack
  }

  ghost predicate ForksApart(procs: seq<Proc>) {
    forall p, q :: 0 <= p < q < |procs| && procs[p].fork != NoFork && procs[q].fork != NoFork ==>
      procs[p].fork.k != procs[q].fork.k
  }

  ghost predicate AllKin(procs: seq<Proc>, init: nat) {
    forall p :: 0 <= p < |procs| ==> KinOk(procs, init, procs[p], p)
  }

  ghost predicate AllAsleep(procs: seq<Proc>) {
    forall p :: 0 <= p < |procs| ==> AsleepOk(procs, procs[p], p)
  }

  ghost predicate AllForks(procs: seq<Proc>) {
    ForksApart(procs) && forall p :: 0 <= p < |procs| ==> ForkLink(procs, procs[p], p)
  }

  ghost predicate FamilyOk(procs: seq<Proc>, init: nat) {
    init < |procs| && Live(procs[init]) && AllKin(procs, init) && AllAsleep(procs) && AllForks(procs)
  }

  /** Pids in use are distinct and were never reaped; no pid was reaped twice. */
  ghost predicate PidsOk(procs: seq<Proc>, nextpid: nat, reaped: seq<nat>) {
    && (forall p :: 0 <= p < |procs| && procs[p].st != UNUSED ==> procs[p].pid < nextpid && procs[p].pid !in reaped)
    && (forall p, q :: 0 <= p < q < |procs| && procs[p].st != UNUSED && procs[q].st != UNUSED ==>
      procs[p].pid != procs[q].pid)
    && (forall i :: 0 <= i < |reaped| ==> reaped[i] < nextpid)
    && (forall i, j :: 0 <= i < j < |reaped| ==> reaped[i] != reaped[j])
  }

  /** Neither birth, death nor adoption. */
  predicate SameKin(x: Proc, y: Proc) {
    && y.parent == x.parent && y.pid == x.pid && y.kstack == x.kstack && y.fork == x.fork
    && (y.st == x.st || (Live(x) && Live(y)))
  }

  lemma SameZombies(procs: seq<Proc>, procs': seq<Proc>, p: nat)
    requires |procs'| == |procs| && forall q :: 0 <= q < |procs| ==> SameKin(procs[q], procs'[q])
    ensures LeavesZombie(procs', p) <==> LeavesZombie(procs, p)
  {
    if LeavesZombie(procs', p) {
      var i :| 0 <= i < |procs'| && procs'[i].parent == Yes(p) && procs'[i].st == ZOMBIE;
      assert SameKin(procs[i], procs'[i]);
      assert procs[i].parent == Yes(p) && procs[i].st == ZOMBIE;
    }
    if LeavesZombie(procs, p) {
      var i :| 0 <= i < |procs| && procs[i].parent == Yes(p) && procs[i].st == ZOMBIE;
      assert SameKin(procs[i], procs'[i]);
      assert procs'[i].parent == Yes(p) && procs'[i].st == ZOMBIE;
    }
  }

  predicate AsleepChan(x: Proc, p: nat) {
    && (WaitsAsleep(x) && x.st == SLEEPING ==> x.chan == ProcChan(p))
    && (x.pc.SleepReady? && x.pc.lk == 0 ==> x.pc.chan == ProcChan(p))
  }

  /** A step without birth, death or adoption, in which nobody newly sleeps in wait. */
  lemma KinKept(procs: seq<Proc>, procs': seq<Proc>, init: nat, nextpid: nat, reaped: seq<nat>)
    requires FamilyOk(procs, init) && PidsOk(procs, nextpid, reaped) && |procs'| == |procs|
    requires forall q :: 0 <= q < |procs| ==> SameKin(procs[q], procs'[q])
    requires forall q :: 0 <= q < |procs| ==> WaitsAsleep(procs'[q]) ==> !LeavesZombie(procs, q)
    requires forall q :: 0 <= q < |procs| ==> AsleepChan(procs'[q], q)
    ensures FamilyOk(procs', init) && PidsOk(procs', nextpid, reaped)
  {
    forall q | 0 <= q < |procs| ensures KinOk(procs', init, procs'[q], q) && AsleepOk(procs', procs'[q], q) &&
      ForkLink(procs', procs'[q], q) {
      assert SameKin(procs[q], procs'[q]) && KinOk(procs, init, procs[q], q) && ForkLink(procs, procs[q], q);
      SameZombies(procs, procs', q);
      if procs[q].parent.Yes? && procs[q].parent.v < |procs| {
        assert SameKin(procs[procs[q].parent.v], procs'[procs[q].parent.v]);
      }
      if procs[q].fork != NoFork {
        assert SameKin(procs[procs[q].fork.k], procs'[procs[q].fork.k]);
      }
    }
    assert SameKin(procs[init], procs'[init]);
  }

  /** Steps that change one process without birth, death or adoption. */
  lemma OneKin(procs: seq<Proc>, p: nat, x: Proc, init: nat, nextpid: nat, reaped: seq<nat>)
    requires FamilyOk(procs, init) && PidsOk(procs, nextpid, reaped) && p < |procs| && SameKin(procs[p], x)
    requires WaitsAsleep(x) ==> !LeavesZombie(procs, p)
    requires AsleepChan(x, p)
    ensures FamilyOk(procs[p := x], init) && PidsOk(procs[p := x], nextpid, reaped)
  {
    var ps := procs[p := x];
    forall q | 0 <= q < |procs| ensures (WaitsAsleep(ps[q]) ==> !LeavesZombie(procs, q)) && AsleepChan(ps[q], q) {
      assert AsleepOk(procs, procs[q], q);
    }
    KinKept(procs, ps, init, nextpid, reaped);
  }

  predicate Plain(step: Step) {
    Local(step) && !step.WaitReap? && !step.ForkAlloc? && !step.ForkFail? && !step.ForkSetup? && !step.StartDo?
  }

  lemma PlainMe(s: State, step: Step)
    requires Enabled(s, step) && (Plain(step) || step.Switch?) && Runs(s, step.c, Cur(s, step.c)) &&
      RunOk(Me(s, step.c), s.cpus[step.c])
    requires AsleepOk(s.procs, Me(s, step.c), Cur(s, step.c))
    ensures SameKin(Me(s, step.c), NewMe(s, step)) && AsleepChan(NewMe(s, step), Cur(s, step.c))
    ensures WaitsAsleep(NewMe(s, step)) ==> !LeavesZombie(s.procs, Cur(s, step.c))
  {
  }

  lemma PlainShape(s: State, step: Step)
    requires Reached(s, step) && (Plain(step) || step.Switch?) && Cur(s, step.c) < |s.procs|
    ensures NewProcs(s, step) == s.procs[Cur(s, step.c) := NewMe(s, step)]
  {
  }

  lemma PlainFamily(s: State, step: Step)
    requires FamilyOk(s.procs, s.init) && PidsOk(s.procs, s.nextpid, s.reaped) && Enabled(s, step) &&
      (Plain(step) || step.Switch?)
    requires Runs(s, step.c, Cur(s, step.c)) && RunOk(Me(s, step.c), s.cpus[step.c])
    ensures FamilyOk(NewProcs(s, step), s.init) && PidsOk(NewProcs(s, step), s.nextpid, s.reaped)
  {
    var p := Cur(s, step.c);
    assert AsleepOk(s.procs, s.procs[p], p);
    PlainMe(s, step);
    PlainShape(s, step);
    OneKin(s.procs, p, NewMe(s, step), s.init, s.nextpid, s.reaped);
  }

  lemma DispatchFamily(s: State, step: Step)
    requires FamilyOk(s.procs, s.init) && PidsOk(s.procs, s.nextpid, s.reaped) && Enabled(s, step) && step.Dispatch?
    requires s.procs[step.p].pc.Resumed?
    ensures FamilyOk(NewProcs(s, step), s.init) && PidsOk(NewProcs(s, step), s.nextpid, s.reaped)
  {
    OneKin(s.procs, step.p, NewProcs(s, step)[step.p], s.init, s.nextpid, s.reaped);
  }

  lemma WokenKin(x: Proc, chan: Chan, p: nat)
    requires AsleepChan(x, p)
    ensures SameKin(x, Woken(x, chan)) && SameKin(x, Killed(x)) && (WaitsAsleep(Woken(x, chan)) ==> WaitsAsleep(x)) &&
      (WaitsAsleep(Killed(x)) ==> WaitsAsleep(x))
    ensures AsleepChan(Woken(x, chan), p) && AsleepChan(Killed(x), p)
  {
  }

  lemma IrqFamily(s: State, step: Step)
    requires FamilyOk(s.procs, s.init) && PidsOk(s.procs, s.nextpid, s.reaped) && Enabled(s, step) && step.IrqDo?
    ensures FamilyOk(NewProcs(s, step), s.init) && PidsOk(NewProcs(s, step), s.nextpid, s.reaped)
  {
    var ps := NewProcs(s, step);
    forall q | 0 <= q < |s.procs|
      ensures SameKin(s.procs[q], ps[q]) && (WaitsAsleep(ps[q]) ==> !LeavesZombie(s.procs, q)) && AsleepChan(ps[q], q)
    {
      assert AsleepOk(s.procs, s.procs[q], q);
      WokenKin(s.procs[q], if s.cpus[step.c].irq.Waking? then s.cpus[step.c].irq.chan else NoChan, q);
    }
    KinKept(s.procs, ps, s.init, s.nextpid, s.reaped);
  }

  // ---- Births and deaths

  lemma NoNewZombie(procs: seq<Proc>, procs': seq<Proc>, p: nat)
    requires |procs'| == |procs|
    requires forall q :: 0 <= q < |procs| && procs'[q].st == ZOMBIE ==>
      procs[q].st == ZOMBIE && procs[q].parent == procs'[q].parent
    ensures LeavesZombie(procs', p) ==> LeavesZombie(procs, p)
  {
  }

  /** Nobody new sleeps in wait and no zombie appears. */
  lemma AsleepMap(procs: seq<Proc>, procs': seq<Proc>)
    requires AllAsleep(procs) && |procs'| == |procs|
    requires forall q :: 0 <= q < |procs| && procs'[q].st == ZOMBIE ==>
      procs[q].st == ZOMBIE && procs[q].parent == procs'[q].parent
    requires forall q :: 0 <= q < |procs| && WaitsAsleep(procs'[q]) ==>
      procs'[q].st == procs[q].st && procs'[q].pc == procs[q].pc && procs'[q].chan == procs[q].chan
    ensures AllAsleep(procs')
  {
    forall q | 0 <= q < |procs| ensures AsleepOk(procs', procs'[q], q) {
      assert AsleepOk(procs, procs[q], q);
      NoNewZombie(procs, procs', q);
    }
  }

  /** Nobody started dies or moves, and whoever starts has a live parent. */
  lemma KinMap(procs: seq<Proc>, procs': seq<Proc>, init: nat)
    requires AllKin(procs, init) && |procs'| == |procs|
    requires forall q :: 0 <= q < |procs| ==> (Live(procs[q]) ==> Live(procs'[q]))
    requires forall q :: 0 <= q < |procs| && Started(procs'[q]) ==>
      Started(procs[q]) && procs'[q].parent == procs[q].parent && procs'[q].kstack == procs[q].kstack
    requires forall q :: 0 <= q < |procs| && procs'[q].st == UNUSED ==> procs'[q].parent == No
    ensures AllKin(procs', init)
  {
    forall q | 0 <= q < |procs| ensures KinOk(procs', init, procs'[q], q) {
      assert KinOk(procs, init, procs[q], q);
    }
  }

  lemma ForksMap(procs: seq<Proc>, procs': seq<Proc>)
    requires AllForks(procs) && |procs'| == |procs|
    requires forall q :: 0 <= q < |procs| ==> procs'[q].fork == procs[q].fork
    requires forall q :: 0 <= q < |procs| && procs[q].st == EMBRYO ==>
      procs'[q].st == EMBRYO && procs'[q].parent == procs[q].parent && procs'[q].kstack == procs[q].kstack
    ensures AllForks(procs')
  {
    forall q | 0 <= q < |procs| ensures ForkLink(procs', procs'[q], q) {
      assert ForkLink(procs, procs[q], q);
    }
  }

  /** No pid is given or taken. */
  lemma PidsMap(procs: seq<Proc>, procs': seq<Proc>, nextpid: nat, reaped: seq<nat>)
    requires PidsOk(procs, nextpid, reaped) && |procs'| == |procs|
    requires forall q :: 0 <= q < |procs| && procs'[q].st != UNUSED ==>
      procs[q].st != UNUSED && procs'[q].pid == procs[q].pid
    ensures PidsOk(procs', nextpid, reaped)
  {
  }

  lemma AllocPids(procs: seq<Proc>, k: nat, y: Proc, nextpid: nat, reaped: seq<nat>)
    requires PidsOk(procs, nextpid, reaped) && k < |procs| && y.pid == nextpid
    ensures PidsOk(procs[k := y], nextpid + 1, reaped)
  {
  }

  lemma ReapPids(procs: seq<Proc>, k: nat, y: Proc, nextpid: nat, reaped: seq<nat>)
    requires PidsOk(procs, nextpid, reaped) && k < |procs| && procs[k].st != UNUSED && y.st == UNUSED
    ensures PidsOk(procs[k := y], nextpid, reaped + [procs[k].pid])
  {
  }

  /** fork's child is allocated. */
  lemma AllocForks(procs: seq<Proc>, p: nat, k: nat, x: Proc, y: Proc)
    requires AllForks(procs) && p < |procs| && k < |procs| && p != k
    requires procs[k].st == UNUSED && procs[p].fork == NoFork && procs[k].fork == NoFork && procs[k].parent == No &&
      procs[p].st != EMBRYO
    requires x.fork == Allocated(k) && y.fork == NoFork && y.st == EMBRYO && y.parent == No && x.st == procs[p].st
    ensures AllForks(procs[p := x][k := y])
  {
    var ps := procs[p := x][k := y];
    forall q | 0 <= q < |procs| ensures ForkLink(ps, ps[q], q) {
      assert ForkLink(procs, procs[q], q);
    }
    forall q, r | 0 <= q < r < |ps| && ps[q].fork != NoFork && ps[r].fork != NoFork
      ensures ps[q].fork.k != ps[r].fork.k {
      assert ForkLink(procs, procs[q], q) && ForkLink(procs, procs[r], r);
    }
  }

  lemma AllocFamily(procs: seq<Proc>, p: nat, k: nat, init: nat, nextpid: nat, x: Proc, y: Proc)
    requires FamilyOk(procs, init) && p < |procs| && k < |procs| && procs[p].st == RUNNING
    requires procs[k].st == UNUSED && procs[p].fork == NoFork && procs[k].fork == NoFork && !procs[k].pc.SleepReady?
    requires x == procs[p].(pc := User, fork := Allocated(k)) && y == procs[k].(st := EMBRYO, pid := nextpid)
    ensures FamilyOk(procs[p := x][k := y], init)
  {
    var ps := procs[p := x][k := y];
    assert KinOk(procs, init, procs[k], k);
    KinMap(procs, ps, init);
    AsleepMap(procs, ps);
    AllocForks(procs, p, k, x, y);
  }

  lemma ChildForks(procs: seq<Proc>, p: nat, k: nat, x: Proc, y: Proc)
    requires AllForks(procs) && p < |procs| && procs[p].fork != NoFork && procs[p].fork.k == k && k < |procs| && p != k
    requires y.fork == NoFork && procs[k].fork == NoFork && procs[p].st != EMBRYO && x.st == procs[p].st &&
      x.parent == procs[p].parent && x.kstack == procs[p].kstack
    requires x.fork == NoFork || (x.fork == Ready(k) && y.st == EMBRYO && y.parent == Yes(p) && y.kstack)
    ensures AllForks(procs[p := x][k := y])
  {
    var ps := procs[p := x][k := y];
    forall q | 0 <= q < |procs| ensures ForkLink(ps, ps[q], q) {
      assert ForkLink(procs, procs[q], q);
    }
  }

  /** fork gives up, or goes on, with its child. */
  lemma ChildFamily(procs: seq<Proc>, p: nat, k: nat, init: nat, x: Proc, y: Proc)
    requires FamilyOk(procs, init) && p < |procs| && procs[p].st == RUNNING && procs[p].pc == User
    requires procs[p].fork == Allocated(k) && k < |procs| && procs[k].fork == NoFork && !procs[k].pc.SleepReady?
    requires (x == procs[p].(fork := NoFork) && y == procs[k].(st := UNUSED, kstack := false))
          || (x == procs[p].(fork := Ready(k)) && y == procs[k].(kstack := true, parent := Yes(p)))
    ensures FamilyOk(procs[p := x][k := y], init)
  {
    var ps := procs[p := x][k := y];
    assert ForkLink(procs, procs[p], p);
    KinMap(procs, ps, init);
    AsleepMap(procs, ps);
    ChildForks(procs, p, k, x, y);
  }

  /** The child starts. */
  lemma StartFamily(procs: seq<Proc>, p: nat, k: nat, init: nat, x: Proc, y: Proc)
    requires FamilyOk(procs, init) && p < |procs| && procs[p].st == RUNNING && procs[p].pc == Starting
    requires procs[p].fork == Ready(k) && k < |procs| && procs[k].fork == NoFork
    requires x == procs[p].(pc := User, fork := NoFork) && y == procs[k].(st := RUNNABLE, pc := Resumed(ToUser))
    ensures FamilyOk(procs[p := x][k := y], init)
  {
    var ps := procs[p := x][k := y];
    assert ForkLink(procs, procs[p], p);
    forall q | 0 <= q < |procs| ensures KinOk(ps, init, ps[q], q) {
      assert KinOk(procs, init, procs[q], q);
    }
    AsleepMap(procs, ps);
    ChildForks(procs, p, k, x, y);
  }

  /** A zombie is reaped. */
  lemma ReapFamily(procs: seq<Proc>, p: nat, k: nat, init: nat, x: Proc, y: Proc)
    requires FamilyOk(procs, init) && p < |procs| && procs[p].st == RUNNING && procs[p].pc == InWait
    requires k < |procs| && procs[k].st == ZOMBIE && procs[k].fork == NoFork && procs[k].pc.Resumed?
    requires x == procs[p].(pc := User) &&
      y == procs[k].(st := UNUSED, pid := 0, parent := No, killed := false, kstack := false)
    ensures FamilyOk(procs[p := x][k := y], init)
  {
    var ps := procs[p := x][k := y];
    KinMap(procs, ps, init);
    AsleepMap(procs, ps);
    ForksMap(procs, ps);
  }

  // ---- exit

  lemma ExitLeaves(procs: seq<Proc>, p: nat, init: nat, q: nat, i: nat)
    requires p < |procs| && q < |procs| && q != p && i < |procs| && init < |procs| && procs[p].st == RUNNING
    requires procs[q].st == SLEEPING && procs[q].chan == ProcChan(q) && !LeavesZombie(procs, q) &&
      procs[p].parent != Yes(p)
    requires procs[q].pc.SleepReady? ==> procs[q].pc.lk != 0
    requires WaitsAsleep(Exited(procs, p, init)[q]) && Exited(procs, p, init)[i].st == ZOMBIE
    ensures Exited(procs, p, init)[i].parent != Yes(q)
  {
    var y := ExitedAt(procs, p, init, q);
    var z := ExitedAt(procs, p, init, i);
    if i != p && procs[i].parent == Yes(p) {
      assert LeavesZombie(procs, p);
    }
  }

  /** After exit of p no one who still sleeps in wait has a zombie child. */
  lemma ExitAsleep(procs: seq<Proc>, p: nat, init: nat, q: nat)
    requires AllAsleep(procs) && p < |procs| && q < |procs| && q != p && procs[p].st == RUNNING && init < |procs|
    requires (procs[q].pc.SleepReady? ==> procs[q].pc.lk != 0) && procs[p].parent != Yes(p)
    ensures AsleepOk(Exited(procs, p, init), Exited(procs, p, init)[q], q)
  {
    var ps := Exited(procs, p, init);
    var y := ExitedAt(procs, p, init, q);
    assert AsleepOk(procs, procs[q], q);
    if WaitsAsleep(ps[q]) {
      assert procs[q].st == SLEEPING && procs[q].chan == ProcChan(q) && !LeavesZombie(procs, q);
      forall i | 0 <= i < |ps| && ps[i].st == ZOMBIE ensures ps[i].parent != Yes(q) {
        ExitLeaves(procs, p, init, q, i);
      }
    }
  }

  /** The exiting process is nobody's fork parent, so adoption touches no EMBRYO being set up. */
  lemma ExitForks(procs: seq<Proc>, p: nat, init: nat)
    requires AllForks(procs) && p < |procs| && procs[p].fork == NoFork && procs[p].st == RUNNING
    ensures AllForks(Exited(procs, p, init))
  {
    var ps := Exited(procs, p, init);
    forall q | 0 <= q < |procs| ensures ps[q].fork == procs[q].fork && ForkLink(ps, ps[q], q) {
      assert ForkLink(procs, procs[q], q);
      var y := ExitedAt(procs, p, init, q);
      if procs[q].fork != NoFork {
        var z := ExitedAt(procs, p, init, procs[q].fork.k);
      }
    }
  }

  lemma ExitKin(procs: seq<Proc>, p: nat, init: nat, q: nat)
    requires FamilyOk(procs, init) && p < |procs| && p != init && procs[p].st == RUNNING && q < |procs|
    ensures KinOk(Exited(procs, p, init), init, Exited(procs, p, init)[q], q)
  {
    assert KinOk(procs, init, procs[q], q) && KinOk(procs, init, procs[p], p);
    var y := ExitedAt(procs, p, init, q);
    var z := ExitedAt(procs, p, init, init);
    if procs[q].parent.Yes? && procs[q].parent.v < |procs| {
      var w := ExitedAt(procs, p, init, procs[q].parent.v);
    }
  }

  lemma ExitFamily(procs: seq<Proc>, p: nat, init: nat)
    requires FamilyOk(procs, init) && p < |procs| && p != init && procs[p].st == RUNNING && procs[p].fork == NoFork &&
      procs[p].pc == InExit
    requires forall q :: 0 <= q < |procs| && procs[q].pc.SleepReady? ==> procs[q].pc.lk != 0
    ensures FamilyOk(Exited(procs, p, init), init)
  {
    var ps := Exited(procs, p, init);
    assert KinOk(procs, init, procs[p], p);
    forall q | 0 <= q < |procs| ensures AsleepOk(ps, ps[q], q) {
      if q != p {
        ExitAsleep(procs, p, init, q);
      } else {
        var y := ExitedAt(procs, p, init, q);
      }
    }
    forall q | 0 <= q < |procs| ensures KinOk(ps, init, ps[q], q) {
      ExitKin(procs, p, init, q);
    }
    forall q | 0 <= q < |procs|
      ensures ps[q].fork == procs[q].fork
      ensures procs[q].st == EMBRYO ==> ps[q].st == EMBRYO && ps[q].kstack == procs[q].kstack
    {
      var y := ExitedAt(procs, p, init, q);
    }
    ExitForks(procs, p, init);
    var y := ExitedAt(procs, p, init, init);
  }
}
