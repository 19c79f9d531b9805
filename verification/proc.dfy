/** The loops over the process table and the interrupt masking of kernel/proc.c and
    kernel/spinlock.c, in place, against the functions the step system uses. */
module ProcTable {
  import opened ProcSteps

  // ---- Interrupt masking

  /** A CPU after acquires and releases. */
  function MaskedBy(cpu: Cpu, ops: seq<LockOp>): (r: Cpu)
    decreases |ops|
  {
    if ops == [] then cpu else Masked(MaskedBy(cpu, ops[..|ops| - 1]), ops[|ops| - 1])
  }

  /** How many more acquires than releases there are. */
  function Depth(ops: seq<LockOp>): (n: int)
    decreases |ops|
  {
    if ops == [] then 0
    else
      var op := ops[|ops| - 1];
      Depth(ops[..|ops| - 1]) + if op.Take? then 1 else if op.Give? then -1 else 0
  }

  /** No release without an acquire before it. */
  ghost predicate Nested(ops: seq<LockOp>) {
    forall n :: 0 <= n <= |ops| ==> Depth(ops[..n]) >= 0
  }

  /** Between the first acquire and its release interrupts are off; once every acquire is undone, and
      not before, they are again as they were: on if they were on, off if they were off. */
  lemma {:induction false} PushPop(cpu: Cpu, ops: seq<LockOp>)
    requires cpu.ncli == 0 && Nested(ops)
    ensures var r := MaskedBy(cpu, ops);
      && r.ncli == Depth(ops)
      && (if Depth(ops) == 0 then r.iflag == cpu.iflag else !r.iflag && r.intena == cpu.iflag)
    decreases |ops|
  {
    assert ops[..|ops|] == ops;
    if ops != [] {
      var before := ops[..|ops| - 1];
      forall n | 0 <= n <= |before| ensures Depth(before[..n]) >= 0 {
        assert before[..n] == ops[..n];
      }
      PushPop(cpu, before);
      assert Depth(ops[..|ops|]) >= 0;
    }
  }

  // ---- The table

  class Table {
    const proc: array<Proc>

    constructor (n: nat)
      ensures fresh(proc) && proc.Length == n
      ensures forall i :: 0 <= i < n ==> proc[i].st == UNUSED && proc[i].parent == No
    {
      proc := new Proc[n](_ => Proc(UNUSED, 0, No, NoChan, false, false, false, Resumed(Never), NoFork, No, NoCall));
    }

    /** wakeup1 */
    method Wakeup1(chan: Chan)
      modifies proc
      ensures proc[..] == WakeAll(old(proc[..]), chan)
      ensures forall i :: 0 <= i < proc.Length ==>
        WokenTo(old(proc[i]), proc[i], old(proc[i]).st == SLEEPING && old(proc[i]).chan == chan)
    {
      var p := 0;
      while p < proc.Length
        invariant 0 <= p <= proc.Length
        invariant forall i :: 0 <= i < p ==> proc[i] == Woken(old(proc[i]), chan)
        invariant forall i :: p <= i < proc.Length ==> proc[i] == old(proc[i])
      {
        if proc[p].st == SLEEPING && proc[p].chan == chan {
          proc[p] := proc[p].(st := RUNNABLE, call := NoCall);
        }
        p := p + 1;
      }
    }

    /** exit's loop: children go to init, which is woken for each that is a zombie. */
    method PassToInit(me: nat, init: nat)
      modifies proc
      ensures proc[..] == PassChildren(old(proc[..]), me, init)
    {
      var p := 0;
      ghost var woke := false;
      while p < proc.Length
        invariant 0 <= p <= proc.Length
        invariant woke <==> exists i :: 0 <= i < p && old(proc[i]).parent == Yes(me) && old(proc[i]).st == ZOMBIE
        invariant forall i :: 0 <= i < p ==>
          proc[i] == Adopted(if woke then Woken(old(proc[i]), ProcChan(init)) else old(proc[i]), me, init)
        invariant forall i :: p <= i < proc.Length ==>
          proc[i] == if woke then Woken(old(proc[i]), ProcChan(init)) else old(proc[i])
      {
        if proc[p].parent == Yes(me) {
          proc[p] := proc[p].(parent := Yes(init));
          if proc[p].st == ZOMBIE {
            Wakeup1(ProcChan(init));
            woke := true;
          }
        }
        p := p + 1;
      }
      assert woke <==> LeavesZombie(old(proc[..]), me);
    }

    /** wait's scan: the first zombie child, and whether there are children. */
    method FindZombie(me: nat) returns (found: bool, k: nat, havekids: bool)
      ensures found <==> LeavesZombie(proc[..], me)
      ensures found ==> k < proc.Length && proc[k].parent == Yes(me) && proc[k].st == ZOMBIE && havekids
      ensures !found ==> (havekids <==> HasChild(proc[..], me))
    {
      havekids := false;
      k := 0;
      while k < proc.Length
        invariant 0 <= k <= proc.Length
        invariant havekids <==> exists i :: 0 <= i < k && proc[i].parent == Yes(me)
        invariant forall i :: 0 <= i < k ==> !(proc[i].parent == Yes(me) && proc[i].st == ZOMBIE)
      {
        if proc[k].parent == Yes(me) {
          havekids := true;
          if proc[k].st == ZOMBIE {
            assert proc[..][k].parent == Yes(me) && proc[..][k].st == ZOMBIE;
            return true, k, true;
          }
        }
        k := k + 1;
      }
      found := false;
      if havekids {
        var i :| 0 <= i < k && proc[i].parent == Yes(me);
        assert proc[..][i].parent == Yes(me);
      }
    }

    /** kill: the first process with the pid is marked and no longer sleeps; no other changes. */
    method Kill(pid: nat) returns (r: int, ghost k: nat)
      modifies proc
      ensures proc[..] == KillPid(old(proc[..]), pid)
      ensures r == 0 <==> exists i :: 0 <= i < proc.Length && old(proc[i]).pid == pid
      ensures r == 0 || r == -1
      ensures r == 0 ==> k < proc.Length && old(proc[k]).pid == pid && KilledTo(old(proc[k]), proc[k])
      ensures r == 0 ==> forall i :: 0 <= i < k ==> old(proc[i]).pid != pid
      ensures forall i :: 0 <= i < proc.Length && !(r == 0 && i == k) ==> proc[i] == old(proc[i])
    {
      ghost var ps := proc[..];
      ghost var first := FindPid(ps, pid, 0);
      var p := 0;
      while p < proc.Length
        invariant 0 <= p <= first && proc[..] == ps
      {
        if proc[p].pid == pid {
          proc[p] := proc[p].(killed := true);
          if proc[p].st == SLEEPING {
            proc[p] := proc[p].(st := RUNNABLE, call := NoCall);
          }
          assert ps[p].pid == pid;
          return 0, p;
        }
        p := p + 1;
      }
      return -1, p;
    }

    /** allocproc's scan: the first unused slot becomes an EMBRYO with the next pid. */
    method Alloc(nextpid: nat) returns (found: bool, k: nat)
      modifies proc
      ensures found <==> exists i :: 0 <= i < proc.Length && old(proc[i]).st == UNUSED
      ensures found ==>
        k < proc.Length && old(proc[k]).st == UNUSED &&
        proc[..] == old(proc[..])[k := old(proc[k]).(st := EMBRYO, pid := nextpid)]
      ensures !found ==> proc[..] == old(proc[..])
    {
      k := 0;
      while k < proc.Length
        invariant 0 <= k <= proc.Length && proc[..] == old(proc[..])
        invariant forall i :: 0 <= i < k ==> old(proc[i]).st != UNUSED
      {
        if proc[k].st == UNUSED {
          proc[k] := proc[k].(st := EMBRYO, pid := nextpid);
          return true, k;
        }
        k := k + 1;
      }
      found := false;
    }
  }

  /** The masking state of one CPU. */
  class CpuMask {
    var ncli: int
    var intena: bool
    var iflag: bool

    constructor (iflag: bool)
      ensures ncli == 0 && this.iflag == iflag
    {
      ncli, intena, this.iflag := 0, false, iflag;
    }

    /** Whether the mask is that of a CPU of the step system. */
    predicate Shows(cpu: Cpu)
      reads this
    {
      ncli == cpu.ncli && intena == cpu.intena && iflag == cpu.iflag
    }

    method Pushcli(ghost cpu: Cpu, ghost l: nat)
      requires Shows(cpu)
      modifies this
      ensures Shows(Masked(cpu, Take(l)))
      ensures ncli == old(ncli) + 1 && !iflag && intena == if old(ncli) == 0 then old(iflag) else old(intena)
    {
      var eflags := iflag;
      iflag := false;
      if ncli == 0 {
        intena := eflags;
      }
      ncli := ncli + 1;
    }

    /** popcli panics with interrupts on or when it was not pushed. */
    method Popcli(ghost cpu: Cpu, ghost l: nat) returns (panics: bool)
      requires Shows(cpu)
      modifies this
      ensures panics <==> cpu.iflag || cpu.ncli < 1
      ensures !panics ==> Shows(Masked(cpu, Give(l)))
      ensures !panics ==> ncli == old(ncli) - 1 && intena == old(intena) && iflag == (ncli == 0 && intena)
    {
      if iflag {
        return true;
      }
      ncli := ncli - 1;
      if ncli < 0 {
        return true;
      }
      if ncli == 0 && intena {
        iflag := true;
      }
      panics := false;
    }
  }
}
