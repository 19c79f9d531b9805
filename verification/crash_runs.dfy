/** What whole operations keep holds of the home blocks after a crash anywhere. */
module CrashRuns {
  import opened Blocks
  import opened LogProtocol
  import opened LogTheorems
  import opened LogRuns
  import A = AtomicDisk

  // ---- Operations in the history of a disk

  /** The writes i .. j - 1 are those of one operation. */
  ghost predicate WholeOp(ws: seq<A.Write>, i: nat, j: nat) {
    i < j <= |ws| && forall k :: 0 <= k < |ws| ==> (ws[k].op == ws[i].op <==> i <= k < j)
  }

  /** The writes of each operation are together. */
  ghost predicate Serial(ws: seq<A.Write>) {
    forall i, j, k :: 0 <= i < j < k < |ws| && ws[i].op == ws[k].op ==> ws[j].op == ws[i].op
  }

  /** No operation has writes before and after the first n. */
  ghost predicate Between(ws: seq<A.Write>, n: nat) {
    forall i, j :: 0 <= i < n <= j < |ws| ==> ws[i].op != ws[j].op
  }

  /** The writes that survive a crash. */
  function Kept(a: A.Disk): (ws: seq<A.Write>)
    requires a.mark <= |a.writes|
  {
    a.writes[..a.mark]
  }

  /** The contents after the first n of them. */
  function After(a: A.Disk, n: nat): (r: seq<Block>)
    requires A.Fits(a.base, a.writes) && n <= a.mark <= |a.writes|
  {
    A.Replay(a.base, a.writes[..n])
  }

  /** Every operation whose writes survive keeps `ok`; what others have written so far does not matter. */
  ghost predicate OpsKeep(a: A.Disk, ok: seq<Block> -> bool)
    requires A.Fits(a.base, a.writes) && a.mark <= |a.writes|
  {
    forall i: nat, j: nat :: WholeOp(Kept(a), i, j) && ok(After(a, i)) ==> ok(After(a, j))
  }

  /** The last operation before a point between operations. */
  lemma LastOp(ws: seq<A.Write>, n: nat) returns (m: nat)
    requires Serial(ws) && 0 < n <= |ws| && Between(ws, n)
    ensures m < n && WholeOp(ws, m, n) && Between(ws, m)
  {
    m := n - 1;
    while m > 0 && ws[m - 1].op == ws[n - 1].op
      invariant 0 <= m < n && forall k :: m <= k < n ==> ws[k].op == ws[n - 1].op
    {
      m := m - 1;
    }
    forall k | 0 <= k < m ensures ws[k].op != ws[n - 1].op {
      assert ws[m - 1].op != ws[n - 1].op;
    }
  }

  /** Between operations, `ok` holds. */
  lemma {:induction false} HoldsBetween(a: A.Disk, ok: seq<Block> -> bool, n: nat)
    requires A.Fits(a.base, a.writes) && a.mark <= |a.writes| && Serial(Kept(a)) && OpsKeep(a, ok) && ok(a.base)
    requires n <= a.mark && Between(Kept(a), n)
    ensures ok(After(a, n))
  {
    if n == 0 {
      assert a.writes[..0] == [];
    } else {
      var m := LastOp(Kept(a), n);
      HoldsBetween(a, ok, m);
    }
  }

  lemma SameBase(ghosts: seq<A.Disk>, es: seq<A.Event>, i: nat)
    requires A.IsRun(ghosts, es) && i < |ghosts|
    ensures ghosts[i].base == ghosts[0].base
  {
    for k := 0 to i
      invariant ghosts[k].base == ghosts[0].base
    {
      assert ghosts[k + 1] == A.Apply(ghosts[k], es[k]);
    }
  }

  /** What every whole operation of a serial history keeps holds of the home blocks after a crash
      anywhere in any run, and recovery. */
  lemma CrashKeepsAny(run: seq<State>, steps: seq<Step>, home: seq<Block>, i: nat,
                      rrun: seq<State>, rsteps: seq<Step>, r: State, ok: seq<Block> -> bool)
    returns (ghosts: seq<A.Disk>, es: seq<A.Event>)
    requires FromBoot(run, steps, home) && NoOverrun(run) && i < |run| && Recovers(run[i], rrun, rsteps, r)
    ensures Simulates(run, steps, ghosts, es) && A.IsRun(ghosts, es) && ghosts[0] == A.Start(home) && i < |ghosts|
    ensures A.Wf(ghosts[i]) && r.start <= |r.disk|
    ensures Serial(Kept(ghosts[i])) && OpsKeep(ghosts[i], ok) && ok(home) ==> ok(r.disk[..r.start])
  {
    ghosts, es := CrashedRun(run, steps, home, i, rrun, rsteps, r);
    SameBase(ghosts, es, i);
    var a := ghosts[i];
    if Serial(Kept(a)) && OpsKeep(a, ok) && ok(home) {
      HoldsBetween(a, ok, a.mark);
    }
  }
}
