/** What the log promises its callers (comment at the top of kernel/log.c): a
    disk whose operations become durable all at once or not at all.  The disk is
    a history of block writes, each tagged with the operation that made it; the
    first `mark` of them survive a crash. */
module AtomicDisk {
  import opened Blocks

  datatype Write = Write(op: nat, block: nat, data: Block)

  datatype Disk = Disk(base: seq<Block>, writes: seq<Write>, mark: nat, active: set<nat>, next: nat)

  datatype Event =
    | Begin
    | Put(op: nat, block: nat, data: Block)
    | End(op: nat)
    | Sync
    | Crash
    | Stutter

  predicate Fits(base: seq<Block>, writes: seq<Write>) {
    forall i :: 0 <= i < |writes| ==> writes[i].block < |base|
  }

  /** The contents after a sequence of writes. */
  function Replay(base: seq<Block>, writes: seq<Write>): (r: seq<Block>)
    requires Fits(base, writes)
    ensures |r| == |base|
  {
    if writes == [] then base
    else
      var w := writes[|writes| - 1];
      Replay(base, writes[..|writes| - 1])[w.block := w.data]
  }

  /** No operation has one write before the durable mark and one after it. */
  ghost predicate AllOrNothing(a: Disk)
  {
    forall i, j :: 0 <= i < a.mark <= j < |a.writes| ==> a.writes[i].op != a.writes[j].op
  }

  ghost predicate Wf(a: Disk) {
    && Fits(a.base, a.writes)
    && a.mark <= |a.writes|
    && (forall op :: op in a.active ==> op < a.next)
    && (forall i :: 0 <= i < |a.writes| ==> a.writes[i].op < a.next)
    && (forall i :: 0 <= i < a.mark ==> a.writes[i].op !in a.active)
    && AllOrNothing(a)
  }

  function Current(a: Disk): (r: seq<Block>)
    requires Fits(a.base, a.writes)
    ensures |r| == |a.base|
  {
    Replay(a.base, a.writes)
  }

  function Durable(a: Disk): (r: seq<Block>)
    requires Fits(a.base, a.writes) && a.mark <= |a.writes|
    ensures |r| == |a.base|
  {
    Replay(a.base, a.writes[..a.mark])
  }

  predicate Allowed(a: Disk, e: Event) {
    match e
    case Begin => true
    case Put(op, block, _) => op in a.active && block < |a.base|
    case End(op) => op in a.active
    case Sync => a.active == {}
    case Crash => a.mark <= |a.writes|
    case Stutter => true
  }

  function Apply(a: Disk, e: Event): (r: Disk)
    requires Allowed(a, e)
  {
    match e
    case Begin => a.(active := a.active + {a.next}, next := a.next + 1)
    case Put(op, block, data) => a.(writes := a.writes + [Write(op, block, data)])
    case End(op) => a.(active := a.active - {op})
    case Sync => a.(mark := |a.writes|)
    case Crash => a.(writes := a.writes[..a.mark], active := {})
    case Stutter => a
  }

  lemma ApplyWf(a: Disk, e: Event)
    requires Wf(a) && Allowed(a, e)
    ensures Wf(Apply(a, e))
  {
  }

  /** How each event moves the current and the durable contents. */
  lemma ApplyContents(a: Disk, e: Event)
    requires Wf(a) && Allowed(a, e)
    ensures Wf(Apply(a, e))
    ensures Current(Apply(a, e)) ==
            match e {
              case Put(_, block, data) => Current(a)[block := data]
              case Crash => Durable(a)
              case _ => Current(a)
            }
    ensures Durable(Apply(a, e)) == if e.Sync? then Current(a) else Durable(a)
  {
    var r := Apply(a, e);
    match e {
      case Put(_, _, _) =>
        assert r.writes[..|r.writes| - 1] == a.writes;
        assert r.writes[..r.mark] == a.writes[..a.mark];
      case Sync =>
        assert r.writes[..r.mark] == a.writes;
      case Crash =>
        assert r.writes[..r.mark] == a.writes[..a.mark];
      case _ =>
    }
  }

  function Start(base: seq<Block>): (a: Disk) {
    Disk(base, [], 0, {}, 0)
  }

  /** A run: `run[i+1]` is `run[i]` after event `es[i]`. */
  ghost predicate IsRun(run: seq<Disk>, es: seq<Event>) {
    && |run| == |es| + 1
    && forall i :: 0 <= i < |es| ==> Allowed(run[i], es[i]) && run[i + 1] == Apply(run[i], es[i])
  }

  /** In every run, what survives a crash holds each operation whole or not at
      all, and only operations that had ended. */
  lemma RunsAreAtomic(run: seq<Disk>, es: seq<Event>, i: nat)
    requires IsRun(run, es) && Wf(run[0]) && i < |run|
    ensures Wf(run[i]) && AllOrNothing(run[i])
    ensures forall j :: 0 <= j < run[i].mark ==> run[i].writes[j].op !in run[i].active
  {
    for k := 0 to i
      invariant Wf(run[k])
    {
      assert Allowed(run[k], es[k]);
      ApplyWf(run[k], es[k]);
    }
  }
}
