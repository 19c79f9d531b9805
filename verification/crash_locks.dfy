/** Operations whose writes interleave in the log, as those of concurrent calls do: each changes only
    places that it holds, and lets go of a place once the home blocks hold there what it has done.
    What the effects of the operations keep then holds of the home blocks after a crash anywhere. */
module CrashLocks {
  import opened Blocks
  import opened LogProtocol
  import opened LogTheorems
  import opened LogRuns
  import A = AtomicDisk

  /** How home blocks read as a state S with places L; what an operation may do to the state, given
      what each operation under way owes; and what one that owes nothing owes. */
  datatype Rules<!S, !L, !V, !G> = Rules(view: seq<Block> -> S, at: (S, L) -> V,
                                         may: (S, map<nat, G>, nat, S, G) -> bool, none: G)

  /** The state that the effects so far make, and what the operations under way hold and owe. */
  datatype Book<S, L, G> = Book(state: S, holds: map<nat, set<L>>, owes: map<nat, G>)

  /** What an operation does between its writes: take a place, let go of one, or have an effect. */
  datatype Move<S, L, G> = Take(op: nat, l: L) | Drop(op: nat, l: L) | Act(op: nat, state: S, owe: G)

  // ---- The discipline

  ghost predicate SameOff<S, L(!new), V, G>(r: Rules<S, L, V, G>, s: S, s': S, held: set<L>) {
    forall l: L :: l !in held ==> r.at(s', l) == r.at(s, l)
  }

  /** Whether the move is in order where the home blocks read as c. */
  ghost predicate MayMove<S, L(!new), V, G>(r: Rules<S, L, V, G>, c: S, b: Book<S, L, G>, m: Move<S, L, G>) {
    && m.op in b.holds && m.op in b.owes
    && match m
       case Take(_, _) => true
       case Drop(_, l) => r.at(c, l) == r.at(b.state, l)
       case Act(op, s, g) => r.may(b.state, b.owes, op, s, g) && SameOff(r, b.state, s, b.holds[op])
  }

  function Moved<S, L, G>(b: Book<S, L, G>, m: Move<S, L, G>): (r: Book<S, L, G>)
    requires m.op in b.holds
  {
    match m
    case Take(op, l) => b.(holds := b.holds[op := b.holds[op] + {l}])
    case Drop(op, l) => b.(holds := b.holds[op := b.holds[op] - {l}])
    case Act(op, s, g) => b.(state := s, owes := b.owes[op := g])
  }

  /** A sequence of moves. */
  ghost predicate MovesTo<S, L(!new), V, G>(r: Rules<S, L, V, G>, c: S, b: Book<S, L, G>, ms: seq<Move<S, L, G>>,
      b': Book<S, L, G>)
    decreases |ms|
  {
    if ms == [] then b' == b
    else MayMove(r, c, b, ms[0]) && MovesTo(r, c, Moved(b, ms[0]), ms[1..], b')
  }

  /** Writes are to held places; an operation ends when it owes nothing and its places are written. */
  ghost predicate MayHappen<S, L(!new), V, G>(r: Rules<S, L, V, G>, a: A.Disk, e: A.Event, b: Book<S, L, G>)
    requires A.Wf(a) && A.Allowed(a, e)
  {
    match e
    case Put(op, block, data) =>
      op in b.holds && SameOff(r, r.view(A.Current(a)), r.view(A.Current(a)[block := data]), b.holds[op])
    case End(op) =>
      && op in b.holds && op in b.owes && b.owes[op] == r.none
      && forall l: L :: l in b.holds[op] ==> r.at(r.view(A.Current(a)), l) == r.at(b.state, l)
    case _ => true
  }

  /** A crash leaves the durable state and no operation. */
  function Happened<S, L, V, G>(r: Rules<S, L, V, G>, a: A.Disk, e: A.Event, b: Book<S, L, G>): (b': Book<S, L, G>)
    requires A.Fits(a.base, a.writes) && a.mark <= |a.writes|
  {
    match e
    case Begin => b.(holds := b.holds[a.next := {}], owes := b.owes[a.next := r.none])
    case End(op) => b.(holds := b.holds - {op}, owes := b.owes - {op})
    case Crash => Book(r.view(A.Durable(a)), map[], map[])
    case _ => b
  }

  /** One event of the disk, after some moves. */
  ghost predicate Follows<S(!new), L(!new), V, G(!new)>(r: Rules<S, L, V, G>, a: A.Disk, e: A.Event, b: Book<S, L, G>,
      ms: seq<Move<S, L, G>>, b': Book<S, L, G>) {
    && A.Wf(a) && A.Allowed(a, e)
    && exists mid ::
         MovesTo(r, r.view(A.Current(a)), b, ms, mid) && MayHappen(r, a, e, mid) && b' == Happened(r, a, e, mid)
  }

  /** The first n events of a run of the disk, with a book for every state. */
  ghost predicate Booked<S(!new), L(!new), V, G(!new)>(r: Rules<S, L, V, G>, ghosts: seq<A.Disk>, es: seq<A.Event>,
      books: seq<Book<S, L, G>>, moves: seq<seq<Move<S, L, G>>>, n: nat) {
    && n < |ghosts| && n <= |es| && n < |books| && n <= |moves|
    && books[0] == Book(r.view(ghosts[0].base), map[], map[])
    && forall k :: 0 <= k < n ==> Follows(r, ghosts[k], es[k], books[k], moves[k], books[k + 1])
  }

  // ---- What it keeps

  /** States that are the same at every place are as good, and beginning, acting and ending keep ok. */
  ghost predicate Lawful<S(!new), L(!new), V, G(!new)>(r: Rules<S, L, V, G>, ok: (S, map<nat, G>) -> bool) {
    && (forall s: S, s': S, w: map<nat, G> :: ok(s, w) && SameOff(r, s, s', {}) ==> ok(s', w))
    && (forall s: S, w: map<nat, G>, op: nat :: ok(s, w) && op !in w ==> ok(s, w[op := r.none]))
    && (forall s: S, w: map<nat, G>, op: nat :: ok(s, w) && op in w && w[op] == r.none ==> ok(s, w - {op}))
    && (forall s: S, w: map<nat, G>, op: nat, s': S, g: G ::
          ok(s, w) && op in w && r.may(s, w, op, s', g) ==> ok(s', w[op := g]))
  }

  /** The home blocks differ from the state at held places only. */
  ghost predicate Agrees<S, L(!new), V, G>(r: Rules<S, L, V, G>, c: S, b: Book<S, L, G>) {
    forall l: L :: r.at(c, l) != r.at(b.state, l) ==> exists op :: op in b.holds && l in b.holds[op]
  }

  ghost predicate BookOk<S, L(!new), V, G>(r: Rules<S, L, V, G>, ok: (S, map<nat, G>) -> bool, c: S, active: set<nat>,
      b: Book<S, L, G>) {
    b.holds.Keys == active && b.owes.Keys == active && Agrees(r, c, b) && ok(b.state, b.owes)
  }

  lemma MoveKeeps<S(!new), L(!new), V, G(!new)>(r: Rules<S, L, V, G>, ok: (S, map<nat, G>) -> bool, c: S,
      active: set<nat>, b: Book<S, L, G>, m: Move<S, L, G>)
    requires Lawful(r, ok) && BookOk(r, ok, c, active, b) && MayMove(r, c, b, m)
    ensures BookOk(r, ok, c, active, Moved(b, m))
  {
    var b' := Moved(b, m);
    forall l: L | r.at(c, l) != r.at(b'.state, l) ensures exists op :: op in b'.holds && l in b'.holds[op] {
      if r.at(c, l) != r.at(b.state, l) {
        var op :| op in b.holds && l in b.holds[op];
        assert op in b'.holds && l in b'.holds[op];
      } else {
        assert l in b'.holds[m.op];
      }
    }
  }

  lemma {:induction false} MovesKeep<S(!new), L(!new), V, G(!new)>(r: Rules<S, L, V, G>,
      ok: (S, map<nat, G>) -> bool, c: S, active: set<nat>, b: Book<S, L, G>, ms: seq<Move<S, L, G>>, b': Book<S, L, G>)
    requires Lawful(r, ok) && BookOk(r, ok, c, active, b) && MovesTo(r, c, b, ms, b')
    ensures BookOk(r, ok, c, active, b')
    decreases |ms|
  {
    if ms != [] {
      MoveKeeps(r, ok, c, active, b, ms[0]);
      MovesKeep(r, ok, c, active, Moved(b, ms[0]), ms[1..], b');
    }
  }

  /** With no operation under way the home blocks read as a state that is as good. */
  lemma QuietReads<S(!new), L(!new), V, G(!new)>(r: Rules<S, L, V, G>, ok: (S, map<nat, G>) -> bool, c: S,
      b: Book<S, L, G>)
    requires Lawful(r, ok) && BookOk(r, ok, c, {}, b)
    ensures ok(c, map[])
  {
    assert SameOff(r, b.state, c, {});
    assert b.owes == map[];
  }

  lemma BeginKeeps<S(!new), L(!new), V, G(!new)>(r: Rules<S, L, V, G>, ok: (S, map<nat, G>) -> bool, a: A.Disk,
      b: Book<S, L, G>)
    requires Lawful(r, ok) && A.Wf(a) && BookOk(r, ok, r.view(A.Current(a)), a.active, b)
    ensures BookOk(r, ok, r.view(A.Current(a)), a.active + {a.next}, Happened(r, a, A.Begin, b))
  {
    var b' := Happened(r, a, A.Begin, b);
    assert a.next !in b.holds;
    forall l: L | r.at(r.view(A.Current(a)), l) != r.at(b'.state, l)
      ensures exists op :: op in b'.holds && l in b'.holds[op] {
      var op :| op in b.holds && l in b.holds[op];
      assert op in b'.holds && l in b'.holds[op];
    }
  }

  lemma EndKeeps<S(!new), L(!new), V, G(!new)>(r: Rules<S, L, V, G>, ok: (S, map<nat, G>) -> bool, a: A.Disk, op: nat,
      b: Book<S, L, G>)
    requires Lawful(r, ok) && A.Wf(a) && op in a.active && MayHappen(r, a, A.End(op), b)
    requires BookOk(r, ok, r.view(A.Current(a)), a.active, b)
    ensures BookOk(r, ok, r.view(A.Current(a)), a.active - {op}, Happened(r, a, A.End(op), b))
  {
    var b' := Happened(r, a, A.End(op), b);
    forall l: L | r.at(r.view(A.Current(a)), l) != r.at(b'.state, l)
      ensures exists p :: p in b'.holds && l in b'.holds[p] {
      var p :| p in b.holds && l in b.holds[p];
      assert p in b'.holds && l in b'.holds[p];
    }
  }

  lemma EventKeeps<S(!new), L(!new), V, G(!new)>(r: Rules<S, L, V, G>, ok: (S, map<nat, G>) -> bool, a: A.Disk,
      e: A.Event, b: Book<S, L, G>)
    requires Lawful(r, ok) && A.Wf(a) && A.Allowed(a, e) && MayHappen(r, a, e, b)
    requires BookOk(r, ok, r.view(A.Current(a)), a.active, b) && ok(r.view(A.Durable(a)), map[])
    ensures var a' := A.Apply(a, e);
      A.Wf(a') && ok(r.view(A.Durable(a')), map[]) &&
        BookOk(r, ok, r.view(A.Current(a')), a'.active, Happened(r, a, e, b))
  {
    A.ApplyContents(a, e);
    match e
    case Begin => BeginKeeps(r, ok, a, b);
    case End(op) => EndKeeps(r, ok, a, op, b);
    case Sync => QuietReads(r, ok, r.view(A.Current(a)), b);
    case _ =>
  }

  lemma FollowKeeps<S(!new), L(!new), V, G(!new)>(r: Rules<S, L, V, G>, ok: (S, map<nat, G>) -> bool, a: A.Disk,
      e: A.Event, b: Book<S, L, G>, ms: seq<Move<S, L, G>>, b': Book<S, L, G>)
    requires Lawful(r, ok) && Follows(r, a, e, b, ms, b')
    requires BookOk(r, ok, r.view(A.Current(a)), a.active, b) && ok(r.view(A.Durable(a)), map[])
    ensures var a' := A.Apply(a, e);
      A.Wf(a') && ok(r.view(A.Durable(a')), map[]) && BookOk(r, ok, r.view(A.Current(a')), a'.active, b')
  {
    var mid :| MovesTo(r, r.view(A.Current(a)), b, ms, mid) && MayHappen(r, a, e, mid) && b' == Happened(r, a, e, mid);
    MovesKeep(r, ok, r.view(A.Current(a)), a.active, b, ms, mid);
    EventKeeps(r, ok, a, e, mid);
  }

  /** In every run that keeps the discipline, the durable state is always right. */
  lemma DurableOk<S(!new), L(!new), V, G(!new)>(r: Rules<S, L, V, G>, ok: (S, map<nat, G>) -> bool,
      ghosts: seq<A.Disk>, es: seq<A.Event>, books: seq<Book<S, L, G>>, moves: seq<seq<Move<S, L, G>>>,
        home: seq<Block>,
      i: nat)
    requires Lawful(r, ok) && A.IsRun(ghosts, es) && ghosts[0] == A.Start(home) && ok(r.view(home), map[])
    requires Booked(r, ghosts, es, books, moves, i)
    ensures A.Wf(ghosts[i]) && ok(r.view(A.Durable(ghosts[i])), map[])
  {
    assert A.Wf(ghosts[0]) && A.Current(ghosts[0]) == home && A.Durable(ghosts[0]) == home;
    for k := 0 to i
      invariant A.Wf(ghosts[k]) && ok(r.view(A.Durable(ghosts[k])), map[])
      invariant BookOk(r, ok, r.view(A.Current(ghosts[k])), ghosts[k].active, books[k])
    {
      assert ghosts[k + 1] == A.Apply(ghosts[k], es[k]);
      FollowKeeps(r, ok, ghosts[k], es[k], books[k], moves[k], books[k + 1]);
    }
  }

  /** Crash anywhere in a run of the machine whose operations keep the discipline, and recover: the
      home blocks read as a right state, whatever operations were cut off. */
  lemma CrashKeepsLocked<S(!new), L(!new), V, G(!new)>(rules: Rules<S, L, V, G>, ok: (S, map<nat, G>) -> bool,
      run: seq<State>, steps: seq<Step>, home: seq<Block>, i: nat, rrun: seq<State>, rsteps: seq<Step>, r: State)
    returns (ghosts: seq<A.Disk>, es: seq<A.Event>)
    requires FromBoot(run, steps, home) && NoOverrun(run) && i < |run| && Recovers(run[i], rrun, rsteps, r)
    requires Lawful(rules, ok) && ok(rules.view(home), map[])
    ensures Simulates(run, steps, ghosts, es) && A.IsRun(ghosts, es) && ghosts[0] == A.Start(home)
    ensures forall books, moves :: Booked(rules, ghosts, es, books, moves, i) ==>
      r.start <= |r.disk| && ok(rules.view(r.disk[..r.start]), map[])
  {
    ghosts, es := CrashedRun(run, steps, home, i, rrun, rsteps, r);
    forall books, moves | Booked(rules, ghosts, es, books, moves, i)
      ensures ok(rules.view(r.disk[..r.start]), map[]) {
      DurableOk(rules, ok, ghosts, es, books, moves, home, i);
    }
  }
}
