/** Runs of the log that fail although every operation keeps within a budget: the bounds of
    LogBudget cannot be improved. */
module LogReach {
  import opened Common
  import opened Blocks
  import opened LogHeader
  import opened LogProtocol
  import opened LogSafety
  import opened LogTheorems
  import opened LogBudget

  ghost predicate RunTo(run: seq<State>, steps: seq<Step>, s0: State, s: State, budget: nat) {
    && IsRun(run, steps) && run[0] == s0 && run[|run| - 1] == s
    && forall i :: 0 <= i < |run| ==> Within(run[i].ops, budget)
  }

  /** Some run from s0 to s keeps every operation within `budget`. */
  ghost predicate Reachable(s0: State, s: State, budget: nat) {
    exists run, steps :: RunTo(run, steps, s0, s, budget)
  }

  lemma ReachStart(s: State, budget: nat)
    requires Within(s.ops, budget)
    ensures Reachable(s, s, budget)
  {
    assert RunTo([s], [], s, s, budget);
  }

  lemma ReachStep(s0: State, s: State, step: Step, budget: nat)
    requires Reachable(s0, s, budget) && Enabled(s, step) && Within(Do(s, step).ops, budget)
    ensures Reachable(s0, Do(s, step), budget)
  {
    var run, steps :| RunTo(run, steps, s0, s, budget);
    var run', steps' := run + [Do(s, step)], steps + [step];
    assert Next(s, step, Do(s, step));
    assert RunTo(run', steps', s0, Do(s, step), budget);
  }

  /** Of two processes the first is in an operation, blocks 0 .. n-1 are logged and cached,
      and no buffer is held. */
  ghost predicate Filling(s: State, n: nat) {
    && s.phase == Running && !s.committing && |s.ops| == 2 && s.ops[0].Active?
    && s.outstanding == (if s.ops[1].Active? then 2 else 1)
    && (forall p :: 0 <= p < 2 && s.ops[p].Active? ==> forall b :: b in s.ops[p].logged ==> b < n)
    && |s.lh| == n && (forall i :: 0 <= i < n ==> s.lh[i] == i)
    && s.holder == map[] && s.unlogged == {} && s.passed == {}
    && s.cache.busy == {} && s.cache.dirty == Elems(s.lh)
    && (forall b :: b in s.cache.data ==> b < n || b == s.start) && (forall b :: 0 <= b < n ==> b in s.cache.data)
    && LOGSIZE + 1 < s.start < |s.disk|
  }

  lemma {:induction false} KeysBelow(x: set<nat>, n: nat)
    requires forall b :: b in x ==> b < n
    ensures |x| <= n
  {
    if n == 0 {
      assert x == {};
    } else {
      KeysBelow(x - {n - 1}, n - 1);
    }
  }

  lemma NextCached(c: Cache, disk: seq<Block>, start: nat, n: nat, m: nat) returns (c': Cache)
    requires n < m <= c.cap && n < |disk| && n !in c.busy && n !in c.data && start !in c.dirty && start !in c.busy
    requires forall b :: b in c.data ==> b < |disk| && (b < m || b == start)
    requires n != start
    ensures Breads(c, disk, {n}, c') && c' == c.(data := (c.data - {start})[n := disk[n]], busy := c.busy + {n})
  {
    c' := c.(data := (c.data - {start})[n := disk[n]], busy := c.busy + {n});
    KeysBelow(c'.data.Keys, m);
  }

  /** bread of the next block, which is not cached. */
  lemma BreadNext(s: State, n: nat, p: nat, m: nat) returns (step: Step, r: State)
    requires s.phase == Running && p < |s.ops| && !InLogWrite(s, p) && n < m <= s.cache.cap && n < s.start < |s.disk|
    requires n !in s.cache.busy && n !in s.cache.data && s.start !in s.cache.dirty && s.start !in s.cache.busy
    requires forall b :: b in s.cache.data ==> b < |s.disk| && (b < m || b == s.start)
    ensures Enabled(s, step) && r == Do(s, step)
    ensures r == s.(cache := s.cache.(data := (s.cache.data - {s.start})[n := s.disk[n]], busy := s.cache.busy + {n}),
                    holder := s.holder[n := p])
  {
    var c := NextCached(s.cache, s.disk, s.start, n, m);
    step := Bread(p, n, c);
    r := Do(s, step);
  }

  lemma LogIt(s: State, n: nat, p: nat) returns (r: State)
    requires s.holder == map[n := p] && s.unlogged == {} && s.passed == {} && n in s.cache.data && n !in s.lh
    requires InOp(s, p) && !LogWritePanics(s)
    ensures Enabled(s, LogTest(p, n)) && Enabled(Do(s, LogTest(p, n)), LogWrite(p, n))
    ensures r == Do(Do(s, LogTest(p, n)), LogWrite(p, n))
    ensures r == s.(lh := s.lh + [n], cache := s.cache.(dirty := s.cache.dirty + {n}),
                    ops := s.ops[p := s.ops[p].(logged := s.ops[p].logged + {n})])
  {
    r := Do(Do(s, LogTest(p, n)), LogWrite(p, n));
    assert s.unlogged - {n} == {} && s.passed + {n} - {n} == {};
  }

  lemma ReleaseIt(s: State, n: nat, p: nat) returns (r: State)
    requires s.holder == map[n := p] && s.unlogged == {} && s.passed == {} && s.cache.busy == {n}
    ensures Enabled(s, Brelse(p, n)) && r == Do(s, Brelse(p, n))
    ensures r == s.(cache := s.cache.(busy := {}), holder := map[])
  {
    r := Do(s, Brelse(p, n));
    assert s.holder - {n} == map[];
    assert s.cache.busy - {n} == {};
  }

  /** Where bread, log_write and brelse of block n by operation p lead. */
  function WithOneMore(s: State, n: nat, p: nat): (r: State)
    requires n < |s.disk| && InOp(s, p)
  {
    s.(lh := s.lh + [n],
       cache := s.cache.(data := (s.cache.data - {s.start})[n := s.disk[n]], dirty := s.cache.dirty + {n}, busy := {}),
       ops := s.ops[p := s.ops[p].(logged := s.ops[p].logged + {n})])
  }

  /** State s after bread of block n by process p. */
  function Held(s: State, n: nat, p: nat): (r: State)
    requires n < |s.disk|
  {
    s.(cache := s.cache.(data := (s.cache.data - {s.start})[n := s.disk[n]], busy := {n}), holder := map[n := p])
  }

  lemma ReachHeld(s0: State, s: State, n: nat, p: nat, budget: nat)
    requires Reachable(s0, s, budget) && Within(s.ops, budget) && Filling(s, n) && p < 2 && n <= LOGSIZE &&
      n < s.cache.cap
    ensures Reachable(s0, Held(s, n, p), budget)
  {
    var step, s1 := BreadNext(s, n, p, n + 1);
    ReachStep(s0, s, step, budget);
    assert s.holder[n := p] == map[n := p] && s.cache.busy + {n} == {n};
    assert s1 == Held(s, n, p);
  }

  lemma ReachLogged(s0: State, s: State, n: nat, p: nat, budget: nat) returns (r: State)
    requires Reachable(s0, s, budget) && Within(s.ops, budget) && !LogWritePanics(s)
    requires s.holder == map[n := p] && s.unlogged == {} && s.passed == {} && n in s.cache.data && n !in s.lh
    requires InOp(s, p) && |s.ops[p].logged| < budget
    ensures Reachable(s0, r, budget) && Within(r.ops, budget)
    ensures r == s.(lh := s.lh + [n], cache := s.cache.(dirty := s.cache.dirty + {n}),
                    ops := s.ops[p := s.ops[p].(logged := s.ops[p].logged + {n})])
  {
    r := LogIt(s, n, p);
    ReachStep(s0, s, LogTest(p, n), budget);
    ReachStep(s0, Do(s, LogTest(p, n)), LogWrite(p, n), budget);
  }

  lemma FourSteps(s0: State, s: State, n: nat, p: nat, budget: nat)
    requires Reachable(s0, s, budget) && Within(s.ops, budget) && Filling(s, n) && InOp(s, p)
    requires n < Limit(s.size) && n < s.cache.cap && |s.ops[p].logged| < budget
    ensures Reachable(s0, WithOneMore(s, n, p), budget) && Within(WithOneMore(s, n, p).ops, budget)
  {
    ReachHeld(s0, s, n, p, budget);
    var s3 := ReachLogged(s0, Held(s, n, p), n, p, budget);
    var s4 := ReleaseIt(s3, n, p);
    ReachStep(s0, s3, Brelse(p, n), budget);
    assert s4 == WithOneMore(s, n, p);
  }

  /** What stays the same while the header fills up. */
  ghost predicate SameMachine(s: State, r: State) {
    r.size == s.size && r.start == s.start && r.cache.cap == s.cache.cap && r.disk == s.disk
  }

  lemma LogOneMore(s0: State, s: State, n: nat, p: nat, budget: nat) returns (r: State)
    requires Reachable(s0, s, budget) && Within(s.ops, budget) && Filling(s, n) && InOp(s, p)
    requires n < Limit(s.size) && n < s.cache.cap && |s.ops[p].logged| < budget
    ensures Reachable(s0, r, budget) && Within(r.ops, budget) && Filling(r, n + 1) && SameMachine(s, r) && InOp(r, p)
    ensures |r.ops[p].logged| == |s.ops[p].logged| + 1 && r.ops[1 - p] == s.ops[1 - p]
  {
    FourSteps(s0, s, n, p, budget);
    r := WithOneMore(s, n, p);
    assert Elems(s.lh + [n]) == Elems(s.lh) + {n};
  }

  lemma FillBy(s0: State, s: State, n: nat, p: nat, k: nat, budget: nat) returns (r: State)
    requires Reachable(s0, s, budget) && Within(s.ops, budget) && Filling(s, n) && InOp(s, p)
    requires n + k <= Limit(s.size) && n + k <= s.cache.cap && |s.ops[p].logged| + k <= budget
    ensures Reachable(s0, r, budget) && Within(r.ops, budget) && Filling(r, n + k) && SameMachine(s, r) && InOp(r, p)
    ensures |r.ops[p].logged| == |s.ops[p].logged| + k && r.ops[1 - p] == s.ops[1 - p]
  {
    r := s;
    for i := 0 to k
      invariant Reachable(s0, r, budget) && Within(r.ops, budget) && Filling(r, n + i) && SameMachine(s, r) &&
        InOp(r, p)
      invariant |r.ops[p].logged| == |s.ops[p].logged| + i && r.ops[1 - p] == s.ops[1 - p]
    {
      r := LogOneMore(s0, r, n + i, p, budget);
    }
  }

  /** The second process begins an operation, which needs a header of at most MAXOPBLOCKS blocks. */
  lemma BeginSecond(s0: State, s: State, n: nat, budget: nat) returns (r: State)
    requires Reachable(s0, s, budget) && Within(s.ops, budget) && Filling(s, n) && s.ops[1].Idle? && n <= MAXOPBLOCKS
    ensures Reachable(s0, r, budget) && Within(r.ops, budget) && Filling(r, n) && SameMachine(s, r)
    ensures InOp(r, 1) && r.ops[1].logged == {} && r.ops[0] == s.ops[0]
  {
    r := Do(s, BeginOp(1));
    ReachStep(s0, s, BeginOp(1), budget);
  }

  lemma EndSecond(s0: State, s: State, n: nat, budget: nat) returns (r: State)
    requires Reachable(s0, s, budget) && Within(s.ops, budget) && Filling(s, n) && s.ops[1].Active?
    ensures Reachable(s0, r, budget) && Within(r.ops, budget) && Filling(r, n) && SameMachine(s, r)
    ensures r.ops[1].Idle? && r.ops[0] == s.ops[0] && r.cache == s.cache && r.lh == s.lh
  {
    r := Do(s, EndOp(1));
    ReachStep(s0, s, EndOp(1), budget);
  }

  /** While the first operation is under way, the second process runs k operations of one block. */
  lemma ShortOps(s0: State, s: State, k: nat, budget: nat) returns (r: State)
    requires Reachable(s0, s, budget) && Within(s.ops, budget) && Filling(s, 0) && s.ops[1].Idle? && budget >= 1
    requires k <= MAXOPBLOCKS && k <= Limit(s.size) && k <= s.cache.cap
    ensures Reachable(s0, r, budget) && Within(r.ops, budget) && Filling(r, k) && SameMachine(s, r)
    ensures r.ops[1].Idle? && r.ops[0] == s.ops[0]
  {
    r := s;
    for i := 0 to k
      invariant Reachable(s0, r, budget) && Within(r.ops, budget) && Filling(r, i) && SameMachine(s, r)
      invariant r.ops[1].Idle? && r.ops[0] == s.ops[0]
    {
      r := BeginSecond(s0, r, i, budget);
      r := LogOneMore(s0, r, i, 1, budget);
      r := EndSecond(s0, r, i + 1, budget);
    }
  }

  /** Recovery from an empty log takes two transfers. */
  lemma BootUp(start: nat, size: nat, disk: seq<Block>, cap: nat, budget: nat) returns (s: State)
    requires |disk| == start + size && size >= 1 && Decode(disk[start]) == [] && cap >= 1
    ensures Reachable(Boot(start, size, disk, 2, cap), s, budget) && Within(s.ops, budget)
    ensures s == Boot(start, size, disk, 2, cap).(cache := s.cache, phase := Running)
    ensures s.cache.dirty == {} && s.cache.busy == {} && s.cache.cap == cap && s.cache.data.Keys == {start}
  {
    var s0 := Boot(start, size, disk, 2, cap);
    ReachStart(s0, budget);
    var c := Cache(map[start := disk[start]], {}, {start}, cap);
    var step := LogIO(c, disk[start]);
    assert Breads(s0.cache, s0.disk, {start}, c);
    ReachStep(s0, s0, step, budget);
    var s1 := Do(s0, step);
    assert s1 == s0.(cache := c.(busy := {}), phase := ClearHead(true));
    assert Breads(s1.cache, s1.disk, {start}, c);
    ReachStep(s0, s1, step, budget);
    s := Do(s1, step);
    assert s.disk == disk;
  }

  /** A machine with an empty log and more home blocks than log entries. */
  ghost predicate Machine(start: nat, size: nat, disk: seq<Block>, cap: nat) {
    LOGSIZE + 1 < start && |disk| == start + size && size >= 2 && Decode(disk[start]) == [] && cap >= 1
  }

  /** Two operations under way, n blocks listed, of which they logged all but MAXOPBLOCKS. */
  lemma Filled(start: nat, size: nat, disk: seq<Block>, cap: nat, n: nat, u: nat, v: nat,
      budget: nat) returns (s: State)
    requires Machine(start, size, disk, cap) && budget >= 1 && u <= budget && v <= budget
    requires n <= MAXOPBLOCKS + u + v && n <= Limit(size) && n <= cap
    ensures Reachable(Boot(start, size, disk, 2, cap), s, budget) && Within(s.ops, budget) && Filling(s, n)
    ensures InOp(s, 1) && |s.ops[0].logged| <= u && |s.ops[1].logged| <= v && s.size == size && s.cache.cap == cap
  {
    var s0 := Boot(start, size, disk, 2, cap);
    s := BootUp(start, size, disk, cap, budget);
    ReachStep(s0, s, BeginOp(0), budget);
    s := Do(s, BeginOp(0));
    assert Elems([]) == {};
    var k := if n < MAXOPBLOCKS then n else MAXOPBLOCKS;
    s := ShortOps(s0, s, k, budget);
    s := BeginSecond(s0, s, k, budget);
    var x := if n - k < u then n - k else u;
    s := FillBy(s0, s, k, 0, x, budget);
    s := FillBy(s0, s, k + x, 1, n - k - x, budget);
  }

  // ---- The failures

  lemma FirstCached(c: Cache, disk: seq<Block>, start: nat, n: nat) returns (c': Cache)
    requires 0 < n <= c.cap && n <= start < |disk| && 0 in c.data && c.busy == {} && start !in c.dirty
    requires forall b :: b in c.data ==> b < n || b == start
    ensures Breads(c, disk, {0}, c')
  {
    c' := c.(data := map b | b in c.data && b != start :: c.data[b], busy := {0});
    KeysBelow(c'.data.Keys, n);
  }

  /** The second process reads a block that is listed. */
  lemma HoldFirst(s0: State, s: State, n: nat, budget: nat) returns (r: State)
    requires Reachable(s0, s, budget) && Within(s.ops, budget) && Filling(s, n) && 0 < n <= s.cache.cap && n <= LOGSIZE
    ensures Reachable(s0, r, budget) && Holds(r, 1, 0) && r == s.(cache := r.cache, holder := r.holder)
  {
    var c := FirstCached(s.cache, s.disk, s.start, n);
    assert !InLogWrite(s, 1);
    ReachStep(s0, s, Bread(1, 0, c), budget);
    r := Do(s, Bread(1, 0, c));
  }

  /** log_write panics in an operation that has logged fewer blocks than its budget. */
  lemma PanicReachable(start: nat, size: nat, disk: seq<Block>, cap: nat, budget: nat) returns (s: State)
    requires Machine(start, size, disk, cap) && budget >= 1
    requires Top(budget) > Limit(size) && cap >= Limit(size)
    ensures Reachable(Boot(start, size, disk, 2, cap), s, budget)
    ensures InOp(s, 1) && |s.ops[1].logged| < budget && Holds(s, 1, 0) && LogWritePanics(s)
  {
    var s1 := Filled(start, size, disk, cap, Limit(size), budget, budget - 1, budget);
    s := HoldFirst(Boot(start, size, disk, 2, cap), s1, Limit(size), budget);
  }

  /** It also panics when a block is logged again by an operation that has used its budget up. */
  lemma PanicAgainReachable(start: nat, size: nat, disk: seq<Block>, cap: nat, budget: nat) returns (s: State)
    requires Machine(start, size, disk, cap) && budget >= 1
    requires Top(budget) >= Limit(size) && cap >= Limit(size)
    ensures Reachable(Boot(start, size, disk, 2, cap), s, budget)
    ensures InOp(s, 1) && |s.ops[1].logged| <= budget && LogWritePanics(s)
  {
    s := Filled(start, size, disk, cap, Limit(size), budget, budget, budget);
  }

  /** Two processes hold one block each, neither of which is listed. */
  ghost predicate BothHold(s: State, n: nat) {
    && s.holder == map[n := 0, n + 1 := 1] && s.passed == {} && s.unlogged == {}
    && n in s.cache.data && n + 1 in s.cache.data && n !in s.lh && n + 1 !in s.lh && InOp(s, 0) && InOp(s, 1)
  }

  lemma HoldNext(s0: State, s: State, n: nat, budget: nat) returns (r: State)
    requires Reachable(s0, s, budget) && Within(s.ops, budget) && s.phase == Running && |s.ops| == 2 && InOp(s, 0) &&
      InOp(s, 1)
    requires s.holder == map[n := 0] && s.passed == {} && s.unlogged == {} && s.cache.busy == {n} &&
      n + 2 <= s.cache.cap
    requires n + 1 < s.start < |s.disk| && n in s.cache.data && s.start !in s.cache.dirty
    requires (forall b :: b in s.cache.data ==> b <= n) && n !in s.lh && n + 1 !in s.lh
    ensures Reachable(s0, r, budget) && BothHold(r, n) && r == s.(cache := r.cache, holder := r.holder)
  {
    var step, s1 := BreadNext(s, n + 1, 1, n + 2);
    ReachStep(s0, s, step, budget);
    r := s1;
    assert s.holder[n + 1 := 1] == map[n := 0, n + 1 := 1];
  }

  lemma HoldBoth(s0: State, s: State, n: nat, budget: nat) returns (r: State)
    requires Reachable(s0, s, budget) && Within(s.ops, budget) && Filling(s, n) && InOp(s, 1) &&
      n + 2 <= s.cache.cap && n < LOGSIZE
    ensures Reachable(s0, r, budget) && BothHold(r, n)
    ensures r == s.(cache := r.cache, holder := r.holder)
  {
    ReachHeld(s0, s, n, 0, budget);
    r := HoldNext(s0, Held(s, n, 0), n, budget);
  }

  /** Both pass the tests of log_write before either takes the lock. */
  lemma PassBoth(s0: State, s: State, n: nat, budget: nat) returns (r: State)
    requires Reachable(s0, s, budget) && Within(s.ops, budget) && BothHold(s, n) && !LogWritePanics(s)
    ensures Reachable(s0, r, budget) && r == s.(passed := {n, n + 1})
  {
    ReachStep(s0, s, LogTest(0, n), budget);
    var s1 := Do(s, LogTest(0, n));
    assert s1.passed == {n} && !InLogWrite(s1, 1);
    ReachStep(s0, s1, LogTest(1, n + 1), budget);
    r := Do(s1, LogTest(1, n + 1));
    assert r.passed == {n, n + 1};
  }

  lemma LogBoth(s0: State, s: State, n: nat, budget: nat) returns (r: State)
    requires Reachable(s0, s, budget) && Within(s.ops, budget) && BothHold(s.(passed := {}), n) &&
      s.passed == {n, n + 1}
    requires |s.ops[0].logged| < budget && |s.ops[1].logged| < budget
    ensures Reachable(s0, r, budget) && |r.lh| == |s.lh| + 2 && r.size == s.size && r.cache.cap == s.cache.cap
  {
    ReachStep(s0, s, LogWrite(0, n), budget);
    var s1 := Do(s, LogWrite(0, n));
    assert s1.lh == s.lh + [n] && s1.passed == {n + 1};
    ReachStep(s0, s1, LogWrite(1, n + 1), budget);
    r := Do(s1, LogWrite(1, n + 1));
  }

  /** The header is overrun: two calls of log_write pass the tests while there is room for one
      block, and both list theirs.  No operation has logged more than its budget. */
  lemma OverrunReachable(start: nat, size: nat, disk: seq<Block>, cap: nat, budget: nat) returns (s: State)
    requires Machine(start, size, disk, cap) && budget >= 1
    requires Top(budget) > Limit(size) && cap > Limit(size)
    ensures Reachable(Boot(start, size, disk, 2, cap), s, budget) && Overrun(s)
    ensures |s.lh| == Limit(size) + 1 && s.size == size
  {
    var s0, n := Boot(start, size, disk, 2, cap), Limit(size) - 1;
    var s1 := Filled(start, size, disk, cap, n, budget - 1, budget - 1, budget);
    var s2 := HoldBoth(s0, s1, n, budget);
    var s3 := PassBoth(s0, s2, n, budget);
    s := LogBoth(s0, s3, n, budget);
  }

  /** The values of the code: mkfs makes a log of LOGSIZE blocks, there are as many buffers, and
      an operation is to log at most MAXOPBLOCKS blocks.  A log with one block more would do. */
  lemma AsConfigured(start: nat, disk: seq<Block>) returns (s: State)
    requires Machine(start, LOGSIZE, disk, LOGSIZE)
    ensures Reachable(Boot(start, LOGSIZE, disk, 2, LOGSIZE), s, MAXOPBLOCKS) && |s.lh| == s.size == LOGSIZE
    ensures Top(MAXOPBLOCKS) <= Limit(LOGSIZE + 1)
  {
    s := OverrunReachable(start, LOGSIZE, disk, LOGSIZE, MAXOPBLOCKS);
  }

  /** However large the log, operations of more than MAXOPBLOCKS blocks can overrun the LOGSIZE
      entries of log.lh.block. */
  lemma EntriesOverrun(start: nat, size: nat, disk: seq<Block>, cap: nat, budget: nat) returns (s: State)
    requires Machine(start, size, disk, cap) && size > LOGSIZE && cap > LOGSIZE && budget > MAXOPBLOCKS
    ensures Reachable(Boot(start, size, disk, 2, cap), s, budget) && |s.lh| == LOGSIZE + 1
  {
    s := OverrunReachable(start, size, disk, cap, budget);
  }

  /** Two chunks of filewrite, of 17 blocks each, admitted together: the panic is reached
      however large the log. */
  lemma TwoChunks(start: nat, size: nat, disk: seq<Block>, cap: nat) returns (s: State)
    requires Machine(start, size, disk, cap) && cap >= LOGSIZE
    ensures Reachable(Boot(start, size, disk, 2, cap), s, 17)
    ensures InOp(s, 1) && |s.ops[1].logged| < 17 && Holds(s, 1, 0) && LogWritePanics(s)
  {
    s := PanicReachable(start, size, disk, cap, 17);
  }

  // ---- A commit without a free buffer

  lemma EndBoth(s0: State, s: State, n: nat, budget: nat) returns (r: State)
    requires Reachable(s0, s, budget) && Within(s.ops, budget) && Filling(s, n) && s.ops[1].Active? && n > 0
    ensures Reachable(s0, r, budget) && r.phase == WriteLog(0) && r.cache == s.cache && r.lh == s.lh &&
      r.start == s.start
  {
    var s1 := EndSecond(s0, s, n, budget);
    ReachStep(s0, s1, EndOp(0), budget);
    r := Do(s1, EndOp(0));
  }

  lemma AllPinned(s: State, n: nat)
    requires s.phase == WriteLog(0) && |s.lh| == n == s.cache.cap && n > 0 && s.cache.dirty == Elems(s.lh) &&
      Distinct(s.lh)
    requires (forall b :: b in s.lh ==> b in s.cache.data && b < s.start)
    ensures !CanRead(s)
  {
    forall c ensures !Breads(s.cache, s.disk, Buffers(s), c) {
      if Breads(s.cache, s.disk, Buffers(s), c) {
        ElemsSize(s.lh);
        SizeUpTo(Elems(s.lh) + {s.start + 1}, c.data.Keys);
        assert false;
      }
    }
  }

  /** A transaction can pin every buffer: commit then cannot read the first log block. */
  lemma CommitStuck(start: nat, size: nat, disk: seq<Block>, cap: nat, budget: nat) returns (s: State)
    requires Machine(start, size, disk, cap) && budget >= 1 && cap <= Limit(size) && cap <= MAXOPBLOCKS + 2 * budget
    ensures Reachable(Boot(start, size, disk, 2, cap), s, budget)
    ensures s.phase == WriteLog(0) && !CanRead(s)
  {
    var s0 := Boot(start, size, disk, 2, cap);
    var s1 := Filled(start, size, disk, cap, cap, budget, budget, budget);
    s := EndBoth(s0, s1, cap, budget);
    AllPinned(s, cap);
  }
}
