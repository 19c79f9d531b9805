/** Log space: what the reservation in begin_op protects when every operation logs at most a
    given number of blocks, and how many buffers bound besides. */
module LogBudget {
  import opened Common
  import opened Blocks
  import opened LogHeader
  import opened LogProtocol
  import opened LogSafety
  import opened LogTheorems

  // ---- What operations may still log

  function UnusedOf(op: Op, budget: nat): (n: int) {
    if op.Active? then budget - |op.logged| else 0
  }

  /** The unused budgets of the operations under way. */
  function Unused(ops: seq<Op>, budget: nat): (n: int) {
    if ops == [] then 0 else Unused(ops[..|ops| - 1], budget) + UnusedOf(ops[|ops| - 1], budget)
  }

  /** No operation under way has logged more than its budget. */
  predicate Within(ops: seq<Op>, budget: nat) {
    forall p :: 0 <= p < |ops| && ops[p].Active? ==> |ops[p].logged| <= budget
  }

  lemma {:induction false} UnusedUpdate(ops: seq<Op>, p: nat, op: Op, budget: nat)
    requires p < |ops|
    ensures Unused(ops[p := op], budget) == Unused(ops, budget) + UnusedOf(op, budget) - UnusedOf(ops[p], budget)
  {
    var n := |ops| - 1;
    if p == n {
      assert ops[p := op][..n] == ops[..n];
    } else {
      assert ops[p := op][..n] == ops[..n][p := op];
      UnusedUpdate(ops[..n], p, op, budget);
    }
  }

  lemma {:induction false} UnusedBound(ops: seq<Op>, budget: nat)
    requires Within(ops, budget)
    ensures 0 <= Unused(ops, budget) <= ActiveCount(ops) * budget
  {
    if ops != [] {
      UnusedBound(ops[..|ops| - 1], budget);
    }
  }

  lemma UnusedAtLeast(ops: seq<Op>, p: nat, budget: nat)
    requires p < |ops| && Within(ops, budget)
    ensures Unused(ops, budget) >= UnusedOf(ops[p], budget)
  {
    UnusedUpdate(ops, p, Idle, budget);
    UnusedBound(ops[p := Idle], budget);
  }

  // ---- How far the header can grow

  /** The most blocks that the header can list when every operation logs at most `budget`: two
      operations admitted to a header of MAXOPBLOCKS blocks, or three admitted to an empty one. */
  function Top(budget: nat): (n: nat) {
    if budget <= MAXOPBLOCKS then MAXOPBLOCKS + 2 * budget else 3 * budget
  }

  /** Where log_write starts to panic. */
  function Limit(size: nat): (n: int) {
    if size - 1 < LOGSIZE then size - 1 else LOGSIZE
  }

  /** Logged blocks and unused budgets together, once the system is up. */
  ghost predicate Reserved(s: State, budget: nat) {
    Within(s.ops, budget) && (Booted(s) ==> |s.lh| + Unused(s.ops, budget) <= Top(budget))
  }

  lemma ReservedBegin(s: State, cur: seq<Block>, dur: seq<Block>, budget: nat, p: nat)
    requires s in States(cur, dur) && Reserved(s, budget) && Enabled(s, BeginOp(p))
    ensures Reserved(Do(s, BeginOp(p)), budget)
  {
    var s' := Do(s, BeginOp(p));
    assert s.phase.Running? && (s.outstanding == 0 ==> s.lh == []) && s.outstanding == ActiveCount(s.ops);
    CountUpdate(s.ops, p, Active(s.nextId, {}));
    UnusedBound(s'.ops, budget);
    var o := s.outstanding + 1;
    assert o <= 3 && |s.lh| <= LOGSIZE - o * MAXOPBLOCKS;
    assert Unused(s'.ops, budget) <= o * budget;
    assert o == 1 || o == 2 || o == 3;
  }

  lemma ReservedLog(s: State, cur: seq<Block>, dur: seq<Block>, budget: nat, p: nat, b: nat)
    requires s in States(cur, dur) && Reserved(s, budget) && Enabled(s, LogWrite(p, b)) &&
      Within(Do(s, LogWrite(p, b)).ops, budget)
    ensures Reserved(Do(s, LogWrite(p, b)), budget)
  {
    ActiveMeansRunning(s, cur, dur, p);
    var op := s.ops[p];
    assert op.logged <= Elems(s.lh);
    if b in op.logged {
      assert b in s.lh && op.logged + {b} == op.logged;
    }
    UnusedUpdate(s.ops, p, op.(logged := op.logged + {b}), budget);
  }

  lemma ReservedEnd(s: State, budget: nat, p: nat)
    requires Reserved(s, budget) && Enabled(s, EndOp(p)) && s.phase.Running?
    ensures Reserved(Do(s, EndOp(p)), budget)
  {
    UnusedUpdate(s.ops, p, Idle, budget);
  }

  lemma TransferHeader(s: State, c: Cache, head: Block)
    requires CanLogIO(s, c, head)
    ensures var r := DoLogIO(s, c, head); r.ops == s.ops && (Booted(r) ==> r.lh == [] || (Booted(s) && r.lh == s.lh))
  {
  }

  lemma NoneUnderWay(s: State, cur: seq<Block>, dur: seq<Block>)
    requires s in States(cur, dur) && !s.phase.Running?
    ensures ActiveCount(s.ops) == 0
  {
  }

  lemma ReservedIO(s: State, cur: seq<Block>, dur: seq<Block>, budget: nat, c: Cache, head: Block)
    requires s in States(cur, dur) && Reserved(s, budget) && CanLogIO(s, c, head)
    ensures Reserved(DoLogIO(s, c, head), budget)
  {
    NoneUnderWay(s, cur, dur);
    UnusedBound(s.ops, budget);
    TransferHeader(s, c, head);
  }

  lemma ReservedCrash(s: State, budget: nat)
    ensures Reserved(Reboot(s), budget)
  {
  }

  /** Every step keeps the reservation, as long as the operations keep within their budget. */
  lemma SpaceStep(s: State, cur: seq<Block>, dur: seq<Block>, budget: nat, step: Step, s': State)
    requires s in States(cur, dur) && Reserved(s, budget) && Next(s, step, s') && Within(s'.ops, budget)
    ensures Reserved(s', budget)
  {
    match step
    case BeginOp(p) => ReservedBegin(s, cur, dur, budget, p);
    case LogWrite(p, b) => ReservedLog(s, cur, dur, budget, p, b);
    case EndOp(p) =>
      ActiveMeansRunning(s, cur, dur, p);
      ReservedEnd(s, budget, p);
    case LogIO(c, head) => ReservedIO(s, cur, dur, budget, c, head);
    case Crash => ReservedCrash(s, budget);
    case _ =>
  }

  // ---- Pinned buffers bound the header too

  ghost predicate Capped(s: State) {
    |s.cache.data| <= s.cache.cap
  }

  lemma CapIO(s: State, c: Cache, head: Block)
    requires Capped(s) && CanLogIO(s, c, head)
    ensures Capped(DoLogIO(s, c, head)) && DoLogIO(s, c, head).cache.cap == s.cache.cap
  {
    var r := DoLogIO(s, c, head);
    assert r.cache.data.Keys == c.data.Keys || r.cache.data == s.cache.data;
  }

  lemma CapStep(s: State, step: Step, s': State)
    requires Capped(s) && Next(s, step, s')
    ensures Capped(s') && s'.cache.cap == s.cache.cap
  {
    match step
    case Modify(_, b, data) => assert s.cache.data[b := data].Keys == s.cache.data.Keys;
    case LogIO(c, head) => CapIO(s, c, head);
    case _ =>
  }

  lemma {:induction false} ElemsSize(lh: seq<nat>)
    requires Distinct(lh)
    ensures |Elems(lh)| == |lh|
  {
    if lh == [] {
      assert Elems(lh) == {};
    } else {
      var n := |lh| - 1;
      ElemsSize(lh[..n]);
      assert Elems(lh) == Elems(lh[..n]) + {lh[n]};
    }
  }

  /** Every listed block is pinned in a buffer. */
  lemma ListedFit(s: State, cur: seq<Block>, dur: seq<Block>)
    requires s in States(cur, dur) && Capped(s) && s.phase.Running?
    ensures |s.lh| <= s.cache.cap
  {
    ElemsSize(s.lh);
    SizeUpTo(Elems(s.lh), s.cache.data.Keys);
  }

  // ---- Panics

  /** The log has room for whatever operations within `budget` can log, or fewer buffers than
      room: log_write of an operation with some budget left does not panic. */
  lemma NoPanic(s: State, cur: seq<Block>, dur: seq<Block>, budget: nat, p: nat)
    requires s in States(cur, dur) && Reserved(s, budget) && Capped(s) && InOp(s, p)
    requires |s.ops[p].logged| < budget
    requires Top(budget) <= Limit(s.size) || s.cache.cap < Limit(s.size)
    ensures !LogWritePanics(s)
  {
    ActiveMeansRunning(s, cur, dur, p);
    UnusedAtLeast(s.ops, p, budget);
    ListedFit(s, cur, dur);
  }

  /** With one block of room more, not even logging a block again does. */
  lemma NoPanicAgain(s: State, cur: seq<Block>, dur: seq<Block>, budget: nat, p: nat)
    requires s in States(cur, dur) && Reserved(s, budget) && Capped(s) && InOp(s, p)
    requires Top(budget) < Limit(s.size) || s.cache.cap < Limit(s.size)
    ensures !LogWritePanics(s)
  {
    ActiveMeansRunning(s, cur, dur, p);
    UnusedAtLeast(s.ops, p, budget);
    ListedFit(s, cur, dur);
  }
}
