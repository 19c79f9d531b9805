/** The write-ahead log (kernel/log.c) over the buffer cache (kernel/bio.c) as a
    system of steps.  Any number of processes run file-system operations; each
    step is what the code makes atomic with a lock, a busy buffer or a single
    disk write, and the machine may crash between any two of them.  log_write is
    two steps: it tests for room before it takes the lock. */
module LogProtocol {
  import opened Blocks
  import opened LogHeader
  import A = AtomicDisk

  /** The buffer cache, seen from outside: the cached contents, the buffers pinned by B_DIRTY and the
      buffers held with B_BUSY. */
  datatype Cache = Cache(data: map<nat, Block>, dirty: set<nat>, busy: set<nat>, cap: nat)

  /** Cache c' is cache c after bread of the blocks bs: none of them was held, a
      block that was not cached comes from the disk, and only clean idle buffers
      were recycled to make room. */
  ghost predicate Breads(c: Cache, disk: seq<Block>, bs: set<nat>, c': Cache) {
    && bs !! c.busy && (forall b :: b in bs ==> b in c'.data)
    && (forall x :: x in c'.data ==> x in c.data || x in bs)
    && c'.dirty == c.dirty && c'.busy == c.busy + bs && c'.cap == c.cap && |c'.data| <= c.cap
    && (forall x :: x in c'.data ==> x < |disk| && c'.data[x] == if x in c.data then c.data[x] else disk[x])
    && (forall x :: x in c.data && (x in c.dirty || x in c.busy) ==> x in c'.data)
  }

  /** New contents x for buffer `to`, bwrite, then brelse of the buffers bs. */
  function Store(c: Cache, to: nat, x: Block, bs: set<nat>): (r: Cache) {
    c.(data := c.data[to := x], dirty := c.dirty - {to}, busy := c.busy - bs)
  }

  // ---- States and steps

  datatype Op = Idle | Active(id: nat, logged: set<nat>)

  datatype Phase =
    | Running
    | WriteLog(tail: nat)                      // write_log, about to copy entry `tail`
    | WriteHead                                // about to commit
    | Install(tail: nat, recovering: bool)     // install_trans, about to copy entry `tail`
    | ClearHead(recovering: bool)              // about to erase the transaction
    | Finish                                   // about to reset log.committing
    | ReadHead                                 // booting, about to read the header

  datatype State = State(
    decode: Block -> seq<nat>,                 // what read_head makes of a header block
    start: nat, size: nat,                     // the log is blocks start .. start+size
    disk: seq<Block>, cache: Cache,
    lh: seq<nat>, outstanding: nat, committing: bool,
    ops: seq<Op>,                              // one slot per process
    holder: map<nat, nat>,                     // busy block -> process holding it
    unlogged: set<nat>,                        // modified, not yet logged
    passed: set<nat>,                          // past the tests of log_write, not yet logged
    phase: Phase, nextId: nat)

  datatype Step =
    | BeginOp(p: nat)
    | Bread(p: nat, b: nat, cache: Cache)      // `cache` is the cache after bread
    | Modify(p: nat, b: nat, data: Block)
    | LogTest(p: nat, b: nat)                  // the tests of log_write, without the lock
    | LogWrite(p: nat, b: nat)                 // the rest of log_write, under log.lock
    | Brelse(p: nat, b: nat)
    | EndOp(p: nat)
    | LogIO(cache: Cache, head: Block)         // the next disk transfer of commit or recovery: the
                                               // cache after its breads, the block write_head builds
    | Crash

  predicate Booted(s: State) {
    !s.phase.ReadHead? && !(s.phase.Install? && s.phase.recovering) &&
    !(s.phase.ClearHead? && s.phase.recovering)
  }

  predicate InOp(s: State, p: nat) {
    p < |s.ops| && s.ops[p].Active?
  }

  predicate Holds(s: State, p: nat, b: nat) {
    b in s.holder && s.holder[b] == p
  }

  /** The first two tests of log_write. */
  predicate LogWritePanics(s: State) {
    |s.lh| >= LOGSIZE || |s.lh| >= s.size - 1 || s.outstanding < 1
  }

  /** Process p is between the tests of log_write and its lock. */
  predicate InLogWrite(s: State, p: nat) {
    exists b :: b in s.passed && Holds(s, p, b)
  }

  /** The header lists more blocks than log.lh.block has entries or the log has room for. */
  predicate Overrun(s: State) {
    |s.lh| > LOGSIZE || |s.lh| >= s.size
  }

  /** The buffers that the next disk transfer uses: log block and home block for a
      copy, the header block otherwise. */
  function Buffers(s: State): (bs: set<nat>) {
    match s.phase
    case WriteLog(t) => if t < |s.lh| then {s.start + 1 + t, s.lh[t]} else {}
    case Install(t, _) => if t < |s.lh| then {s.start + 1 + t, s.lh[t]} else {}
    case Finish => {}
    case _ => {s.start}
  }

  ghost predicate CanLogIO(s: State, c: Cache, head: Block) {
    && Breads(s.cache, s.disk, Buffers(s), c) && s.start < |s.disk|
    && match s.phase {
         case Running => false
         case WriteLog(t) => t < |s.lh|
         case Install(t, _) => t < |s.lh|
         case WriteHead => s.decode(head) == s.lh
         case ClearHead(_) => s.decode(head) == []
         case _ => true
       }
  }

  /** When a step can be taken.  The conditions on processes are the rules in the
      comments of log.c and bio.c: buffers are used between bread and brelse,
      changed only inside an operation, and logged before they are released. */
  ghost predicate Enabled(s: State, step: Step) {
    match step
    case BeginOp(p) =>
      && Booted(s) && p < |s.ops| && s.ops[p].Idle?
      && !s.committing && |s.lh| + (s.outstanding + 1) * MAXOPBLOCKS <= LOGSIZE
    case Bread(p, b, c) =>
      Booted(s) && p < |s.ops| && b < s.start && !InLogWrite(s, p) && Breads(s.cache, s.disk, {b}, c)
    case Modify(p, b, _) => Holds(s, p, b) && InOp(s, p) && b in s.cache.data && !InLogWrite(s, p)
    case LogTest(p, b) =>
      Holds(s, p, b) && InOp(s, p) && b in s.cache.data && !InLogWrite(s, p) && !LogWritePanics(s)
    case LogWrite(p, b) => Holds(s, p, b) && InOp(s, p) && b in s.cache.data && b in s.passed
    case Brelse(p, b) => Holds(s, p, b) && b !in s.unlogged && !InLogWrite(s, p)
    case EndOp(p) =>
      && InOp(s, p) && s.outstanding >= 1 && !InLogWrite(s, p)
      && forall b :: b in s.unlogged ==> !Holds(s, p, b)
    case LogIO(c, head) => CanLogIO(s, c, head)
    case Crash => true
  }

  /** With cache c after the breads, put x into buffer `to` and on disk and release
      the buffers. */
  function Transfer(s: State, c: Cache, to: nat, x: Block): (r: State)
    requires to < |s.disk|
  {
    s.(disk := s.disk[to := x], cache := Store(c, to, x, Buffers(s)))
  }

  ghost function DoLogIO(s: State, c: Cache, head: Block): (r: State)
    requires CanLogIO(s, c, head)
  {
    match s.phase
    case WriteLog(t) =>
      Transfer(s, c, s.start + 1 + t, c.data[s.lh[t]])
      .(phase := if t + 1 < |s.lh| then WriteLog(t + 1) else WriteHead)
    case WriteHead =>
      Transfer(s, c, s.start, head).(phase := Install(0, false))
    case Install(t, rec) =>
      Transfer(s, c, s.lh[t], c.data[s.start + 1 + t])
      .(phase := if t + 1 < |s.lh| then Install(t + 1, rec) else ClearHead(rec))
    case ClearHead(rec) =>
      Transfer(s, c, s.start, head).(lh := [], phase := if rec then Running else Finish)
    case Finish =>
      s.(committing := false, phase := Running)
    case ReadHead =>
      var lh := s.decode(c.data[s.start]);
      s.(cache := c.(busy := c.busy - {s.start}), lh := lh,
         phase := if lh == [] then ClearHead(true) else Install(0, true))
  }

  /** Power comes back: memory is gone, the disk is not. */
  function Reboot(s: State): (r: State) {
    s.(cache := Cache(map[], {}, {}, s.cache.cap), lh := [], outstanding := 0, committing := false,
       ops := seq(|s.ops|, _ => Idle), holder := map[], unlogged := {}, passed := {}, phase := ReadHead)
  }

  ghost function Do(s: State, step: Step): (r: State)
    requires Enabled(s, step)
  {
    match step
    case BeginOp(p) =>
      s.(outstanding := s.outstanding + 1, ops := s.ops[p := Active(s.nextId, {})], nextId := s.nextId + 1)
    case Bread(p, b, c) =>
      s.(cache := c, holder := s.holder[b := p])
    case Modify(p, b, data) =>
      s.(cache := s.cache.(data := s.cache.data[b := data]), unlogged := s.unlogged + {b})
    case LogTest(p, b) =>
      s.(passed := s.passed + {b})
    case LogWrite(p, b) =>
      s.(lh := if b in s.lh then s.lh else s.lh + [b],
         cache := s.cache.(dirty := s.cache.dirty + {b}),
         unlogged := s.unlogged - {b}, passed := s.passed - {b},
         ops := s.ops[p := s.ops[p].(logged := s.ops[p].logged + {b})])
    case Brelse(p, b) =>
      s.(cache := s.cache.(busy := s.cache.busy - {b}), holder := s.holder - {b})
    case EndOp(p) =>
      var last := s.outstanding == 1;
      s.(ops := s.ops[p := Idle], outstanding := s.outstanding - 1,
         committing := s.committing || last,
         phase := if !last then s.phase else if |s.lh| > 0 then WriteLog(0) else Finish)
    case LogIO(c, head) => DoLogIO(s, c, head)
    case Crash => Reboot(s)
  }

  /** The event of the atomic disk that a step stands for. */
  ghost function Event(s: State, step: Step): (e: A.Event)
    requires Enabled(s, step)
  {
    match step
    case BeginOp(_) => A.Begin
    case LogWrite(p, b) => A.Put(s.ops[p].id, b, s.cache.data[b])
    case EndOp(p) => A.End(s.ops[p].id)
    case LogIO(_, _) => if s.phase.WriteHead? then A.Sync else A.Stutter
    case Crash => A.Crash
    case _ => A.Stutter
  }
}
