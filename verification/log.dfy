/** kernel/log.c as the sequential code of one commit and of one recovery.  The
    cache appears as its pinned buffers: bread returns a pinned buffer or else
    what is on disk.  `trace` records the disk after each block write. */
module Log {
  import opened Common
  import opened Blocks
  import opened LogHeader
  import opened LogSafety

  /** What a block reads as, given the pinned buffers. */
  function Contents(disk: seq<Block>, pinned: map<nat, Block>, b: nat): (r: Block)
    requires b < |disk|
  {
    if b in pinned then pinned[b] else disk[b]
  }

  /** A transaction in memory: its blocks are the pinned ones, each listed once. */
  ghost predicate Transaction(start: nat, size: nat, lh: seq<nat>, pinned: map<nat, Block>) {
    && |lh| <= LOGSIZE && |lh| < size && Distinct(lh) && pinned.Keys == Elems(lh)
    && forall i :: 0 <= i < |lh| ==> lh[i] < start
  }

  /** `cur` is what the file system sees: pinned buffers over the disk. */
  ghost predicate Sees(start: nat, disk: seq<Block>, pinned: map<nat, Block>, cur: seq<Block>) {
    && |cur| == start <= |disk|
    && forall b :: 0 <= b < start ==> cur[b] == Contents(disk, pinned, b)
  }

  /** Counting from entry m of the trace, the disk stands for `before` after each of
      the first n writes, and for `after` after each later one. */
  ghost predicate Cut(start: nat, size: nat, trace: seq<seq<Block>>, m: nat, n: nat, before: seq<Block>,
      after: seq<Block>) {
    && (forall k :: m <= k < |trace| && k < m + n ==> LogConsistent(Decode, start, size, trace[k], before))
    && (forall k :: m + n <= k < |trace| ==> LogConsistent(Decode, start, size, trace[k], after))
  }

  /** The loop of write_head over the words of the header buffer. */
  method EncodeHead(b: Block, block: array<nat>, n: nat) returns (r: Block)
    requires n <= LOGSIZE <= block.Length && forall i :: 0 <= i < n ==> block[i] < UINT
    ensures Decode(r) == block[..n]
  {
    r := SetWord(b, 0, n);
    for i := 0 to n
      invariant Word(r, 0) == n
      invariant forall j :: 0 <= j < i ==> Word(r, 1 + j) == block[j]
    {
      r := SetWord(r, 1 + i, block[i]);
    }
  }

  /** The log holds the contents of the first t listed blocks. */
  ghost predicate Logged(start: nat, disk: seq<Block>, lh: seq<nat>, t: nat, cur: seq<Block>) {
    && t <= |lh| && start + t < |disk|
    && forall i :: 0 <= i < t ==> lh[i] < |cur| && disk[start + 1 + i] == cur[lh[i]]
  }

  /** Once the log holds the new contents, writing the header moves the disk from
      the old to the new contents. */
  lemma HeaderCommits(start: nat, size: nat, disk: seq<Block>, before: seq<Block>, after: seq<Block>, lh: seq<nat>,
      pinned: map<nat, Block>, head: Block)
    requires LogConsistent(Decode, start, size, disk, before) && Decode(disk[start]) == []
    requires Transaction(start, size, lh, pinned) && Sees(start, disk, pinned, after)
    requires Logged(start, disk, lh, |lh|, after)
    requires Decode(head) == lh
    ensures LogConsistent(Decode, start, size, disk[start := head], after)
  {
    var disk' := disk[start := head];
    assert disk'[start] == head;
    forall b | 0 <= b < start && b !in lh ensures disk'[b] == after[b] {
      assert b !in Elems(lh);
      assert b !in pinned;
    }
  }

  /** Once every block is home, an empty header stands for the same contents. */
  lemma ClearKeeps(start: nat, size: nat, disk: seq<Block>, cur: seq<Block>, head: Block)
    requires LogConsistent(Decode, start, size, disk, cur) && disk[..start] == cur && Decode(head) == []
    ensures LogConsistent(Decode, start, size, disk[start := head], cur)
  {
    var disk' := disk[start := head];
    assert disk'[start] == head;
    assert disk'[..start] == disk[..start];
    forall b | 0 <= b < start ensures disk'[b] == cur[b] {
      assert disk'[b] == disk'[..start][b] == cur[b];
    }
  }

  /** One copy of write_log. */
  lemma WriteLogStep(start: nat, size: nat, disk: seq<Block>, before: seq<Block>, after: seq<Block>, lh: seq<nat>,
      pinned: map<nat, Block>, tail: nat)
    requires LogConsistent(Decode, start, size, disk, before) && Decode(disk[start]) == []
    requires Transaction(start, size, lh, pinned) && Sees(start, disk, pinned, after) && tail < |lh|
    requires Logged(start, disk, lh, tail, after)
    ensures var disk' := disk[start + 1 + tail := Contents(disk, pinned, lh[tail])];
      && disk'[start] == disk[start] && LogConsistent(Decode, start, size, disk', before) &&
        Sees(start, disk', pinned, after)
      && Logged(start, disk', lh, tail + 1, after)
  {
    ConsistentWriteLog(Decode, start, size, disk, before, start + 1 + tail, Contents(disk, pinned, lh[tail]));
  }

  /** All home blocks are in place, and unpinned, except those from entry t on. */
  ghost predicate InPlace(start: nat, disk: seq<Block>, pinned: map<nat, Block>, lh: seq<nat>, t: nat,
      cur: seq<Block>) {
    && |cur| == start <= |disk| && t <= |lh|
    && (forall b :: 0 <= b < start && b !in lh[t..] ==> disk[b] == cur[b])
    && (forall b :: b in pinned ==> b in lh[t..])
  }

  lemma AllInPlace(start: nat, disk: seq<Block>, pinned: map<nat, Block>, lh: seq<nat>, cur: seq<Block>)
    requires InPlace(start, disk, pinned, lh, |lh|, cur)
    ensures disk[..start] == cur && pinned == map[]
  {
  }

  /** One copy of install_trans. */
  lemma InstallStep(start: nat, size: nat, disk: seq<Block>, pinned: map<nat, Block>, cur: seq<Block>, lh: seq<nat>,
      tail: nat)
    requires LogConsistent(Decode, start, size, disk, cur) && Decode(disk[start]) == lh && tail < |lh|
    requires InPlace(start, disk, pinned, lh, tail, cur)
    ensures lh[tail] < start && (forall b :: b in pinned ==> b < start)
    ensures var disk' := disk[lh[tail] := disk[start + 1 + tail]];
      && disk'[start] == disk[start] && LogConsistent(Decode, start, size, disk', cur)
      && InPlace(start, disk', pinned - {lh[tail]}, lh, tail + 1, cur)
  {
    ConsistentInstall(Decode, start, size, disk, cur, tail);
    assert lh[tail..] == [lh[tail]] + lh[tail + 1..];
    forall b | b in pinned ensures b < start {
      assert b in lh;
    }
  }

  class LogDevice {
    const start: nat
    const size: nat
    const block: array<nat>            // log.lh.block
    var n: nat                         // log.lh.n
    var outstanding: int
    var committing: bool
    var disk: seq<Block>
    var pinned: map<nat, Block>
    ghost var trace: seq<seq<Block>>

    constructor (start: nat, size: nat, disk: seq<Block>)
      ensures this.start == start && this.size == size && this.disk == disk && pinned == map[]
      ensures fresh(block) && block.Length == LOGSIZE && n == 0 && outstanding == 0 && !committing && trace == []
    {
      this.start, this.size, this.disk := start, size, disk;
      block := new nat[LOGSIZE];
      n, outstanding, committing := 0, 0, false;
      pinned, trace := map[], [];
    }

    ghost predicate Valid()
      reads this, block
    {
      && block.Length == LOGSIZE && n <= LOGSIZE
      && |disk| == start + size && start + size < UINT
      && Transaction(start, size, block[..n], pinned)
    }

    method Bwrite(b: nat, data: Block)
      requires b < |disk|
      modifies this`disk, this`pinned, this`trace
      ensures disk == old(disk)[b := data] && pinned == old(pinned) - {b} && trace == old(trace) + [disk]
    {
      disk := disk[b := data];
      pinned := pinned - {b};
      trace := trace + [disk];
    }

    /** write_head: the on-disk header now reads back as the in-memory one. */
    method WriteHead()
      requires block.Length == LOGSIZE && n <= LOGSIZE && start < |disk| && start !in pinned
      requires forall i :: 0 <= i < n ==> block[i] < UINT
      modifies this`disk, this`pinned, this`trace
      ensures pinned == old(pinned) && trace == old(trace) + [disk]
      ensures |disk| == |old(disk)| && disk == old(disk)[start := disk[start]] && Decode(disk[start]) == block[..n]
    {
      var head := EncodeHead(disk[start], block, n);
      Bwrite(start, head);
    }

    /** read_head: the in-memory header becomes the on-disk one. */
    method ReadHead()
      requires block.Length == LOGSIZE && start < |disk| && start !in pinned && |Decode(disk[start])| <= LOGSIZE
      modifies this`n, block
      ensures n <= LOGSIZE && block[..n] == Decode(disk[start])
    {
      var hb := disk[start];
      n := Word(hb, 0);
      var i := 0;
      while i < n
        invariant 0 <= i <= n == |Decode(hb)| <= LOGSIZE
        invariant forall j :: 0 <= j < i ==> block[j] == Word(hb, 1 + j)
      {
        block[i] := Word(hb, 1 + i);
        i := i + 1;
      }
    }

    /** write_log: the log now holds the pinned contents, and the disk still
        stands for the contents before the transaction after every write. */
    method WriteLog(ghost before: seq<Block>, ghost after: seq<Block>)
      requires Valid() && Sees(start, disk, pinned, after)
      requires LogConsistent(Decode, start, size, disk, before) && Decode(disk[start]) == []
      modifies this`disk, this`pinned, this`trace
      ensures pinned == old(pinned) && |disk| == |old(disk)| && disk[start] == old(disk)[start] &&
        Sees(start, disk, pinned, after)
      ensures LogConsistent(Decode, start, size, disk, before)
      ensures Logged(start, disk, block[..n], n, after)
      ensures |trace| == |old(trace)| + n && old(trace) <= trace
      ensures forall k :: |old(trace)| <= k < |trace| ==> LogConsistent(Decode, start, size, trace[k], before)
    {
      ghost var lh := block[..n];
      var tail := 0;
      while tail < n
        invariant 0 <= tail <= n && lh == block[..n]
        invariant pinned == old(pinned) && |disk| == |old(disk)| && disk[start] == old(disk)[start] &&
          Sees(start, disk, pinned, after)
        invariant LogConsistent(Decode, start, size, disk, before)
        invariant Logged(start, disk, lh, tail, after)
        invariant |trace| == |old(trace)| + tail && old(trace) <= trace
        invariant forall k :: |old(trace)| <= k < |trace| ==> LogConsistent(Decode, start, size, trace[k], before)
      {
        WriteLogStep(start, size, disk, before, after, lh, pinned, tail);
        assert start + 1 + tail !in pinned;
        Bwrite(start + 1 + tail, Contents(disk, pinned, block[tail]));
        tail := tail + 1;
      }
    }

    /** install_trans: every listed block is home, and the disk stands for the same
        contents after every write. */
    method InstallTrans(ghost cur: seq<Block>)
      requires block.Length == LOGSIZE && n <= LOGSIZE && (forall b :: b in pinned ==> b in block[..n])
      requires LogConsistent(Decode, start, size, disk, cur) && Decode(disk[start]) == block[..n]
      modifies this`disk, this`pinned, this`trace
      ensures |disk| == |old(disk)| && disk[start] == old(disk)[start] && disk[..start] == cur && pinned == map[]
      ensures LogConsistent(Decode, start, size, disk, cur)
      ensures |trace| == |old(trace)| + n && old(trace) <= trace
      ensures forall k :: |old(trace)| <= k < |trace| ==> LogConsistent(Decode, start, size, trace[k], cur)
    {
      ghost var lh := block[..n];
      var tail := 0;
      while tail < n
        invariant 0 <= tail <= n && lh == block[..n]
        invariant |disk| == |old(disk)| && disk[start] == old(disk)[start]
        invariant LogConsistent(Decode, start, size, disk, cur)
        invariant InPlace(start, disk, pinned, lh, tail, cur)
        invariant |trace| == |old(trace)| + tail && old(trace) <= trace
        invariant forall k :: |old(trace)| <= k < |trace| ==> LogConsistent(Decode, start, size, trace[k], cur)
      {
        InstallStep(start, size, disk, pinned, cur, lh, tail);
        Bwrite(block[tail], Contents(disk, pinned, start + 1 + tail));
        tail := tail + 1;
      }
      AllInPlace(start, disk, pinned, lh, cur);
    }

    /** The common end of commit and recover_from_log. */
    method InstallAndClear(ghost cur: seq<Block>)
      requires block.Length == LOGSIZE && n <= LOGSIZE && (forall b :: b in pinned ==> b in block[..n])
      requires LogConsistent(Decode, start, size, disk, cur) && Decode(disk[start]) == block[..n]
      modifies this`n, this`disk, this`pinned, this`trace
      ensures n == 0 && |disk| == |old(disk)| && disk[..start] == cur && pinned == map[] && Decode(disk[start]) == []
      ensures |trace| == |old(trace)| + old(n) + 1 && old(trace) <= trace
      ensures forall k :: |old(trace)| <= k < |trace| ==> LogConsistent(Decode, start, size, trace[k], cur)
    {
      InstallTrans(cur);
      ghost var installed := disk;
      n := 0;
      WriteHead();
      ClearKeeps(start, size, installed, cur, disk[start]);
      assert disk[..start] == installed[..start];
    }

    /** The first half of commit: the last of its n + 1 writes is the commit point. */
    method WriteLogAndHead(ghost before: seq<Block>, ghost after: seq<Block>)
      requires Valid() && Sees(start, disk, pinned, after)
      requires LogConsistent(Decode, start, size, disk, before) && Decode(disk[start]) == []
      modifies this`disk, this`pinned, this`trace
      ensures pinned == old(pinned) && |disk| == |old(disk)| && Decode(disk[start]) == block[..n]
      ensures LogConsistent(Decode, start, size, disk, after)
      ensures |trace| == |old(trace)| + n + 1 && old(trace) <= trace && trace[|old(trace)| + n] == disk
      ensures forall k :: |old(trace)| <= k < |old(trace)| + n ==> LogConsistent(Decode, start, size, trace[k], before)
    {
      WriteLog(before, after);
      ghost var filled := disk;
      WriteHead();
      HeaderCommits(start, size, filled, before, after, block[..n], pinned, disk[start]);
    }

    /** commit: cut after k block writes, the disk stands for the old contents when
        k <= n and for the new ones beyond, that is, once the header is written. */
    method Commit(ghost before: seq<Block>, ghost after: seq<Block>)
      requires Valid() && Sees(start, disk, pinned, after) && committing
      requires LogConsistent(Decode, start, size, disk, before) && Decode(disk[start]) == []
      modifies this`n, this`disk, this`pinned, this`trace
      ensures Valid() && n == 0 && pinned == map[]
      ensures disk[..start] == after && Decode(disk[start]) == []
      ensures |trace| == |old(trace)| + (if old(n) > 0 then 2 * old(n) + 2 else 0)
      ensures old(trace) <= trace
      ensures Cut(start, size, trace, |old(trace)|, old(n), before, after)
    {
      if n > 0 {
        WriteLogAndHead(before, after);
        InstallAndClear(after);
      } else {
        assert disk[..start] == after == before;
      }
    }

    /** recover_from_log: from any disk that stands for `cur`, every write leaves a
        disk that stands for `cur`, and at the end every home block holds it. */
    method Recover(ghost cur: seq<Block>)
      requires block.Length == LOGSIZE && pinned == map[] && |disk| < UINT
      requires LogConsistent(Decode, start, size, disk, cur)
      modifies this`n, block, this`disk, this`pinned, this`trace
      ensures Valid() && n == 0 && pinned == map[]
      ensures disk[..start] == cur && Decode(disk[start]) == []
      ensures |trace| == |old(trace)| + |Decode(old(disk)[start])| + 1 && old(trace) <= trace
      ensures forall k :: |old(trace)| <= k < |trace| ==> LogConsistent(Decode, start, size, trace[k], cur)
    {
      ReadHead();
      InstallAndClear(cur);
    }

    /** log_write: panics when the log is full even if the block is already listed;
        otherwise lists the block once and pins the caller's contents. */
    method LogWrite(b: nat, data: Block) returns (panics: bool)
      requires Valid() && b < start
      modifies this`n, this`pinned, block
      ensures Valid()
      ensures panics <==> old(n) >= LOGSIZE || old(n) >= size - 1 || outstanding < 1
      ensures panics ==> n == old(n) && pinned == old(pinned) && block[..] == old(block[..])
      ensures !panics ==> pinned == old(pinned)[b := data]
      ensures !panics ==> block[..n] == old(block[..n]) + if b in old(block[..n]) then [] else [b]
    {
      if n >= LOGSIZE || n >= size - 1 || outstanding < 1 {
        return true;
      }
      var i := 0;
      while i < n && block[i] != b
        invariant 0 <= i <= n && b !in block[..i]
      {
        i := i + 1;
      }
      ghost var lh := block[..n];
      block[i] := b;
      if i == n {
        n := n + 1;
      }
      assert block[..n] == lh + if b in lh then [] else [b];
      pinned := pinned[b := data];
      panics := false;
    }

    /** One turn of begin_op's loop: whether the operation may start. */
    method BeginOp() returns (started: bool)
      modifies this`outstanding
      ensures started <==> !committing && n + (old(outstanding) + 1) * MAXOPBLOCKS <= LOGSIZE
      ensures outstanding == old(outstanding) + if started then 1 else 0
    {
      started := !committing && n + (outstanding + 1) * MAXOPBLOCKS <= LOGSIZE;
      if started {
        outstanding := outstanding + 1;
      }
    }

    /** end_op: the last operation to end commits what the file system then sees. */
    method EndOp(ghost before: seq<Block>, ghost after: seq<Block>)
      requires Valid() && Sees(start, disk, pinned, after) && !committing && outstanding >= 1
      requires LogConsistent(Decode, start, size, disk, before) && Decode(disk[start]) == []
      modifies this`outstanding, this`committing, this`n, this`disk, this`pinned, this`trace
      ensures Valid() && !committing && outstanding == old(outstanding) - 1
      ensures Sees(start, disk, pinned, after) && Decode(disk[start]) == []
      ensures outstanding > 0 ==> n == old(n) && disk == old(disk) && pinned == old(pinned) && trace == old(trace)
      ensures outstanding == 0 ==> n == 0 && disk[..start] == after && old(trace) <= trace
      ensures outstanding == 0 ==> Cut(start, size, trace, |old(trace)|, old(n), before, after)
    {
      outstanding := outstanding - 1;
      if outstanding == 0 {
        committing := true;
        Commit(before, after);
        committing := false;
        assert forall b :: 0 <= b < start ==> disk[b] == disk[..start][b];
      }
    }
  }
}
