/** The log and the block allocator together: after a crash no block has two owners, and the bitmap
    marks exactly the owned ones. */
module CrashBlocks {
  import opened Blocks
  import opened Bitmap
  import opened BlockMap
  import opened LogProtocol
  import opened LogTheorems
  import opened LogRuns
  import opened CrashRuns
  import A = AtomicDisk
  import L = CrashLocks
  import Fs

  /** What the home blocks hold: data blocks, inodes and the bitmap. */
  datatype Volume = Volume(disk: seq<Block>, ips: seq<Inode>, bm: seq<Block>)

  ghost predicate OwnedBy(v: Volume, owner: Owner, first: nat, limit: nat) {
    && OwnsSlots(v.disk, v.ips, owner, first, limit) && BitsOwned(v.bm, owner, first, |v.disk|) && limit <= UINT
  }

  /** Every block in a slot is in no other and marked in use, and no other block is. */
  ghost predicate Owned(v: Volume, first: nat, limit: nat) {
    exists owner :: OwnedBy(v, owner, first, limit)
  }

  /** The steps of bmap, writei, itrunc and iupdate. */
  datatype Effect =
    | FillAddr(i: nat, k: nat, b: nat)
    | FillEntry(i: nat, e: nat, b: nat)
    | Store(i: nat, bn: nat, data: Block)
    | SetSize(i: nat, size: nat)
    | FreeAddr(i: nat, k: nat)
    | FreeRest(i: nat)

  /** A block for balloc to take. */
  predicate Free(v: Volume, first: nat, limit: nat, b: nat) {
    first <= b < limit <= |v.disk| <= |v.bm| * BPB && !Used(v.bm, b)
  }

  function SetAddr(ips: seq<Inode>, i: nat, k: nat, b: nat): (r: seq<Inode>)
    requires i < |ips| && k < |ips[i].addrs|
  {
    ips[i := ips[i].(addrs := ips[i].addrs[k := b])]
  }

  /** A new zeroed block in entry e of the indirect block. */
  function EntrySet(disk: seq<Block>, ind: nat, e: nat, b: nat): (r: seq<Block>)
    requires ind < |disk| && b < |disk| && e < NINDIRECT && b < UINT
  {
    disk[b := Zeroes()][ind := SetWord(disk[ind], e, b)]
  }

  ghost predicate Does(v: Volume, e: Effect, v': Volume, first: nat, limit: nat) {
    && e.i < |v.ips| && |v.ips[e.i].addrs| == NDIRECT + 1
    && match e
       case FillAddr(i, k, b) =>
         && k <= NDIRECT && v.ips[i].addrs[k] == 0 && Free(v, first, limit, b)
         && v' == Volume(v.disk[b := Zeroes()], SetAddr(v.ips, i, k, b), Mark(v.bm, b, true))
       case FillEntry(i, e, b) =>
         && e < NINDIRECT && 0 < v.ips[i].addrs[NDIRECT] < |v.disk| && Slot(v.disk, v.ips[i], NDIRECT + 1 + e) == 0
         && Free(v, first, limit, b) && limit <= UINT
         && v' == Volume(EntrySet(v.disk, v.ips[i].addrs[NDIRECT], e, b), v.ips, Mark(v.bm, b, true))
       case Store(i, bn, data) =>
         && bn < MAXFILE && 0 < Slot(v.disk, v.ips[i], DataSlot(bn)) < |v.disk|
         && v' == v.(disk := v.disk[Slot(v.disk, v.ips[i], DataSlot(bn)) := data])
       case SetSize(i, size) => v' == v.(ips := v.ips[i := v.ips[i].(size := size)])
       case FreeAddr(i, k) =>
         && k < NDIRECT && 0 < v.ips[i].addrs[k] < |v.bm| * BPB
         && v' == v.(ips := SetAddr(v.ips, i, k, 0), bm := Mark(v.bm, v.ips[i].addrs[k], false))
       case FreeRest(i) =>
         && Fs.Freed(v.bm, v'.bm, |v.disk|, Fs.SlotBlocks(v.disk, v.ips[i], NDIRECT, NSLOTS))
         && v' == v.(ips := SetAddr(v.ips, i, NDIRECT, 0), bm := v'.bm)
  }

  lemma SizeOwned(disk: seq<Block>, ips: seq<Inode>, owner: Owner, first: nat, limit: nat, i: nat, size: nat)
    requires OwnsSlots(disk, ips, owner, first, limit) && i < |ips|
    ensures OwnsSlots(disk, ips[i := ips[i].(size := size)], owner, first, limit)
  {
    var ips' := ips[i := ips[i].(size := size)];
    assert forall j, k :: 0 <= j < |ips| && 0 <= k < NSLOTS ==> Slot(disk, ips'[j], k) == Slot(disk, ips[j], k);
  }

  lemma EffectOwned(v: Volume, e: Effect, v': Volume, owner: Owner, first: nat, limit: nat) returns (owner': Owner)
    requires OwnedBy(v, owner, first, limit) && Does(v, e, v', first, limit)
    ensures OwnedBy(v', owner', first, limit)
  {
    match e
    case FillAddr(i, k, b) =>
      FillDirect(v.disk, v.ips, owner, first, limit, i, k, b);
      BitsTaken(v.bm, owner, first, |v.disk|, b, (i, k));
      owner' := owner[b := (i, k)];
    case FillEntry(i, e, b) =>
      BlockMap.FillEntry(v.disk, v.ips, owner, first, limit, i, e, b);
      BitsTaken(v.bm, owner, first, |v.disk|, b, (i, NDIRECT + 1 + e));
      assert Slot(v.disk, v.ips[i], NDIRECT) == v.ips[i].addrs[NDIRECT];
      owner' := owner[b := (i, NDIRECT + 1 + e)];
    case Store(i, bn, data) =>
      WriteData(v.disk, v.ips, owner, first, limit, i, bn, data);
      owner' := owner;
    case SetSize(i, size) =>
      SizeOwned(v.disk, v.ips, owner, first, limit, i, size);
      owner' := owner;
    case FreeAddr(i, k) =>
      FreeDirect(v.disk, v.ips, owner, first, limit, i, k);
      BitsFreed(v.bm, owner, first, |v.disk|, v.ips[i].addrs[k]);
      owner' := owner - {v.ips[i].addrs[k]};
    case FreeRest(i) =>
      DropIndirect(v.disk, v.ips, owner, first, limit, i);
      Fs.FreedIndirect(v.bm, v'.bm, |v.disk|, v.disk, v.ips, owner, first, limit, i);
      owner' := Without(owner, i);
  }

  /** A sequence of effects. */
  ghost predicate Chain(vs: seq<Volume>, es: seq<Effect>, first: nat, limit: nat) {
    |vs| == |es| + 1 && forall i :: 0 <= i < |es| ==> Does(vs[i], es[i], vs[i + 1], first, limit)
  }

  ghost predicate Leads(v: Volume, v': Volume, first: nat, limit: nat) {
    exists vs, es :: Chain(vs, es, first, limit) && vs[0] == v && vs[|es|] == v'
  }

  lemma LeadsOwned(v: Volume, v': Volume, first: nat, limit: nat)
    requires Owned(v, first, limit) && Leads(v, v', first, limit)
    ensures Owned(v', first, limit)
  {
    var vs, es :| Chain(vs, es, first, limit) && vs[0] == v && vs[|es|] == v';
    for i := 0 to |es|
      invariant Owned(vs[i], first, limit)
    {
      var owner :| OwnedBy(vs[i], owner, first, limit);
      owner := EffectOwned(vs[i], es[i], vs[i + 1], owner, first, limit);
    }
  }

  /** Each operation whose writes survive a crash changes what the home blocks hold by steps of these kinds. */
  ghost predicate BlockOps(a: A.Disk, view: seq<Block> -> Volume, first: nat, limit: nat)
    requires A.Fits(a.base, a.writes) && a.mark <= |a.writes|
  {
    forall i: nat, j: nat :: WholeOp(Kept(a), i, j) ==> Leads(view(After(a, i)), view(After(a, j)), first, limit)
  }

  /** If every operation, whole, allocates, writes and frees as the calls do, then after a crash
      anywhere in any run each block has one owner at most and the bitmap marks those that have. */
  lemma CrashedBlocks(run: seq<State>, steps: seq<Step>, home: seq<Block>, i: nat, rrun: seq<State>, rsteps: seq<Step>,
                      r: State, view: seq<Block> -> Volume, first: nat, limit: nat)
    returns (ghosts: seq<A.Disk>, es: seq<A.Event>)
    requires FromBoot(run, steps, home) && NoOverrun(run) && i < |run| && Recovers(run[i], rrun, rsteps, r)
    requires Owned(view(home), first, limit)
    ensures Simulates(run, steps, ghosts, es) && A.IsRun(ghosts, es) && ghosts[0] == A.Start(home) && i < |ghosts|
    ensures A.Wf(ghosts[i]) && r.start <= |r.disk|
    ensures Serial(Kept(ghosts[i])) && BlockOps(ghosts[i], view, first, limit) ==>
      Owned(view(r.disk[..r.start]), first, limit)
  {
    var ok := (c: seq<Block>) => Owned(view(c), first, limit);
    ghosts, es := CrashKeepsAny(run, steps, home, i, rrun, rsteps, r, ok);
    var a := ghosts[i];
    if Serial(Kept(a)) && BlockOps(a, view, first, limit) {
      forall m: nat, n: nat | WholeOp(Kept(a), m, n) && ok(After(a, m)) ensures ok(After(a, n)) {
        LeadsOwned(view(After(a, m)), view(After(a, n)), first, limit);
      }
    }
  }

  // ---- Operations at the same time

  /** A place: a block, an inode, or the bit of a block. */
  datatype Place = BlockAt(b: nat) | InodeAt(i: nat) | BitAt(b: nat)

  datatype Value = Nothing | OfBlock(block: Block) | OfInode(ip: Inode) | OfBit(used: bool)

  function At(v: Volume, l: Place): (x: Value) {
    match l
    case BlockAt(b) => if b < |v.disk| then OfBlock(v.disk[b]) else Nothing
    case InodeAt(i) => if i < |v.ips| then OfInode(v.ips[i]) else Nothing
    case BitAt(b) => if b < |v.bm| * BPB then OfBit(Used(v.bm, b)) else Nothing
  }

  ghost predicate MayAct(v: Volume, v': Volume, first: nat, limit: nat) {
    exists e :: Does(v, e, v', first, limit)
  }

  ghost function BlockRules(view: seq<Block> -> Volume, first: nat, limit: nat)
    : (r: L.Rules<Volume, Place, Value, ()>) {
    L.Rules(view, At, (v, w, op, v', g) => MayAct(v, v', first, limit), ())
  }

  /** Volumes that are the same at every place have the same owners. */
  lemma SamePlaces(v: Volume, v': Volume, owner: Owner, first: nat, limit: nat)
    requires OwnedBy(v, owner, first, limit) && forall l :: At(v', l) == At(v, l)
    ensures OwnedBy(v', owner, first, limit)
  {
    assert At(v', BlockAt(|v.disk|)) == At(v, BlockAt(|v.disk|)) &&
      At(v', BlockAt(|v'.disk|)) == At(v, BlockAt(|v'.disk|));
    assert At(v', InodeAt(|v.ips|)) == At(v, InodeAt(|v.ips|)) && At(v', InodeAt(|v'.ips|)) == At(v, InodeAt(|v'.ips|));
    forall b: nat | b < |v.disk| ensures v'.disk[b] == v.disk[b] {
      assert At(v', BlockAt(b)) == At(v, BlockAt(b));
    }
    forall i: nat | i < |v.ips| ensures v'.ips[i] == v.ips[i] {
      assert At(v', InodeAt(i)) == At(v, InodeAt(i));
    }
    assert v'.disk == v.disk && v'.ips == v.ips;
    forall b: nat | b < |v.disk| ensures b < |v'.bm| * BPB && (Used(v'.bm, b) <==> Used(v.bm, b)) {
      assert At(v', BitAt(b)) == At(v, BitAt(b));
    }
    var last := |v.disk| - 1;
    assert At(v', BitAt(last)) == At(v, BitAt(last));
  }

  lemma BlocksLawful(view: seq<Block> -> Volume, first: nat, limit: nat)
    ensures L.Lawful(BlockRules(view, first, limit), (v, w) => Owned(v, first, limit))
  {
    var r := BlockRules(view, first, limit);
    forall v: Volume, v': Volume | Owned(v, first, limit) && L.SameOff(r, v, v', {}) ensures Owned(v', first, limit) {
      var owner :| OwnedBy(v, owner, first, limit);
      forall l ensures At(v', l) == At(v, l) {
        assert r.at(v', l) == r.at(v, l);
      }
      SamePlaces(v, v', owner, first, limit);
    }
    forall v: Volume, v': Volume | Owned(v, first, limit) && MayAct(v, v', first, limit)
      ensures Owned(v', first, limit) {
      var e :| Does(v, e, v', first, limit);
      var owner :| OwnedBy(v, owner, first, limit);
      owner := EffectOwned(v, e, v', owner, first, limit);
    }
  }

  /** Calls run at the same time and their writes interleave; each changes only blocks, inodes and bits
      it holds, and lets go of them when they are written.  Then after a crash anywhere, in the middle of
      any calls, each block has one owner at most and the bitmap marks those that have. */
  lemma CrashedCalls(run: seq<State>, steps: seq<Step>, home: seq<Block>, i: nat, rrun: seq<State>, rsteps: seq<Step>,
                     r: State, view: seq<Block> -> Volume, first: nat, limit: nat)
    returns (ghosts: seq<A.Disk>, es: seq<A.Event>)
    requires FromBoot(run, steps, home) && NoOverrun(run) && i < |run| && Recovers(run[i], rrun, rsteps, r)
    requires Owned(view(home), first, limit)
    ensures Simulates(run, steps, ghosts, es) && A.IsRun(ghosts, es) && ghosts[0] == A.Start(home)
    ensures forall books, moves :: L.Booked(BlockRules(view, first, limit), ghosts, es, books, moves, i) ==>
      r.start <= |r.disk| && Owned(view(r.disk[..r.start]), first, limit)
  {
    BlocksLawful(view, first, limit);
    ghosts, es := L.CrashKeepsLocked(BlockRules(view, first, limit), (v, w) => Owned(v, first, limit), run, steps,
      home, i,
      rrun, rsteps, r);
  }
}
