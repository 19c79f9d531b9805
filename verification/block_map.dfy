/** The blocks of inodes (kernel/fs.c, include/fs.h): which blocks an inode holds,
    which bytes it stands for, and who owns each block. */
module BlockMap {
  import opened Blocks
  import opened Bitmap

  const NDIRECT: nat := 10
  const NINDIRECT: nat := 128
  const MAXFILE: nat := 138
  const MAXBYTES: nat := 70656       // MAXFILE * BSIZE
  const NSLOTS: nat := 139

  datatype Inode = Inode(size: nat, addrs: seq<nat>)

  /** Slot k of an inode: a direct address, the address of the indirect block, or
      an entry of the indirect block. */
  function Slot(disk: seq<Block>, ip: Inode, k: nat): (b: nat) {
    if |ip.addrs| != NDIRECT + 1 || k >= NSLOTS then 0
    else if k <= NDIRECT then ip.addrs[k]
    else if 0 < ip.addrs[NDIRECT] < |disk| then Word(disk[ip.addrs[NDIRECT]], k - NDIRECT - 1)
    else 0
  }

  /** The slot of the bn-th block of data. */
  function DataSlot(bn: nat): (k: nat) {
    if bn < NDIRECT then bn else bn + 1
  }

  function Fetch(disk: seq<Block>, b: nat): (d: Block) {
    if 0 < b < |disk| then disk[b] else Zeroes()
  }

  /** The bn-th block of data; a block that is not there reads as zeroes. */
  function DataBlock(disk: seq<Block>, ip: Inode, bn: nat): (d: Block) {
    Fetch(disk, Slot(disk, ip, DataSlot(bn)))
  }

  /** All bytes an inode can have. */
  function Image(disk: seq<Block>, ip: Inode): (s: seq<Byte>)
    ensures |s| == MAXBYTES
  {
    seq(MAXBYTES, p requires 0 <= p < MAXBYTES => DataBlock(disk, ip, p / BSIZE)[p % BSIZE])
  }

  function Content(disk: seq<Block>, ip: Inode): (s: seq<Byte>) {
    if ip.size <= MAXBYTES then Image(disk, ip)[..ip.size] else []
  }

  type Owner = map<nat, (nat, nat)>

  /** An owned block is in the slot its owner says. */
  ghost predicate OwnsSlots(disk: seq<Block>, ips: seq<Inode>, owner: Owner, first: nat, limit: nat) {
    && 1 <= first <= limit <= |disk|
    && (forall i :: 0 <= i < |ips| ==> |ips[i].addrs| == NDIRECT + 1)
    && (forall b :: b in owner ==>
      first <= b < limit && owner[b].0 < |ips| && Slot(disk, ips[owner[b].0], owner[b].1) == b)
    && (forall i, k :: 0 <= i < |ips| && 0 <= k < NSLOTS && Slot(disk, ips[i], k) != 0 ==>
          Slot(disk, ips[i], k) in owner && owner[Slot(disk, ips[i], k)] == (i, k))
  }

  /** The bits set are exactly those of the metadata and of the owned blocks. */
  ghost predicate BitsOwned(bm: seq<Block>, owner: Owner, first: nat, size: nat) {
    && size <= |bm| * BPB
    && (forall b :: 0 <= b < size ==> (Used(bm, b) <==> b < first || b in owner))
  }

  lemma BitsTaken(bm: seq<Block>, owner: Owner, first: nat, size: nat, b: nat, o: (nat, nat))
    requires BitsOwned(bm, owner, first, size) && first <= b < size
    ensures BitsOwned(Mark(bm, b, true), owner[b := o], first, size)
  {
  }

  lemma BitsFreed(bm: seq<Block>, owner: Owner, first: nat, size: nat, b: nat)
    requires BitsOwned(bm, owner, first, size) && first <= b < size && b in owner
    ensures Used(bm, b) && BitsOwned(Mark(bm, b, false), owner - {b}, first, size)
  {
  }

  /** Exactly the slots needed for `size` bytes are filled. */
  predicate Needed(size: nat, k: nat) {
    if k < NDIRECT then k * BSIZE < size
    else if k == NDIRECT then NDIRECT * BSIZE < size
    else (k - 1) * BSIZE < size
  }

  ghost predicate Exact(disk: seq<Block>, ip: Inode, size: nat) {
    size <= MAXBYTES && forall k :: 0 <= k < NSLOTS ==> (Slot(disk, ip, k) != 0 <==> Needed(size, k))
  }

  // ---- Filling a slot

  ghost predicate SameData(disk: seq<Block>, ips: seq<Inode>, disk': seq<Block>, ips': seq<Inode>) {
    && |ips'| == |ips|
    && forall j, bn :: 0 <= j < |ips| && 0 <= bn < MAXFILE ==>
      DataBlock(disk', ips'[j], bn) == DataBlock(disk, ips[j], bn)
  }

  /** The slots are as before, except that slot k of inode i is now b. */
  ghost predicate SlotPut(disk: seq<Block>, ips: seq<Inode>, disk': seq<Block>, ips': seq<Inode>, i: nat, k: nat,
      b: nat) {
    && |ips'| == |ips|
    && forall j, l :: 0 <= j < |ips| && 0 <= l < NSLOTS ==>
         Slot(disk', ips'[j], l) == if j == i && l == k then b else Slot(disk, ips[j], l)
  }

  /** A filled slot leaves the bytes of every inode as they were. */
  lemma FillKeepsData(disk: seq<Block>, ips: seq<Inode>, owner: Owner, first: nat, limit: nat, i: nat, k: nat, b: nat,
      disk': seq<Block>, ips': seq<Inode>)
    requires OwnsSlots(disk, ips, owner, first, limit) && i < |ips| && k < NSLOTS && first <= b < limit && b !in owner
    requires |disk'| == |disk| && |ips'| == |ips| && Slot(disk, ips[i], k) == 0 &&
      SlotPut(disk, ips, disk', ips', i, k, b)
    requires disk'[b] == Zeroes()
    requires forall c :: 0 <= c < |disk| && c != b && disk'[c] != disk[c] ==> c in owner && owner[c].1 == NDIRECT
    ensures SameData(disk, ips, disk', ips')
  {
    forall j, bn | 0 <= j < |ips| && 0 <= bn < MAXFILE
      ensures DataBlock(disk', ips'[j], bn) == DataBlock(disk, ips[j], bn) {
      var c := Slot(disk, ips[j], DataSlot(bn));
      assert Slot(disk', ips'[j], DataSlot(bn)) == if j == i && DataSlot(bn) == k then b else c;
      if c != 0 {
        assert owner[c] == (j, DataSlot(bn));
      }
    }
  }

  /** Filling an empty direct slot, or the slot of the indirect block, with a new zeroed block. */
  lemma FillDirect(disk: seq<Block>, ips: seq<Inode>, owner: Owner, first: nat, limit: nat, i: nat, k: nat, b: nat)
    requires OwnsSlots(disk, ips, owner, first, limit) && i < |ips| && k <= NDIRECT
    requires ips[i].addrs[k] == 0 && first <= b < limit && b !in owner
    ensures var disk' := disk[b := Zeroes()];
      var ips' := ips[i := ips[i].(addrs := ips[i].addrs[k := b])];
      && SlotPut(disk, ips, disk', ips', i, k, b) && SameData(disk, ips, disk', ips')
      && OwnsSlots(disk', ips', owner[b := (i, k)], first, limit)
  {
    var disk' := disk[b := Zeroes()];
    var ips' := ips[i := ips[i].(addrs := ips[i].addrs[k := b])];
    forall j, l | 0 <= j < |ips| && 0 <= l < NSLOTS
      ensures Slot(disk', ips'[j], l) == if j == i && l == k then b else Slot(disk, ips[j], l)
    {
      assert Slot(disk, ips[j], NDIRECT) == ips[j].addrs[NDIRECT] != b;
    }
    FillKeepsData(disk, ips, owner, first, limit, i, k, b, disk', ips');
  }

  /** Filling an empty entry of the indirect block with a new zeroed block. */
  lemma FillEntry(disk: seq<Block>, ips: seq<Inode>, owner: Owner, first: nat, limit: nat, i: nat, e: nat, b: nat)
    requires OwnsSlots(disk, ips, owner, first, limit) && limit <= UINT && i < |ips| && e < NINDIRECT
    requires ips[i].addrs[NDIRECT] != 0 && Slot(disk, ips[i], NDIRECT + 1 + e) == 0 && first <= b < limit && b !in owner
    ensures var ind := Slot(disk, ips[i], NDIRECT);
      && first <= ind < limit && ind != b
      && var disk' := disk[b := Zeroes()][ind := SetWord(disk[ind], e, b)];
      && SlotPut(disk, ips, disk', ips, i, NDIRECT + 1 + e, b) && SameData(disk, ips, disk', ips)
      && OwnsSlots(disk', ips, owner[b := (i, NDIRECT + 1 + e)], first, limit)
  {
    var ind := Slot(disk, ips[i], NDIRECT);
    var disk' := disk[b := Zeroes()][ind := SetWord(disk[ind], e, b)];
    forall j, l | 0 <= j < |ips| && 0 <= l < NSLOTS
      ensures Slot(disk', ips[j], l) == if j == i && l == NDIRECT + 1 + e then b else Slot(disk, ips[j], l)
    {
      assert Slot(disk, ips[j], NDIRECT) == ips[j].addrs[NDIRECT] != b;
      if j != i {
        assert Slot(disk, ips[j], NDIRECT) != ind;
      }
    }
    FillKeepsData(disk, ips, owner, first, limit, i, NDIRECT + 1 + e, b, disk', ips);
  }

  // ---- Writing data

  /** Writing a block of data changes that block of that inode alone. */
  lemma WriteData(disk: seq<Block>, ips: seq<Inode>, owner: Owner, first: nat, limit: nat, i: nat, bn: nat, data: Block)
    requires OwnsSlots(disk, ips, owner, first, limit) && i < |ips| && bn < MAXFILE
    requires Slot(disk, ips[i], DataSlot(bn)) != 0
    ensures var b := Slot(disk, ips[i], DataSlot(bn));
      && first <= b < limit
      && var disk' := disk[b := data];
      && (forall j, l :: 0 <= j < |ips| && 0 <= l < NSLOTS ==> Slot(disk', ips[j], l) == Slot(disk, ips[j], l))
      && (forall j, l :: 0 <= j < |ips| && 0 <= l < MAXFILE ==>
            DataBlock(disk', ips[j], l) == if j == i && l == bn then data else DataBlock(disk, ips[j], l))
      && OwnsSlots(disk', ips, owner, first, limit)
  {
    var b := Slot(disk, ips[i], DataSlot(bn));
    var disk' := disk[b := data];
    forall j, l | 0 <= j < |ips| && 0 <= l < NSLOTS ensures Slot(disk', ips[j], l) == Slot(disk, ips[j], l) {
      assert owner[b] == (i, DataSlot(bn));
      assert Slot(disk, ips[j], NDIRECT) != b;
    }
    forall j, l | 0 <= j < |ips| && 0 <= l < MAXFILE
      ensures DataBlock(disk', ips[j], l) == if j == i && l == bn then data else DataBlock(disk, ips[j], l)
    {
      var c := Slot(disk, ips[j], DataSlot(l));
      assert Slot(disk', ips[j], DataSlot(l)) == c;
      if c != 0 {
        assert owner[c] == (j, DataSlot(l));
      }
    }
  }

  /** Where byte p lies with respect to m bytes at o in block bn. */
  lemma PlaceOf(p: nat, bn: nat, o: nat, m: nat)
    requires o + m <= BSIZE
    ensures p / BSIZE == bn ==> p == bn * BSIZE + p % BSIZE
    ensures p / BSIZE != bn ==> p < bn * BSIZE || p >= (bn + 1) * BSIZE
  {
  }

  /** Replacing m bytes of one block replaces those bytes of the image. */
  lemma ImagePatched(disk: seq<Block>, ip: Inode, disk': seq<Block>, ip': Inode, bn: nat, o: nat, piece: seq<Byte>)
    requires bn < MAXFILE && o + |piece| <= BSIZE
    requires forall l :: 0 <= l < MAXFILE && l != bn ==> DataBlock(disk', ip', l) == DataBlock(disk, ip, l)
    requires DataBlock(disk', ip', bn) == DataBlock(disk, ip, bn)[..o] + piece + DataBlock(disk, ip, bn)[o + |piece|..]
    ensures var at := bn * BSIZE + o;
      at + |piece| <= MAXBYTES && Image(disk', ip') == Image(disk, ip)[..at] + piece + Image(disk, ip)[at + |piece|..]
  {
    var at := bn * BSIZE + o;
    var s, s' := Image(disk, ip), Image(disk', ip');
    var r := s[..at] + piece + s[at + |piece|..];
    forall p | 0 <= p < MAXBYTES ensures s'[p] == r[p] {
      PlaceOf(p, bn, o, |piece|);
      if p / BSIZE == bn {
        assert s'[p] == DataBlock(disk', ip', bn)[p % BSIZE];
      } else {
        assert s'[p] == DataBlock(disk', ip', p / BSIZE)[p % BSIZE] == s[p];
      }
    }
  }

  lemma SameImage(disk: seq<Block>, ip: Inode, disk': seq<Block>, ip': Inode)
    requires forall l :: 0 <= l < MAXFILE ==> DataBlock(disk', ip', l) == DataBlock(disk, ip, l)
    ensures Image(disk', ip') == Image(disk, ip)
  {
  }

  /** Mapping block bn extends the filled slots to those needed for the bytes written there. */
  lemma ExactGrows(disk: seq<Block>, ip: Inode, disk': seq<Block>, ip': Inode, ext: nat, off: nat, m: nat)
    requires Exact(disk, ip, ext) && off <= ext && 0 < m <= BSIZE - off % BSIZE && off + m <= MAXBYTES
    requires var bn := off / BSIZE;
      forall k :: 0 <= k < NSLOTS ==>
        (Slot(disk', ip', k) != 0 <==> Slot(disk, ip, k) != 0 || k == DataSlot(bn) || (bn >= NDIRECT && k == NDIRECT))
    ensures Exact(disk', ip', if off + m > ext then off + m else ext)
  {
    var bn := off / BSIZE;
    var ext' := if off + m > ext then off + m else ext;
    forall k | 0 <= k < NSLOTS ensures Slot(disk', ip', k) != 0 <==> Needed(ext', k) {
      assert Needed(ext', k) <==> Needed(ext, k) || k == DataSlot(bn) || (bn >= NDIRECT && k == NDIRECT);
    }
  }

  // ---- Freeing

  lemma FreeDirect(disk: seq<Block>, ips: seq<Inode>, owner: Owner, first: nat, limit: nat, i: nat, k: nat)
    requires OwnsSlots(disk, ips, owner, first, limit) && i < |ips| && k < NDIRECT && ips[i].addrs[k] != 0
    ensures var ips' := ips[i := ips[i].(addrs := ips[i].addrs[k := 0])];
      && SlotPut(disk, ips, disk, ips', i, k, 0)
      && ips[i].addrs[k] in owner && OwnsSlots(disk, ips', owner - {ips[i].addrs[k]}, first, limit)
  {
    var b := ips[i].addrs[k];
    assert Slot(disk, ips[i], k) == b;
    var ips' := ips[i := ips[i].(addrs := ips[i].addrs[k := 0])];
    assert SlotPut(disk, ips, disk, ips', i, k, 0);
  }

  /** The owners without the indirect block of inode i and the blocks it lists. */
  function Without(owner: Owner, i: nat): (r: Owner) {
    map b | b in owner && !(owner[b].0 == i && owner[b].1 >= NDIRECT) :: owner[b]
  }

  /** Dropping the indirect block drops all its entries with it. */
  lemma DropIndirect(disk: seq<Block>, ips: seq<Inode>, owner: Owner, first: nat, limit: nat, i: nat)
    requires OwnsSlots(disk, ips, owner, first, limit) && i < |ips|
    ensures var ips' := ips[i := ips[i].(addrs := ips[i].addrs[NDIRECT := 0])];
      && (forall j, l :: 0 <= j < |ips| && 0 <= l < NSLOTS ==>
            Slot(disk, ips'[j], l) == if j == i && l >= NDIRECT then 0 else Slot(disk, ips[j], l))
      && OwnsSlots(disk, ips', Without(owner, i), first, limit)
  {
    var ips' := ips[i := ips[i].(addrs := ips[i].addrs[NDIRECT := 0])];
    forall b | b in Without(owner, i) ensures Slot(disk, ips'[owner[b].0], owner[b].1) == b {
      assert Slot(disk, ips[owner[b].0], owner[b].1) == b;
    }
  }
}
