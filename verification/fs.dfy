/** Blocks and inode contents (kernel/fs.c, kernel/file.c): the allocator, the block
    map of inodes, reading, writing and truncating, as the code updates them in place. */
module Fs {
  import opened Blocks
  import opened Bitmap
  import opened BlockMap

  const IPB: nat := 8

  /** A block passed to log_write: a block of the bitmap, of inodes, or of data. */
  datatype Logged = MapBlock(n: nat) | InodeBlock(n: nat) | BlockOf(b: nat)

  function MapBlocks(n: nat): (s: set<Logged>) {
    set k | 0 <= k < n :: MapBlock(k)
  }

  /** What the log keeps: the bitmap, the blocks of data and the inodes on disk. */
  datatype Home = Home(bitmap: seq<Block>, disk: seq<Block>, dip: seq<Inode>)

  /** Every block of the bitmap, of data or of inodes that differs has been passed to log_write. */
  ghost predicate Covers(logged: set<Logged>, h: Home, h': Home) {
    && |h'.bitmap| == |h.bitmap| && |h'.disk| == |h.disk| && |h'.dip| == |h.dip|
    && (forall n :: 0 <= n < |h.bitmap| && h'.bitmap[n] != h.bitmap[n] ==> MapBlock(n) in logged)
    && (forall c :: 0 <= c < |h.disk| && h'.disk[c] != h.disk[c] ==> BlockOf(c) in logged)
    && (forall i :: 0 <= i < |h.dip| && h'.dip[i] != h.dip[i] ==> InodeBlock(i / IPB) in logged)
  }

  /** The states that differ from h in logged blocks alone. */
  ghost function Covered(h: Home, logged: set<Logged>): iset<Home> {
    iset h' | Covers(logged, h, h')
  }

  lemma CoveredSame(h: Home, logged: set<Logged>)
    ensures h in Covered(h, logged)
  {
  }

  lemma CoveredMore(h: Home, h1: Home, h2: Home, logged1: set<Logged>, logged2: set<Logged>)
    requires h1 in Covered(h, logged1) && h2 in Covered(h1, logged2) && logged1 <= logged2
    ensures h2 in Covered(h, logged2)
  {
    forall n | 0 <= n < |h.bitmap| && h2.bitmap[n] != h.bitmap[n] ensures MapBlock(n) in logged2 {
      assert h1.bitmap[n] != h.bitmap[n] || h2.bitmap[n] != h1.bitmap[n];
    }
    forall c | 0 <= c < |h.disk| && h2.disk[c] != h.disk[c] ensures BlockOf(c) in logged2 {
      assert h1.disk[c] != h.disk[c] || h2.disk[c] != h1.disk[c];
    }
    forall i | 0 <= i < |h.dip| && h2.dip[i] != h.dip[i] ensures InodeBlock(i / IPB) in logged2 {
      assert h1.dip[i] != h.dip[i] || h2.dip[i] != h1.dip[i];
    }
  }

  lemma MarkCovered(h: Home, b: nat, used: bool, logged: set<Logged>)
    requires b < |h.bitmap| * BPB && MapBlock(b / BPB) in logged
    ensures h.(bitmap := Mark(h.bitmap, b, used)) in Covered(h, logged)
  {
  }

  lemma BlockCovered(h: Home, b: nat, data: Block, logged: set<Logged>)
    requires b < |h.disk| && BlockOf(b) in logged
    ensures h.(disk := h.disk[b := data]) in Covered(h, logged)
  {
  }

  lemma FreshCovered(h: Home, b: nat, logged: set<Logged>)
    requires b < |h.bitmap| * BPB && b < |h.disk| && MapBlock(b / BPB) in logged && BlockOf(b) in logged
    ensures h.(bitmap := Mark(h.bitmap, b, true), disk := h.disk[b := Zeroes()]) in Covered(h, logged)
  {
    var h1 := h.(bitmap := Mark(h.bitmap, b, true));
    MarkCovered(h, b, true, logged);
    BlockCovered(h1, b, Zeroes(), logged);
    CoveredMore(h, h1, h1.(disk := h1.disk[b := Zeroes()]), logged, logged);
  }

  lemma InodeCovered(h: Home, i: nat, ip: Inode, logged: set<Logged>)
    requires i < |h.dip| && InodeBlock(i / IPB) in logged
    ensures h.(dip := h.dip[i := ip]) in Covered(h, logged)
  {
  }

  /** The contents after writing s at off. */
  function Splice(c: seq<Byte>, off: nat, s: seq<Byte>): (r: seq<Byte>)
    requires off <= |c|
  {
    c[..off] + s + if off + |s| < |c| then c[off + |s|..] else []
  }

  /** One empty slot is filled, and no byte changes. */
  ghost predicate Filled(disk: seq<Block>, ips: seq<Inode>, disk': seq<Block>, ips': seq<Inode>, i: nat, k: nat) {
    && |ips'| == |ips| && i < |ips| && Slot(disk, ips[i], k) == 0 && Slot(disk', ips'[i], k) != 0
    && SlotPut(disk, ips, disk', ips', i, k, Slot(disk', ips'[i], k)) && SameData(disk, ips, disk', ips')
  }

  /** Block bn of inode i is mapped; no other data slot and no byte changes. */
  ghost predicate Mapped(disk: seq<Block>, ips: seq<Inode>, disk': seq<Block>, ips': seq<Inode>, i: nat, bn: nat) {
    && |ips'| == |ips| && i < |ips| && Slot(disk', ips'[i], DataSlot(bn)) != 0 && SameData(disk, ips, disk', ips')
    && forall j, k :: 0 <= j < |ips| && 0 <= k < NSLOTS ==>
         if j == i && Slot(disk, ips[j], k) == 0 && (k == DataSlot(bn) || (bn >= NDIRECT && k == NDIRECT))
         then Slot(disk', ips'[j], k) != 0
         else Slot(disk', ips'[j], k) == Slot(disk, ips[j], k)
  }

  function SlotLog(b: nat): (s: set<Logged>) {
    {MapBlock(b / BPB), BlockOf(b)}
  }

  /** What bmap may log: the filled slots and their bitmap blocks. */
  function MapLog(disk: seq<Block>, ip: Inode, bn: nat): (s: set<Logged>) {
    SlotLog(Slot(disk, ip, DataSlot(bn))) + if bn < NDIRECT then {} else SlotLog(Slot(disk, ip, NDIRECT))
  }

  lemma EntryFilled(disk: seq<Block>, ips: seq<Inode>, owner: Owner, first: nat, limit: nat, i: nat, e: nat, b: nat,
      disk': seq<Block>)
    requires OwnsSlots(disk, ips, owner, first, limit) && limit <= UINT && i < |ips| && e < NINDIRECT
    requires 0 < ips[i].addrs[NDIRECT] < |disk| && Slot(disk, ips[i], NDIRECT + 1 + e) == 0 && first <= b < limit &&
      b !in owner
    requires disk' == disk[b := Zeroes()][ips[i].addrs[NDIRECT] := SetWord(disk[ips[i].addrs[NDIRECT]], e, b)]
    ensures OwnsSlots(disk', ips, owner[b := (i, NDIRECT + 1 + e)], first, limit)
    ensures Filled(disk, ips, disk', ips, i, NDIRECT + 1 + e)
    ensures SlotLog(b) + {BlockOf(ips[i].addrs[NDIRECT])} <= MapLog(disk', ips[i], NDIRECT + e)
  {
    FillEntry(disk, ips, owner, first, limit, i, e, b);
    assert Slot(disk', ips[i], NDIRECT + 1 + e) == b;
    assert Slot(disk', ips[i], NDIRECT) == ips[i].addrs[NDIRECT];
  }

  /** Mapping an indirect block of data: the indirect block if it was missing, then the entry. */
  lemma MappedByEntry(disk0: seq<Block>, ips0: seq<Inode>, disk1: seq<Block>, ips1: seq<Inode>, disk2: seq<Block>,
      i: nat, bn: nat)
    requires NDIRECT <= bn < MAXFILE && i < |ips0|
    requires (disk1 == disk0 && ips1 == ips0 && Slot(disk1, ips1[i], NDIRECT) != 0) ||
      Filled(disk0, ips0, disk1, ips1, i, NDIRECT)
    requires Filled(disk1, ips1, disk2, ips1, i, DataSlot(bn))
    ensures Mapped(disk0, ips0, disk2, ips1, i, bn)
  {
    assert Slot(disk2, ips1[i], NDIRECT) == Slot(disk1, ips1[i], NDIRECT);
  }

  /** The slots of the indirect block and of the data blocks lo .. hi - 1. */
  predicate InRange(k: nat, lo: nat, hi: nat) {
    k == NDIRECT || (k < NDIRECT && lo <= k < hi) || (k > NDIRECT && lo <= k - 1 < hi)
  }

  function Held(disk: seq<Block>, ip: Inode, lo: nat, hi: nat): (s: set<Logged>) {
    set k | 0 <= k < NSLOTS && InRange(k, lo, hi) && Slot(disk, ip, k) != 0 :: BlockOf(Slot(disk, ip, k))
  }

  /** The blocks that mapping and writing the data blocks lo .. hi - 1 of an inode may log. */
  function Touched(nmap: nat, disk: seq<Block>, ip: Inode, lo: nat, hi: nat): (s: set<Logged>) {
    MapBlocks(nmap) + Held(disk, ip, lo, hi)
  }

  lemma HeldBy(disk: seq<Block>, ip: Inode, k: nat, lo: nat, hi: nat)
    requires k < NSLOTS && InRange(k, lo, hi) && Slot(disk, ip, k) != 0
    ensures BlockOf(Slot(disk, ip, k)) in Held(disk, ip, lo, hi)
  {
  }

  lemma MapLogTouched(nmap: nat, disk: seq<Block>, ip: Inode, bn: nat)
    requires bn < MAXFILE && 0 < Slot(disk, ip, DataSlot(bn)) < nmap * BPB
    requires bn >= NDIRECT ==> 0 < Slot(disk, ip, NDIRECT) < nmap * BPB
    ensures MapLog(disk, ip, bn) <= Touched(nmap, disk, ip, bn, bn + 1)
  {
    HeldBy(disk, ip, DataSlot(bn), bn, bn + 1);
    if bn >= NDIRECT {
      HeldBy(disk, ip, NDIRECT, bn, bn + 1);
    }
  }

  /** Slots once filled stay, so what was touched stays touched. */
  lemma TouchedGrows(nmap: nat, disk: seq<Block>, ip: Inode, disk': seq<Block>, ip': Inode, lo: nat, hi: nat,
      lo': nat, hi': nat)
    requires forall k :: 0 <= k < NSLOTS && Slot(disk, ip, k) != 0 ==> Slot(disk', ip', k) == Slot(disk, ip, k)
    requires lo' <= lo && hi <= hi'
    ensures Touched(nmap, disk, ip, lo, hi) <= Touched(nmap, disk', ip', lo', hi')
  {
    forall x | x in Held(disk, ip, lo, hi) ensures x in Held(disk', ip', lo', hi') {
      var k :| 0 <= k < NSLOTS && InRange(k, lo, hi) && Slot(disk, ip, k) != 0 && x == BlockOf(Slot(disk, ip, k));
      HeldBy(disk', ip', k, lo', hi');
    }
  }

  // ---- Writing part of a block

  function Max(x: nat, y: nat): (m: nat) {
    if x < y then y else x
  }

  ghost predicate SameFile(disk: seq<Block>, disk': seq<Block>, ip: Inode) {
    Image(disk', ip) == Image(disk, ip) && forall k :: 0 <= k < NSLOTS ==> Slot(disk', ip, k) == Slot(disk, ip, k)
  }

  /** Inodes other than i keep their slots and their bytes. */
  ghost predicate OthersKept(disk: seq<Block>, ips: seq<Inode>, disk': seq<Block>, ips': seq<Inode>, i: nat) {
    && |ips'| == |ips|
    && forall j :: 0 <= j < |ips| && j != i ==> ips'[j] == ips[j] && SameFile(disk, disk', ips[j])
  }

  /** Slots once filled stay. */
  ghost predicate SlotsKept(disk: seq<Block>, ip: Inode, disk': seq<Block>, ip': Inode) {
    forall k :: 0 <= k < NSLOTS && Slot(disk, ip, k) != 0 ==> Slot(disk', ip', k) == Slot(disk, ip, k)
  }

  /** The bytes of one inode after `piece` was written at off, its slots filled for ext bytes. */
  ghost predicate Wrote(disk: seq<Block>, ip: Inode, disk': seq<Block>, ip': Inode, off: nat, piece: seq<Byte>,
      ext: nat) {
    && off + |piece| <= MAXBYTES && Exact(disk', ip', ext) && SlotsKept(disk, ip, disk', ip')
    && Image(disk', ip') == Image(disk, ip)[..off] + piece + Image(disk, ip)[off + |piece|..]
  }

  lemma MappedKeeps(disk: seq<Block>, ips: seq<Inode>, disk': seq<Block>, ips': seq<Inode>, i: nat, off: nat, m: nat,
      ext: nat)
    requires off + m <= MAXBYTES && 0 < m <= BSIZE - off % BSIZE && off <= ext && i < |ips| && Exact(disk, ips[i], ext)
    requires Mapped(disk, ips, disk', ips', i, off / BSIZE) && ips' == ips[i := ips'[i]]
    ensures OthersKept(disk, ips, disk', ips', i) && SlotsKept(disk, ips[i], disk', ips'[i])
    ensures Exact(disk', ips'[i], Max(ext, off + m))
  {
    ExactGrows(disk, ips[i], disk', ips'[i], ext, off, m);
    forall j | 0 <= j < |ips| && j != i ensures SameFile(disk, disk', ips[j]) {
      SameImage(disk, ips[j], disk', ips'[j]);
    }
  }

  /** The bytes of a block after `piece` is copied in at o. */
  function Patch(data: Block, o: nat, piece: seq<Byte>): (r: Block)
    requires o + |piece| <= BSIZE
  {
    data[..o] + piece + data[o + |piece|..]
  }

  lemma BlockWritten(disk: seq<Block>, ips: seq<Inode>, owner: Owner, first: nat, limit: nat, i: nat, off: nat,
      piece: seq<Byte>, ext: nat)
    requires OwnsSlots(disk, ips, owner, first, limit) && i < |ips| && off + |piece| <= MAXBYTES &&
      off % BSIZE + |piece| <= BSIZE
    requires off < MAXBYTES && Slot(disk, ips[i], DataSlot(off / BSIZE)) != 0 && Exact(disk, ips[i], ext)
    ensures var b := Slot(disk, ips[i], DataSlot(off / BSIZE));
      && first <= b < limit
      && var disk' := disk[b := Patch(disk[b], off % BSIZE, piece)];
      && OwnsSlots(disk', ips, owner, first, limit) && OthersKept(disk, ips, disk', ips, i)
      && Wrote(disk, ips[i], disk', ips[i], off, piece, ext)
  {
    var bn := off / BSIZE;
    var b := Slot(disk, ips[i], DataSlot(bn));
    WriteData(disk, ips, owner, first, limit, i, bn, Patch(disk[b], off % BSIZE, piece));
    var disk' := disk[b := Patch(disk[b], off % BSIZE, piece)];
    assert DataBlock(disk, ips[i], bn) == disk[b];
    ImagePatched(disk, ips[i], disk', ips[i], bn, off % BSIZE, piece);
    forall j | 0 <= j < |ips| && j != i ensures SameFile(disk, disk', ips[j]) {
      SameImage(disk, ips[j], disk', ips[j]);
    }
  }

  /** Mapping a block and then writing part of it. */
  lemma MapThenWrite(disk: seq<Block>, ips: seq<Inode>, disk1: seq<Block>, ips1: seq<Inode>, owner: Owner, first: nat,
      limit: nat, i: nat, off: nat, piece: seq<Byte>, ext: nat, disk2: seq<Block>)
    requires off + |piece| <= MAXBYTES && 0 < |piece| <= BSIZE - off % BSIZE && off <= ext && i < |ips| &&
      Exact(disk, ips[i], ext)
    requires Mapped(disk, ips, disk1, ips1, i, off / BSIZE) && ips1 == ips[i := ips1[i]] &&
      OwnsSlots(disk1, ips1, owner, first, limit)
    requires var b := Slot(disk1, ips1[i], DataSlot(off / BSIZE));
      0 < b < |disk1| && disk2 == disk1[b := Patch(disk1[b], off % BSIZE, piece)]
    ensures OwnsSlots(disk2, ips1, owner, first, limit) && OthersKept(disk, ips, disk2, ips1, i)
    ensures Wrote(disk, ips[i], disk2, ips1[i], off, piece, Max(ext, off + |piece|))
    ensures forall k :: 0 <= k < NSLOTS ==> Slot(disk2, ips1[i], k) == Slot(disk1, ips1[i], k)
  {
    MappedKeeps(disk, ips, disk1, ips1, i, off, |piece|, ext);
    BlockWritten(disk1, ips1, owner, first, limit, i, off, piece, Max(ext, off + |piece|));
    WriteData(disk1, ips1, owner, first, limit, i, off / BSIZE,
      Patch(disk1[Slot(disk1, ips1[i], DataSlot(off / BSIZE))], off % BSIZE, piece));
    SameImage(disk, ips[i], disk1, ips1[i]);
  }

  lemma WriteLogs(nmap: nat, disk: seq<Block>, ips: seq<Inode>, owner: Owner, first: nat, limit: nat, i: nat, bn: nat,
      disk': seq<Block>)
    requires OwnsSlots(disk, ips, owner, first, limit) && limit <= nmap * BPB && i < |ips| && bn < MAXFILE
    requires Slot(disk, ips[i], DataSlot(bn)) != 0 && (bn >= NDIRECT ==> Slot(disk, ips[i], NDIRECT) != 0)
    requires forall k :: 0 <= k < NSLOTS ==> Slot(disk', ips[i], k) == Slot(disk, ips[i], k)
    ensures MapLog(disk, ips[i], bn) + {BlockOf(Slot(disk, ips[i], DataSlot(bn)))} <= Touched(nmap, disk', ips[i], bn,
      bn + 1)
  {
    MapLogTouched(nmap, disk, ips[i], bn);
    HeldBy(disk, ips[i], DataSlot(bn), bn, bn + 1);
    TouchedGrows(nmap, disk, ips[i], disk', ips[i], bn, bn + 1, bn, bn + 1);
  }

  lemma WroteMore(disk: seq<Block>, ip: Inode, disk1: seq<Block>, ip1: Inode, disk2: seq<Block>, ip2: Inode, off: nat,
      s: seq<Byte>, t: seq<Byte>, ext1: nat, ext2: nat)
    requires Wrote(disk, ip, disk1, ip1, off, s, ext1) && Wrote(disk1, ip1, disk2, ip2, off + |s|, t, ext2)
    ensures Wrote(disk, ip, disk2, ip2, off, s + t, ext2)
  {
    var m0, m1, m2 := Image(disk, ip), Image(disk1, ip1), Image(disk2, ip2);
    assert m1[..off + |s|] == m0[..off] + s;
    assert m1[off + |s| + |t|..] == m0[off + |s + t|..];
    assert m0[..off] + s + t == m0[..off] + (s + t);
  }

  lemma OthersKeptMore(disk: seq<Block>, ips: seq<Inode>, disk1: seq<Block>, ips1: seq<Inode>, disk2: seq<Block>,
      ips2: seq<Inode>, i: nat)
    requires OthersKept(disk, ips, disk1, ips1, i) && OthersKept(disk1, ips1, disk2, ips2, i)
    ensures OthersKept(disk, ips, disk2, ips2, i)
  {
    forall j | 0 <= j < |ips| && j != i ensures ips2[j] == ips[j] && SameFile(disk, disk2, ips[j]) {
      assert ips1[j] == ips[j];
    }
  }

  /** What one turn of writei's loop does, given that the inode had the blocks of ext bytes. */
  ghost predicate WroteBlock(nmap: nat, disk: seq<Block>, ips: seq<Inode>, logged: set<Logged>, disk': seq<Block>,
      ips': seq<Inode>, logged': set<Logged>, i: nat, off: nat, piece: seq<Byte>, ext: nat) {
    && i < |ips| && |ips'| == |ips| && OthersKept(disk, ips, disk', ips', i)
    && ips' == ips[i := ips[i].(addrs := ips'[i].addrs)] && (off < ext ==> ips' == ips)
    && Wrote(disk, ips[i], disk', ips'[i], off, piece, Max(ext, off + |piece|))
    && logged' <= logged + Touched(nmap, disk', ips'[i], off / BSIZE, off / BSIZE + 1)
  }

  /** The block that bmap gave is patched and logged. */
  lemma BlockStored(nmap: nat, disk: seq<Block>, ips: seq<Inode>, logged: set<Logged>, disk1: seq<Block>,
      ips1: seq<Inode>, logged1: set<Logged>, owner: Owner, first: nat, limit: nat, i: nat, off: nat, piece: seq<Byte>,
      ext: nat, disk2: seq<Block>)
    requires off + |piece| <= MAXBYTES && 0 < |piece| <= BSIZE - off % BSIZE && off <= ext && i < |ips| &&
      Exact(disk, ips[i], ext)
    requires Mapped(disk, ips, disk1, ips1, i, off / BSIZE) && OwnsSlots(disk1, ips1, owner, first, limit) &&
      limit <= nmap * BPB
    requires ips1 == ips[i := ips[i].(addrs := ips1[i].addrs)]
    requires Slot(disk, ips[i], DataSlot(off / BSIZE)) != 0 ==> ips1 == ips
    requires logged1 <= logged + MapLog(disk1, ips1[i], off / BSIZE)
    requires var b := Slot(disk1, ips1[i], DataSlot(off / BSIZE));
      0 < b < |disk1| && disk2 == disk1[b := Patch(disk1[b], off % BSIZE, piece)]
    ensures OwnsSlots(disk2, ips1, owner, first, limit)
    ensures WroteBlock(nmap, disk, ips, logged, disk2, ips1,
      logged1 + {BlockOf(Slot(disk1, ips1[i], DataSlot(off / BSIZE)))}, i, off, piece, ext)
  {
    MapThenWrite(disk, ips, disk1, ips1, owner, first, limit, i, off, piece, ext, disk2);
    WriteLogs(nmap, disk1, ips1, owner, first, limit, i, off / BSIZE, disk2);
  }

  /** What writei's loop has done once s is written at off. */
  ghost predicate WroteBytes(nmap: nat, disk: seq<Block>, ips: seq<Inode>, logged: set<Logged>, disk': seq<Block>,
      ips': seq<Inode>, logged': set<Logged>, i: nat, off: nat, s: seq<Byte>) {
    && i < |ips| && |ips'| == |ips| && OthersKept(disk, ips, disk', ips', i) && off <= ips[i].size
    && ips' == ips[i := ips[i].(addrs := ips'[i].addrs)] && (off + |s| <= ips[i].size ==> ips' == ips)
    && Wrote(disk, ips[i], disk', ips'[i], off, s, Max(ips[i].size, off + |s|))
    && logged' <= logged + Touched(nmap, disk', ips'[i], off / BSIZE, (off + |s| + BSIZE - 1) / BSIZE)
  }

  /** The states in which that is so. */
  ghost function Written(nmap: nat, disk: seq<Block>, ips: seq<Inode>, logged: set<Logged>, i: nat, off: nat,
      s: seq<Byte>): iset<(seq<Block>, seq<Inode>, set<Logged>)> {
    iset w: (seq<Block>, seq<Inode>, set<Logged>) | WroteBytes(nmap, disk, ips, logged, w.0, w.1, w.2, i, off, s)
  }

  lemma WroteNothing(nmap: nat, disk: seq<Block>, ips: seq<Inode>, logged: set<Logged>, i: nat, off: nat)
    requires i < |ips| && off <= ips[i].size && Exact(disk, ips[i], ips[i].size)
    ensures (disk, ips, logged) in Written(nmap, disk, ips, logged, i, off, [])
  {
  }

  lemma LoggedMore(a: set<Logged>, b: set<Logged>, c: set<Logged>, x: set<Logged>, y: set<Logged>, z: set<Logged>)
    requires b <= a + x && c <= b + y && x <= z && y <= z
    ensures c <= a + z
  {
  }

  lemma WroteBytesMore(nmap: nat, disk: seq<Block>, ips: seq<Inode>, logged: set<Logged>, disk1: seq<Block>,
      ips1: seq<Inode>, logged1: set<Logged>, disk2: seq<Block>, ips2: seq<Inode>, logged2: set<Logged>, i: nat,
      off: nat, s: seq<Byte>, t: seq<Byte>)
    requires WroteBytes(nmap, disk, ips, logged, disk1, ips1, logged1, i, off, s)
    requires 0 < |t| <= BSIZE - (off + |s|) % BSIZE
    requires WroteBlock(nmap, disk1, ips1, logged1, disk2, ips2, logged2, i, off + |s|, t, Max(ips[i].size, off + |s|))
    ensures WroteBytes(nmap, disk, ips, logged, disk2, ips2, logged2, i, off, s + t)
  {
    var ext := Max(ips[i].size, off + |s|);
    WroteMore(disk, ips[i], disk1, ips1[i], disk2, ips2[i], off, s, t, ext, Max(ext, off + |s| + |t|));
    OthersKeptMore(disk, ips, disk1, ips1, disk2, ips2, i);
    var lo, hi := off / BSIZE, (off + |s| + |t| + BSIZE - 1) / BSIZE;
    TouchedGrows(nmap, disk1, ips1[i], disk2, ips2[i], lo, (off + |s| + BSIZE - 1) / BSIZE, lo, hi);
    TouchedGrows(nmap, disk2, ips2[i], disk2, ips2[i], (off + |s|) / BSIZE, (off + |s|) / BSIZE + 1, lo, hi);
    LoggedMore(logged, logged1, logged2, Touched(nmap, disk1, ips1[i], lo, (off + |s| + BSIZE - 1) / BSIZE),
               Touched(nmap, disk2, ips2[i], (off + |s|) / BSIZE, (off + |s|) / BSIZE + 1),
                 Touched(nmap, disk2, ips2[i], lo, hi));
  }

  /** Slots and bytes do not depend on the size field. */
  lemma Resized(disk: seq<Block>, ips: seq<Inode>, owner: Owner, first: nat, limit: nat, i: nat, size: nat)
    requires OwnsSlots(disk, ips, owner, first, limit) && i < |ips|
    ensures var ip' := ips[i].(size := size);
      && OwnsSlots(disk, ips[i := ip'], owner, first, limit) && Image(disk, ip') == Image(disk, ips[i])
      && (forall k :: 0 <= k < NSLOTS ==> Slot(disk, ip', k) == Slot(disk, ips[i], k))
  {
    var ip' := ips[i].(size := size);
    assert forall k :: 0 <= k < NSLOTS ==> Slot(disk, ip', k) == Slot(disk, ips[i], k);
    SameImage(disk, ips[i], disk, ip');
    assert SlotPut(disk, ips, disk, ips[i := ip'], i, 0, Slot(disk, ips[i], 0));
  }

  ghost predicate AllExact(disk: seq<Block>, ips: seq<Inode>) {
    forall i :: 0 <= i < |ips| ==> Exact(disk, ips[i], ips[i].size)
  }

  /** What was written at off is spliced into the contents. */
  lemma WroteContent(disk: seq<Block>, ip: Inode, disk': seq<Block>, ip': Inode, off: nat, s: seq<Byte>)
    requires off <= ip.size <= MAXBYTES && Wrote(disk, ip, disk', ip', off, s, Max(ip.size, off + |s|)) &&
      ip'.size == Max(ip.size, off + |s|)
    ensures Content(disk', ip') == Splice(Content(disk, ip), off, s)
  {
  }

  /** The state at the end of writei, the size updated if the file grew. */
  lemma WriteDone(nmap: nat, disk: seq<Block>, ips: seq<Inode>, logged: set<Logged>, disk': seq<Block>,
      ips': seq<Inode>, logged': set<Logged>, owner: Owner, first: nat, limit: nat, i: nat, off: nat, s: seq<Byte>,
      ips2: seq<Inode>)
    requires WroteBytes(nmap, disk, ips, logged, disk', ips', logged', i, off, s) && AllExact(disk, ips)
    requires OwnsSlots(disk', ips', owner, first, limit)
    requires ips2 == ips'[i := ips'[i].(size := Max(ips[i].size, off + |s|))]
    ensures OwnsSlots(disk', ips2, owner, first, limit) && AllExact(disk', ips2) &&
      OthersKept(disk, ips, disk', ips2, i)
    ensures |ips2| == |ips| && Content(disk', ips2[i]) == Splice(Content(disk, ips[i]), off, s)
    ensures logged' <= logged + Touched(nmap, disk', ips2[i], off / BSIZE, (off + |s| + BSIZE - 1) / BSIZE)
  {
    Resized(disk', ips', owner, first, limit, i, Max(ips[i].size, off + |s|));
    var lo, hi := off / BSIZE, (off + |s| + BSIZE - 1) / BSIZE;
    TouchedGrows(nmap, disk', ips'[i], disk', ips2[i], lo, hi, lo, hi);
    forall j | 0 <= j < |ips2| ensures Exact(disk', ips2[j], ips2[j].size) {
      if j != i {
        assert ips2[j] == ips[j];
      }
    }
    WroteContent(disk, ips[i], disk', ips2[i], off, s);
  }

  /** Part of one block is part of the image. */
  lemma ImagePart(disk: seq<Block>, ip: Inode, off: nat, m: nat)
    requires off + m <= MAXBYTES && off % BSIZE + m <= BSIZE && off < MAXBYTES
    ensures DataBlock(disk, ip, off / BSIZE)[off % BSIZE..off % BSIZE + m] == Image(disk, ip)[off..off + m]
  {
    var part, s := DataBlock(disk, ip, off / BSIZE)[off % BSIZE..off % BSIZE + m], Image(disk, ip);
    forall q | 0 <= q < m ensures part[q] == s[off..off + m][q] {
      assert (off + q) / BSIZE == off / BSIZE && (off + q) % BSIZE == off % BSIZE + q;
    }
  }

  // ---- Truncating

  /** The blocks of slots lo .. hi - 1 of an inode. */
  function SlotBlocks(disk: seq<Block>, ip: Inode, lo: nat, hi: nat): (s: set<nat>) {
    set k | lo <= k < hi && Slot(disk, ip, k) != 0 :: Slot(disk, ip, k)
  }

  /** The bits after the blocks in `freed` were freed. */
  ghost predicate Freed(bm: seq<Block>, bm': seq<Block>, size: nat, freed: set<nat>) {
    && |bm'| == |bm| && size <= |bm| * BPB
    && forall b :: 0 <= b < size ==> (Used(bm', b) <==> Used(bm, b) && b !in freed)
  }

  lemma FreedOne(bm: seq<Block>, bm1: seq<Block>, size: nat, disk: seq<Block>, ip: Inode, lo: nat, hi: nat)
    requires lo <= hi && Freed(bm, bm1, size, SlotBlocks(disk, ip, lo, hi)) && Slot(disk, ip, hi) < size
    ensures Slot(disk, ip, hi) != 0 ==>
      Freed(bm, Mark(bm1, Slot(disk, ip, hi), false), size, SlotBlocks(disk, ip, lo, hi + 1))
    ensures Slot(disk, ip, hi) == 0 ==> Freed(bm, bm1, size, SlotBlocks(disk, ip, lo, hi + 1))
  {
    var b := Slot(disk, ip, hi);
    assert SlotBlocks(disk, ip, lo, hi + 1) == SlotBlocks(disk, ip, lo, hi) + if b != 0 then {b} else {};
  }

  /** Once all blocks from the indirect one on are freed, the bits are those of the other owners. */
  lemma FreedIndirect(bm: seq<Block>, bm': seq<Block>, size: nat, disk: seq<Block>, ips: seq<Inode>, owner: Owner,
      first: nat, limit: nat, i: nat)
    requires OwnsSlots(disk, ips, owner, first, limit) && BitsOwned(bm, owner, first, size) && i < |ips| &&
      |disk| == size
    requires Freed(bm, bm', size, SlotBlocks(disk, ips[i], NDIRECT, NSLOTS))
    ensures BitsOwned(bm', Without(owner, i), first, size)
  {
    forall b | 0 <= b < size ensures Used(bm', b) <==> b < first || b in Without(owner, i) {
      if b in owner && owner[b].0 == i && owner[b].1 >= NDIRECT {
        assert Slot(disk, ips[i], owner[b].1) == b;
      }
      if b in SlotBlocks(disk, ips[i], NDIRECT, NSLOTS) {
        var k :| NDIRECT <= k < NSLOTS && Slot(disk, ips[i], k) == b && b != 0;
        assert owner[b] == (i, k);
      }
    }
  }

  /** A block not among those freed so far is still in use. */
  lemma StillUsed(disk: seq<Block>, ips: seq<Inode>, owner: Owner, first: nat, limit: nat, i: nat, lo: nat, k: nat)
    requires OwnsSlots(disk, ips, owner, first, limit) && i < |ips| && lo <= k < NSLOTS && Slot(disk, ips[i], k) != 0
    ensures Slot(disk, ips[i], k) !in SlotBlocks(disk, ips[i], lo, k) && Slot(disk, ips[i], k) in owner
  {
    assert owner[Slot(disk, ips[i], k)] == (i, k);
  }

  /** One turn of itrunc's second loop. */
  lemma EntryFreed(bm: seq<Block>, bm1: seq<Block>, size: nat, disk: seq<Block>, ips: seq<Inode>, owner: Owner,
      first: nat, limit: nat, i: nat, j: nat)
    requires OwnsSlots(disk, ips, owner, first, limit) && BitsOwned(bm, owner, first, size) && i < |ips| &&
      |disk| == size && j < NINDIRECT
    requires Freed(bm, bm1, size, SlotBlocks(disk, ips[i], NDIRECT + 1, NDIRECT + 1 + j)) &&
      Slot(disk, ips[i], NDIRECT) != 0
    ensures var b := Slot(disk, ips[i], NDIRECT + 1 + j);
      && b < size && b == Word(disk[ips[i].addrs[NDIRECT]], j) && (b != 0 ==> Used(bm1, b))
      && Freed(bm, if b == 0 then bm1
        else Mark(bm1, b, false), size, SlotBlocks(disk, ips[i], NDIRECT + 1, NDIRECT + 1 + j + 1))
  {
    FreedOne(bm, bm1, size, disk, ips[i], NDIRECT + 1, NDIRECT + 1 + j);
    if Slot(disk, ips[i], NDIRECT + 1 + j) != 0 {
      StillUsed(disk, ips, owner, first, limit, i, NDIRECT + 1, NDIRECT + 1 + j);
    }
  }

  /** Freeing the indirect block last frees all slots from it on. */
  lemma FreedLast(bm: seq<Block>, bm1: seq<Block>, size: nat, disk: seq<Block>, ips: seq<Inode>, owner: Owner,
      first: nat, limit: nat, i: nat)
    requires OwnsSlots(disk, ips, owner, first, limit) && BitsOwned(bm, owner, first, size) && i < |ips| &&
      |disk| == size
    requires Freed(bm, bm1, size, SlotBlocks(disk, ips[i], NDIRECT + 1, NSLOTS)) && Slot(disk, ips[i], NDIRECT) != 0
    ensures var b := Slot(disk, ips[i], NDIRECT);
      b < size && Used(bm1, b) && Freed(bm, Mark(bm1, b, false), size, SlotBlocks(disk, ips[i], NDIRECT, NSLOTS))
  {
    var b := Slot(disk, ips[i], NDIRECT);
    assert owner[b] == (i, NDIRECT);
    var rest := SlotBlocks(disk, ips[i], NDIRECT + 1, NSLOTS);
    assert b !in rest;
    assert SlotBlocks(disk, ips[i], NDIRECT, NSLOTS) == rest + {b};
  }

  lemma TruncExact(disk: seq<Block>, ips: seq<Inode>, ips': seq<Inode>, i: nat)
    requires AllExact(disk, ips) && i < |ips| && ips' == ips[i := Inode(0, seq(NDIRECT + 1, _ => 0))]
    ensures AllExact(disk, ips')
  {
  }

  /** Two ownerships that differ in one emptied inode have bitmaps that differ in its blocks. */
  lemma TruncFreed(bm: seq<Block>, bm': seq<Block>, size: nat, disk: seq<Block>, ips: seq<Inode>, owner: Owner,
      ips': seq<Inode>, owner': Owner, first: nat, limit: nat, i: nat)
    requires OwnsSlots(disk, ips, owner, first, limit) && BitsOwned(bm, owner, first, size) && |disk| == size
    requires OwnsSlots(disk, ips', owner', first, limit) && BitsOwned(bm', owner', first, size) && |bm'| == |bm|
    requires i < |ips| && ips' == ips[i := Inode(0, seq(NDIRECT + 1, _ => 0))]
    ensures Freed(bm, bm', size, SlotBlocks(disk, ips[i], 0, NSLOTS))
  {
    var gone := SlotBlocks(disk, ips[i], 0, NSLOTS);
    forall b | 0 <= b < size ensures Used(bm', b) <==> Used(bm, b) && b !in gone {
      if b in gone {
        var k :| 0 <= k < NSLOTS && Slot(disk, ips[i], k) == b && b != 0;
        assert owner[b] == (i, k);
        assert b !in owner';
      } else if b in owner {
        assert Slot(disk, ips[owner[b].0], owner[b].1) == b;
        assert owner[b].0 != i;
        assert Slot(disk, ips'[owner[b].0], owner[b].1) == b;
      } else {
        assert b !in owner';
      }
    }
  }

  /** The bit of a block in the block of the bitmap that starts at b. */
  lemma BitAt(bitmap: seq<Block>, b: nat, bi: nat)
    requires b % BPB == 0 && bi < BPB && b + bi < |bitmap| * BPB
    ensures b / BPB < |bitmap| && (b + bi) / BPB == b / BPB
    ensures Used(bitmap, b + bi) <==> Bit(bitmap[b / BPB][bi / 8], bi % 8)
  {
    var q := b / BPB;
    assert b == q * BPB && b + bi == 8 * (q * BSIZE + bi / 8) + bi % 8;
    assert (b + bi) / BPB == q && (b + bi) % BPB == bi && (b + bi) % 8 == bi % 8;
  }

  class FileSystem {
    const first: nat          // the first data block
    const limit: nat          // the first block of the log
    const size: nat           // sb.size
    var bitmap: seq<Block>
    var disk: seq<Block>
    var ip: seq<Inode>        // the inodes in memory
    var dip: seq<Inode>       // the inodes on disk
    ghost var owner: Owner
    ghost var logged: set<Logged>

    /** An image with n empty inodes whose bitmap marks the metadata alone. */
    constructor (first: nat, limit: nat, disk: seq<Block>, bitmap: seq<Block>, n: nat)
      requires 1 <= first <= limit <= |disk| && limit <= UINT && BitsOwned(bitmap, map[], first, |disk|)
      ensures this.first == first && this.limit == limit && size == |disk|
      ensures Valid() && |ip| == n && forall i :: 0 <= i < n ==> Content(this.disk, ip[i]) == []
    {
      this.first, this.limit, this.size := first, limit, |disk|;
      this.disk, this.bitmap := disk, bitmap;
      ip := seq(n, _ => Inode(0, seq(NDIRECT + 1, _ => 0)));
      dip := seq(n, _ => Inode(0, seq(NDIRECT + 1, _ => 0)));
      owner, logged := map[], {};
    }

    ghost predicate Owned()
      reads this
    {
      && OwnsSlots(disk, ip, owner, first, limit) && BitsOwned(bitmap, owner, first, size)
      && |disk| == size && limit <= UINT
    }

    /** Between calls every inode holds exactly the blocks of its bytes, and the
        inodes on disk are those in memory. */
    ghost predicate Valid()
      reads this
    {
      Owned() && dip == ip && AllExact(disk, ip)
    }

    twostate predicate Unchanged()
      reads this
    {
      disk == old(disk) && ip == old(ip) && owner == old(owner) && bitmap == old(bitmap) && logged == old(logged)
    }

    /** The contents of the blocks that the log keeps. */
    ghost function Blocks(): (h: Home)
      reads this
    {
      Home(bitmap, disk, dip)
    }

    /** No data block is free. */
    ghost predicate Full()
      reads this
    {
      size <= |bitmap| * BPB && forall b :: 0 <= b < limit && b < size ==> Used(bitmap, b)
    }

    /** balloc: the first free block, zeroed and marked in use. */
    method Balloc() returns (found: bool, block: nat)
      requires size <= |bitmap| * BPB && |disk| == size
      modifies this`bitmap, this`disk, this`logged
      ensures |bitmap| == |old(bitmap)| && |disk| == |old(disk)|
      ensures !found ==> bitmap == old(bitmap) && disk == old(disk) && forall c :: 0 <= c < size ==>
        Used(old(bitmap), c)
      ensures found ==> block < size && !Used(old(bitmap), block) && forall c :: 0 <= c < block ==> Used(old(bitmap), c)
      ensures found ==> bitmap == Mark(old(bitmap), block, true) && disk == old(disk)[block := Zeroes()]
      ensures found ==> logged == old(logged) + {MapBlock(block / BPB), BlockOf(block)}
      ensures found ==> Blocks() in Covered(old(Blocks()), logged)
    {
      var b := 0;
      while b < size
        invariant b % BPB == 0
        invariant bitmap == old(bitmap) && disk == old(disk) && logged == old(logged)
        invariant forall c :: 0 <= c < b && c < size ==> Used(bitmap, c)
      {
        var bi := 0;
        while bi < BPB && b + bi < size
          invariant bi <= BPB
          invariant bitmap == old(bitmap) && disk == old(disk) && logged == old(logged)
          invariant forall c :: 0 <= c < b + bi && c < size ==> Used(bitmap, c)
        {
          BitAt(bitmap, b, bi);
          if !Bit(bitmap[b / BPB][bi / 8], bi % 8) {
            bitmap := Mark(bitmap, b + bi, true);
            logged := logged + {MapBlock(b / BPB)};
            disk := disk[b + bi := Zeroes()];
            logged := logged + {BlockOf(b + bi)};
            FreshCovered(old(Blocks()), b + bi, logged);
            return true, b + bi;
          }
          bi := bi + 1;
        }
        b := b + BPB;
      }
      return false, 0;
    }

    /** bfree: panics on a free block, otherwise clears its bit alone. */
    method Bfree(b: nat) returns (panics: bool)
      requires size <= |bitmap| * BPB && b < size
      modifies this`bitmap, this`logged
      ensures panics <==> !Used(old(bitmap), b)
      ensures bitmap == if panics then old(bitmap) else Mark(old(bitmap), b, false)
      ensures logged == old(logged) + if panics then {} else {MapBlock(b / BPB)}
      ensures Blocks() in Covered(old(Blocks()), logged)
    {
      var bi := b % BPB;
      assert bi % 8 == b % 8;
      if !Bit(bitmap[b / BPB][bi / 8], bi % 8) {
        return true;
      }
      bitmap := Mark(bitmap, b, false);
      logged := logged + {MapBlock(b / BPB)};
      MarkCovered(old(Blocks()), b, false, logged);
      return false;
    }

    /** balloc for the slot o: a block nobody owns. */
    method Take(ghost o: (nat, nat), ghost h0: Home) returns (ok: bool, b: nat)
      requires BitsOwned(bitmap, owner, first, size) && limit <= |disk| == size && Blocks() in Covered(h0, logged)
      modifies this`bitmap, this`disk, this`logged
      ensures !ok ==> Full()
      ensures ok ==> first <= b < limit && b !in owner && BitsOwned(bitmap, owner[b := o], first, size)
      ensures ok ==> disk == old(disk)[b := Zeroes()] && logged == old(logged) + SlotLog(b)
      ensures ok ==> Blocks() in Covered(h0, logged)
      ensures |bitmap| == |old(bitmap)|
    {
      ok, b := Balloc();
      if !ok || b >= limit {
        return false, 0;
      }
      BitsTaken(old(bitmap), owner, first, size, b, o);
      CoveredMore(h0, old(Blocks()), Blocks(), old(logged), logged);
    }

    /** Fills an empty direct slot, or the slot of the indirect block. */
    method FillAddr(i: nat, k: nat) returns (ok: bool)
      requires Owned() && i < |ip| && k <= NDIRECT && ip[i].addrs[k] == 0
      modifies this`bitmap, this`disk, this`ip, this`owner, this`logged
      ensures !ok ==> Full()
      ensures ok ==> Owned() && Filled(old(disk), old(ip), disk, ip, i, k)
      ensures ok ==> ip == old(ip)[i := old(ip)[i].(addrs := ip[i].addrs)]
      ensures ok ==> logged == old(logged) + SlotLog(Slot(disk, ip[i], k))
      ensures ok ==> Blocks() in Covered(old(Blocks()), logged)
      ensures |bitmap| == |old(bitmap)|
    {
      var b;
      CoveredSame(Blocks(), logged);
      ok, b := Take((i, k), Blocks());
      if !ok {
        return;
      }
      FillDirect(old(disk), ip, owner, first, limit, i, k, b);
      ip := ip[i := ip[i].(addrs := ip[i].addrs[k := b])];
      owner := owner[b := (i, k)];
      return true;
    }

    /** A changed block of data is passed to log_write. */
    method Store(b: nat, data: Block, ghost h0: Home)
      requires b < |disk| && Blocks() in Covered(h0, logged)
      modifies this`disk, this`logged
      ensures disk == old(disk)[b := data] && logged == old(logged) + {BlockOf(b)} && Blocks() in Covered(h0, logged)
    {
      disk := disk[b := data];
      logged := logged + {BlockOf(b)};
      BlockCovered(old(Blocks()), b, data, logged);
      CoveredMore(h0, old(Blocks()), Blocks(), old(logged), logged);
    }

    /** Fills an empty entry of the indirect block. */
    method FillIndirect(i: nat, e: nat, ghost h0: Home) returns (ok: bool)
      requires Owned() && i < |ip| && e < NINDIRECT && ip[i].addrs[NDIRECT] != 0
      requires Slot(disk, ip[i], NDIRECT + 1 + e) == 0 && Blocks() in Covered(h0, logged)
      modifies this`bitmap, this`disk, this`owner, this`logged
      ensures !ok ==> Full()
      ensures ok ==> Owned() && Filled(old(disk), ip, disk, ip, i, NDIRECT + 1 + e)
      ensures |bitmap| == |old(bitmap)|
      ensures ok ==> old(logged) <= logged <= old(logged) + MapLog(disk, ip[i], NDIRECT + e)
      ensures ok ==> Blocks() in Covered(h0, logged)
    {
      var ind := ip[i].addrs[NDIRECT];
      assert ind == Slot(disk, ip[i], NDIRECT);
      var b;
      ok, b := Take((i, NDIRECT + 1 + e), h0);
      if ok {
        EntryFilled(old(disk), ip, owner, first, limit, i, e, b, disk[ind := SetWord(disk[ind], e, b)]);
        assert disk[ind] == old(disk)[ind];
        Store(ind, SetWord(disk[ind], e, b), h0);
        owner := owner[b := (i, NDIRECT + 1 + e)];
      }
    }

    /** The part of bmap for blocks beyond the direct ones. */
    method BmapIndirect(i: nat, bn: nat) returns (ok: bool, addr: nat)
      requires Owned() && i < |ip| && NDIRECT <= bn < MAXFILE
      modifies this`bitmap, this`disk, this`ip, this`owner, this`logged
      ensures !ok ==> Full()
      ensures ok ==> Owned() && Mapped(old(disk), old(ip), disk, ip, i, bn)
      ensures ok ==> addr == Slot(disk, ip[i], DataSlot(bn)) && ip == old(ip)[i := old(ip)[i].(addrs := ip[i].addrs)]
      ensures ok ==> old(logged) <= logged <= old(logged) + MapLog(disk, ip[i], bn)
      ensures ok ==> Blocks() in Covered(old(Blocks()), logged)
      ensures |bitmap| == |old(bitmap)|
      ensures old(Slot(disk, ip[i], DataSlot(bn))) != 0 ==> ok && Unchanged()
    {
      if ip[i].addrs[NDIRECT] == 0 {
        ok := FillAddr(i, NDIRECT);
        if !ok {
          return ok, 0;
        }
      }
      assert Slot(disk, ip[i], NDIRECT) == ip[i].addrs[NDIRECT];
      ghost var disk1 := disk;
      assert Slot(disk, ip[i], DataSlot(bn)) == old(Slot(disk, ip[i], DataSlot(bn)));
      if Word(disk[ip[i].addrs[NDIRECT]], bn - NDIRECT) == 0 {
        ok := FillIndirect(i, bn - NDIRECT, old(Blocks()));
        if !ok {
          return ok, 0;
        }
        MappedByEntry(old(disk), old(ip), disk1, ip, disk, i, bn);
        assert Slot(disk, ip[i], NDIRECT) == ip[i].addrs[NDIRECT];
      }
      return true, Word(disk[ip[i].addrs[NDIRECT]], bn - NDIRECT);
    }

    /** bmap: the block of data bn, mapped if it was not; no byte of any inode changes. */
    method Bmap(i: nat, bn: nat) returns (ok: bool, addr: nat)
      requires Owned() && i < |ip| && bn < MAXFILE
      modifies this`bitmap, this`disk, this`ip, this`owner, this`logged
      ensures !ok ==> Full()
      ensures ok ==> Owned() && Mapped(old(disk), old(ip), disk, ip, i, bn)
      ensures ok ==> addr == Slot(disk, ip[i], DataSlot(bn)) && ip == old(ip)[i := old(ip)[i].(addrs := ip[i].addrs)]
      ensures ok ==> old(logged) <= logged <= old(logged) + MapLog(disk, ip[i], bn)
      ensures ok ==> Blocks() in Covered(old(Blocks()), logged)
      ensures |bitmap| == |old(bitmap)|
      ensures old(Slot(disk, ip[i], DataSlot(bn))) != 0 ==> ok && Unchanged()
    {
      if bn < NDIRECT {
        ok := true;
        if ip[i].addrs[bn] == 0 {
          ok := FillAddr(i, bn);
          if !ok {
            return ok, 0;
          }
        }
        return ok, ip[i].addrs[bn];
      }
      ok, addr := BmapIndirect(i, bn);
    }

    /** One turn of writei's loop. */
    method WriteBlock(i: nat, off: nat, piece: seq<Byte>, ghost ext: nat) returns (ok: bool)
      requires Owned() && i < |ip| && 0 < |piece| <= BSIZE - off % BSIZE && off + |piece| <= MAXBYTES
      requires off <= ext && Exact(disk, ip[i], ext)
      modifies this`bitmap, this`disk, this`ip, this`owner, this`logged
      ensures !ok ==> Full()
      ensures |bitmap| == |old(bitmap)|
      ensures ok ==>
        Owned() && WroteBlock(|bitmap|, old(disk), old(ip), old(logged), disk, ip, logged, i, off, piece, ext)
      ensures ok ==> old(logged) <= logged && Blocks() in Covered(old(Blocks()), logged)
    {
      var addr;
      ok, addr := Bmap(i, off / BSIZE);
      if !ok {
        return;
      }
      BlockStored(|bitmap|, old(disk), old(ip), old(logged), disk, ip, logged, owner, first, limit, i, off, piece, ext,
        disk[addr := Patch(disk[addr], off % BSIZE, piece)]);
      Store(addr, Patch(disk[addr], off % BSIZE, piece), old(Blocks()));
    }

    /** iupdate: the inode on disk becomes the one in memory. */
    method Iupdate(i: nat)
      requires i < |ip| == |dip|
      modifies this`dip, this`logged
      ensures dip == old(dip)[i := ip[i]] && logged == old(logged) + {InodeBlock(i / IPB)}
      ensures Blocks() in Covered(old(Blocks()), logged)
    {
      dip := dip[i := ip[i]];
      logged := logged + {InodeBlock(i / IPB)};
      InodeCovered(old(Blocks()), i, ip[i], logged);
    }

    /** The next bytes of src, up to the end of a block, when tot of them are written. */
    method WriteNext(i: nat, src: seq<Byte>, off0: nat, tot: nat, ghost nmap: nat, ghost disk0: seq<Block>,
        ghost ip0: seq<Inode>, ghost logged0: set<Logged>, ghost h0: Home) returns (ok: bool, m: nat)
      requires |bitmap| == nmap && Owned() && i < |ip0| && tot < |src| && off0 + |src| <= MAXBYTES &&
        Exact(disk0, ip0[i], ip0[i].size)
      requires (disk, ip, logged) in Written(nmap, disk0, ip0, logged0, i, off0, src[..tot])
      requires logged0 <= logged && Blocks() in Covered(h0, logged)
      modifies this`bitmap, this`disk, this`ip, this`owner, this`logged
      ensures !ok ==> Full()
      ensures |bitmap| == nmap && 0 < m <= |src| - tot
      ensures ok ==>
        Owned() && (disk, ip, logged) in Written(nmap, disk0, ip0, logged0, i, off0, src[..tot + m])
      ensures ok ==> logged0 <= logged && Blocks() in Covered(h0, logged)
    {
      var n, off := |src|, off0 + tot;
      m := if n - tot < BSIZE - off % BSIZE then n - tot else BSIZE - off % BSIZE;
      ok := WriteBlock(i, off, src[tot..tot + m], Max(ip0[i].size, off));
      if !ok {
        return;
      }
      WroteBytesMore(nmap, disk0, ip0, logged0, old(disk), old(ip), old(logged), disk, ip, logged, i, off0,
        src[..tot], src[tot..tot + m]);
      assert src[..tot] + src[tot..tot + m] == src[..tot + m];
      CoveredMore(h0, old(Blocks()), Blocks(), old(logged), logged);
    }

    /** The loop of writei. */
    method WriteBytes(i: nat, src: seq<Byte>, off0: nat) returns (ok: bool)
      requires Owned() && i < |ip| && off0 <= ip[i].size && off0 + |src| <= MAXBYTES && Exact(disk, ip[i], ip[i].size)
      modifies this`bitmap, this`disk, this`ip, this`owner, this`logged
      ensures !ok ==> Full()
      ensures |bitmap| == |old(bitmap)|
      ensures ok ==> Owned() && WroteBytes(|bitmap|, old(disk), old(ip), old(logged), disk, ip, logged, i, off0, src)
      ensures ok ==> old(logged) <= logged && Blocks() in Covered(old(Blocks()), logged)
    {
      var tot := 0;
      ghost var nmap, disk0, ip0, logged0, h0, done := |bitmap|, disk, ip, logged, Blocks(), src[..tot];
      CoveredSame(h0, logged);
      WroteNothing(nmap, disk, ip, logged, i, off0);
      assert done == [];
      while tot < |src|
        invariant 0 <= tot <= |src| && |bitmap| == nmap && done == src[..tot]
        invariant Owned()
        invariant (disk, ip, logged) in Written(nmap, disk0, ip0, logged0, i, off0, done)
        invariant logged0 <= logged && Blocks() in Covered(h0, logged)
      {
        var m;
        ok, m := WriteNext(i, src, off0, tot, nmap, disk0, ip0, logged0, h0);
        if !ok {
          return;
        }
        tot := tot + m;
        done := src[..tot];
      }
      ok := true;
      assert done == src;
    }

    /** writei: the bytes of one inode are spliced, all other inodes keep theirs. */
    method Writei(i: nat, src: seq<Byte>, off: nat) returns (ok: bool, r: int)
      requires Valid() && i < |ip| && off < UINT && |src| < UINT
      modifies this
      ensures !ok ==> Full()
      ensures ok ==> Valid() && |ip| == |old(ip)| && |bitmap| == |old(bitmap)|
      ensures ok ==> r == if old(ip)[i].size < off || off + |src| > MAXBYTES then -1 else |src|
      ensures ok && r < 0 ==> Unchanged()
      ensures ok && r >= 0 ==> OthersKept(old(disk), old(ip), disk, ip, i)
      ensures ok && r >= 0 ==> Content(disk, ip[i]) == Splice(old(Content(disk, ip[i])), off, src)
      ensures ok && r >= 0 ==> logged <= old(logged) + {InodeBlock(i / IPB)} +
                                         Touched(|bitmap|, disk, ip[i], off / BSIZE, (off + |src| + BSIZE - 1) / BSIZE)
      ensures ok ==> old(logged) <= logged && Blocks() in Covered(old(Blocks()), logged)
    {
      CoveredSame(Blocks(), logged);
      if off > ip[i].size || off + |src| >= UINT {
        return true, -1;
      }
      if off + |src| > MAXBYTES {
        return true, -1;
      }
      ok := WriteBytes(i, src, off);
      if !ok {
        return ok, -1;
      }
      ghost var ip1, h, logged1 := ip, Blocks(), logged;
      if |src| > 0 && off + |src| > ip[i].size {
        ip := ip[i := ip[i].(size := off + |src|)];
        Iupdate(i);
        CoveredMore(old(Blocks()), h, Blocks(), logged1, logged);
      }
      WriteDone(|bitmap|, old(disk), old(ip), old(logged), disk, ip1, logged1, owner, first, limit, i, off, src, ip);
      r := |src|;
    }

    /** One turn of readi's loop. */
    method ReadBlock(i: nat, off: nat, m: nat) returns (piece: seq<Byte>)
      requires Owned() && i < |ip| && off % BSIZE + m <= BSIZE && off + m <= ip[i].size && off < ip[i].size
      requires Exact(disk, ip[i], ip[i].size)
      modifies this`bitmap, this`disk, this`ip, this`owner, this`logged
      ensures Unchanged() && |piece| == m && piece == Image(disk, ip[i])[off..off + m]
    {
      assert Needed(ip[i].size, DataSlot(off / BSIZE));
      var ok, addr := Bmap(i, off / BSIZE);
      ImagePart(disk, ip[i], off, m);
      piece := disk[addr][off % BSIZE..off % BSIZE + m];
    }

    /** readi: the bytes of the contents from off on, at most n of them; nothing changes. */
    method Readi(i: nat, off0: nat, n0: nat) returns (r: int, dst: seq<Byte>)
      requires Valid() && i < |ip| && off0 < UINT && n0 < UINT
      modifies this`bitmap, this`disk, this`ip, this`owner, this`logged
      ensures Unchanged()
      ensures r == -1 <==> off0 > ip[i].size || off0 + n0 >= UINT
      ensures r != -1 ==>
        r == |dst| && dst == Content(disk, ip[i])[off0..if off0 + n0 > ip[i].size then ip[i].size else off0 + n0]
    {
      dst := [];
      if off0 > ip[i].size || off0 + n0 >= UINT {
        return -1, [];
      }
      var n := if off0 + n0 > ip[i].size then ip[i].size - off0 else n0;
      var tot, off := 0, off0;
      ghost var image := Image(disk, ip[i]);
      while tot < n
        invariant Unchanged() && 0 <= tot <= n && off == off0 + tot
        invariant dst == image[off0..off]
      {
        var m := if n - tot < BSIZE - off % BSIZE then n - tot else BSIZE - off % BSIZE;
        var piece := ReadBlock(i, off, m);
        assert image[off0..off] + image[off..off + m] == image[off0..off + m];
        dst := dst + piece;
        tot, off := tot + m, off + m;
      }
      assert image[off0..off0 + n] == image[..ip[i].size][off0..off0 + n];
      r := n;
    }

    /** Frees one direct block; bfree does not panic. */
    method FreeAddr(i: nat, k: nat) returns (panics: bool)
      requires Owned() && i < |ip| && k < NDIRECT && ip[i].addrs[k] != 0
      modifies this`bitmap, this`ip, this`owner, this`logged
      ensures !panics && Owned() && |bitmap| == |old(bitmap)|
      ensures ip == old(ip)[i := old(ip)[i].(addrs := old(ip)[i].addrs[k := 0])]
      ensures old(logged) <= logged && Blocks() in Covered(old(Blocks()), logged)
    {
      var b := ip[i].addrs[k];
      assert Slot(disk, ip[i], k) == b;
      FreeDirect(disk, ip, owner, first, limit, i, k);
      panics := Bfree(b);
      owner := owner - {b};
      ip := ip[i := ip[i].(addrs := ip[i].addrs[k := 0])];
    }

    /** The first loop of itrunc. */
    method FreeDirects(i: nat) returns (panics: bool)
      requires Owned() && i < |ip|
      modifies this`bitmap, this`ip, this`owner, this`logged
      ensures !panics && Owned() && |bitmap| == |old(bitmap)|
      ensures |ip| == |old(ip)| && ip == old(ip)[i := old(ip)[i].(addrs := ip[i].addrs)]
      ensures ip[i].addrs[NDIRECT] == old(ip)[i].addrs[NDIRECT] && forall l :: 0 <= l < NDIRECT ==> ip[i].addrs[l] == 0
      ensures old(logged) <= logged && Blocks() in Covered(old(Blocks()), logged)
    {
      panics := false;
      var k := 0;
      while k < NDIRECT
        invariant 0 <= k <= NDIRECT && !panics && Owned() && |bitmap| == |old(bitmap)|
        invariant |ip| == |old(ip)| && ip == old(ip)[i := old(ip)[i].(addrs := ip[i].addrs)]
        invariant ip[i].addrs[k..] == old(ip)[i].addrs[k..] && forall l :: 0 <= l < k ==> ip[i].addrs[l] == 0
        invariant old(logged) <= logged && Blocks() in Covered(old(Blocks()), logged)
      {
        ghost var was, h, logged1 := ip[i].addrs, Blocks(), logged;
        if ip[i].addrs[k] != 0 {
          panics := FreeAddr(i, k);
          CoveredMore(old(Blocks()), h, Blocks(), logged1, logged);
        }
        assert ip[i].addrs[k + 1..] == was[k..][1..];
        k := k + 1;
      }
    }

    /** The second loop of itrunc and the indirect block itself; no bfree panics. */
    method FreeEntries(i: nat) returns (panics: bool)
      requires Owned() && i < |ip| && ip[i].addrs[NDIRECT] != 0
      modifies this`bitmap, this`logged
      ensures !panics && Freed(old(bitmap), bitmap, size, SlotBlocks(disk, ip[i], NDIRECT, NSLOTS))
      ensures old(logged) <= logged && Blocks() in Covered(old(Blocks()), logged)
    {
      panics := false;
      var ind := ip[i].addrs[NDIRECT];
      assert Slot(disk, ip[i], NDIRECT) == ind;
      var j := 0;
      while j < NINDIRECT
        invariant 0 <= j <= NINDIRECT && !panics
        invariant Freed(old(bitmap), bitmap, size, SlotBlocks(disk, ip[i], NDIRECT + 1, NDIRECT + 1 + j))
        invariant old(logged) <= logged && Blocks() in Covered(old(Blocks()), logged)
      {
        EntryFreed(old(bitmap), bitmap, size, disk, ip, owner, first, limit, i, j);
        if Word(disk[ind], j) != 0 {
          ghost var h, logged1 := Blocks(), logged;
          panics := Bfree(Word(disk[ind], j));
          CoveredMore(old(Blocks()), h, Blocks(), logged1, logged);
        }
        j := j + 1;
      }
      FreedLast(old(bitmap), bitmap, size, disk, ip, owner, first, limit, i);
      ghost var h, logged1 := Blocks(), logged;
      panics := Bfree(ind);
      CoveredMore(old(Blocks()), h, Blocks(), logged1, logged);
    }

    /** itrunc: the inode is empty, its blocks are free, no bfree panics and every other inode is as before. */
    method Itrunc(i: nat) returns (panics: bool)
      requires Valid() && i < |ip|
      modifies this
      ensures !panics && Valid() && |bitmap| == |old(bitmap)|
      ensures disk == old(disk) && ip == old(ip)[i := Inode(0, seq(NDIRECT + 1, _ => 0))]
      ensures Freed(old(bitmap), bitmap, size, SlotBlocks(disk, old(ip)[i], 0, NSLOTS))
      ensures old(logged) <= logged && Blocks() in Covered(old(Blocks()), logged)
    {
      panics := FreeDirects(i);
      ghost var h, logged1 := Blocks(), logged;
      if ip[i].addrs[NDIRECT] != 0 {
        ghost var bm1 := bitmap;
        panics := FreeEntries(i);
        CoveredMore(old(Blocks()), h, Blocks(), logged1, logged);
        DropIndirect(disk, ip, owner, first, limit, i);
        FreedIndirect(bm1, bitmap, size, disk, ip, owner, first, limit, i);
        owner := Without(owner, i);
        ip := ip[i := ip[i].(addrs := ip[i].addrs[NDIRECT := 0])];
      }
      assert ip[i].addrs == seq(NDIRECT + 1, _ => 0);
      Resized(disk, ip, owner, first, limit, i, 0);
      ip := ip[i := ip[i].(size := 0)];
      h, logged1 := Blocks(), logged;
      Iupdate(i);
      CoveredMore(old(Blocks()), h, Blocks(), logged1, logged);
      TruncExact(disk, old(ip), ip, i);
      TruncFreed(old(bitmap), bitmap, size, disk, old(ip), old(owner), ip, owner, first, limit, i);
    }
  }
}
