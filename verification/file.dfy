/** Writing through a file (kernel/file.c): filewrite splits a write into chunks,
    each its own transaction. */
module File {
  import opened Blocks
  import opened BlockMap
  import opened Fs

  const CHUNK: nat := 6656            // ((LOGSIZE - 1 - 1 - 2) / 2) * 512

  // ---- Chunks concatenate

  /** Writing s and then t right after it is writing s + t. */
  lemma SpliceMore(c: seq<Byte>, off: nat, s: seq<Byte>, t: seq<Byte>)
    requires off <= |c|
    ensures off + |s| <= |Splice(c, off, s)|
    ensures Splice(Splice(c, off, s), off + |s|, t) == Splice(c, off, s + t)
  {
    var d := Splice(c, off, s);
    assert d[..off + |s|] == c[..off] + s;
    if off + |s| + |t| < |c| {
      assert d[off + |s| + |t|..] == c[off + |s| + |t|..];
    }
  }

  // ---- Log footprint

  lemma {:induction false} SubsetSize<T>(a: set<T>, b: set<T>)
    requires a <= b
    ensures |a| <= |b|
  {
    if a != {} {
      var x :| x in a;
      SubsetSize(a - {x}, b - {x});
    }
  }

  lemma {:induction false} HeldSize(disk: seq<Block>, ip: Inode, lo: nat, hi: nat)
    requires lo <= hi
    ensures |Held(disk, ip, lo, hi)| <= hi - lo + 1
  {
    var ind := Slot(disk, ip, NDIRECT);
    if lo == hi {
      assert Held(disk, ip, lo, hi) <= {BlockOf(ind)};
      SubsetSize(Held(disk, ip, lo, hi), {BlockOf(ind)});
    } else {
      HeldSize(disk, ip, lo, hi - 1);
      var b := Slot(disk, ip, DataSlot(hi - 1));
      assert Held(disk, ip, lo, hi) <= Held(disk, ip, lo, hi - 1) + {BlockOf(b)};
      SubsetSize(Held(disk, ip, lo, hi), Held(disk, ip, lo, hi - 1) + {BlockOf(b)});
    }
  }

  lemma {:induction false} MapBlocksSize(n: nat)
    ensures |MapBlocks(n)| == n
  {
    if n > 0 {
      MapBlocksSize(n - 1);
      assert MapBlocks(n) == MapBlocks(n - 1) + {MapBlock(n - 1)};
    }
  }

  /** A block of the volume: of its bitmap, its inodes or its data. */
  predicate InVolume(l: Logged, nmap: nat, ninodes: nat, first: nat, limit: nat) {
    match l
    case MapBlock(n) => n < nmap
    case InodeBlock(n) => n <= ninodes / IPB
    case BlockOf(b) => first <= b < limit
  }

  /** A chunk at any offset logs at most its 14 data blocks, the indirect block, the
      inode and the bitmap: 17 distinct blocks when the bitmap is one block. */
  lemma ChunkFootprint(logged: set<Logged>, nmap: nat, disk: seq<Block>, ip: Inode, i: nat, off: nat, n: nat)
    requires n <= CHUNK
    requires logged <= {InodeBlock(i / IPB)} + Touched(nmap, disk, ip, off / BSIZE, (off + n + BSIZE - 1) / BSIZE)
    ensures |logged| <= 16 + nmap
  {
    var lo, hi := off / BSIZE, (off + n + BSIZE - 1) / BSIZE;
    assert hi - lo <= 14;
    var bound := {InodeBlock(i / IPB)} + (MapBlocks(nmap) + Held(disk, ip, lo, hi));
    SubsetSize(logged, bound);
    MapBlocksSize(nmap);
    HeldSize(disk, ip, lo, hi);
    assert |MapBlocks(nmap) + Held(disk, ip, lo, hi)| <= nmap + 15;
    assert |bound| <= 16 + nmap;
  }

  lemma ChunkInVolume(logged: set<Logged>, nmap: nat, disk: seq<Block>, ips: seq<Inode>, owner: Owner, first: nat,
      limit: nat, i: nat, lo: nat, hi: nat)
    requires OwnsSlots(disk, ips, owner, first, limit) && i < |ips|
    requires logged <= {InodeBlock(i / IPB)} + Touched(nmap, disk, ips[i], lo, hi)
    ensures forall l :: l in logged ==> InVolume(l, nmap, |ips|, first, limit)
  {
    forall l | l in Held(disk, ips[i], lo, hi) ensures InVolume(l, nmap, |ips|, first, limit) {
      var k :| 0 <= k < NSLOTS && InRange(k, lo, hi) && Slot(disk, ips[i], k) != 0 &&
        l == BlockOf(Slot(disk, ips[i], k));
      assert Slot(disk, ips[i], k) in owner;
    }
  }

  lemma ContentSize(disk: seq<Block>, ip: Inode)
    requires ip.size <= MAXBYTES
    ensures |Content(disk, ip)| == ip.size
  {
  }

  /** Whether a write of n bytes at off fits: it starts within the file and ends within MAXFILE blocks. */
  predicate Fits(size: nat, off: nat, n: nat) {
    off <= size && off + n <= MAXBYTES
  }

  /** What writing the bytes s at off does to the files. */
  ghost predicate WroteAt(disk: seq<Block>, ips: seq<Inode>, disk': seq<Block>, ips': seq<Inode>, i: nat, off: nat,
      s: seq<Byte>) {
    && i < |ips| && |ips'| == |ips| && OthersKept(disk, ips, disk', ips', i) && ips[i].size <= MAXBYTES &&
      ips'[i].size <= MAXBYTES
    && (s == [] ==> disk' == disk && ips' == ips)
    && (s != [] ==> Fits(ips[i].size, off, |s|) && Content(disk', ips'[i]) == Splice(Content(disk, ips[i]), off, s))
  }

  /** Consecutive writes that both fit are one write. */
  lemma WroteAtMore(disk: seq<Block>, ips: seq<Inode>, disk1: seq<Block>, ips1: seq<Inode>, disk2: seq<Block>,
      ips2: seq<Inode>, i: nat, off: nat, s: seq<Byte>, t: seq<Byte>)
    requires WroteAt(disk, ips, disk1, ips1, i, off, s) && WroteAt(disk1, ips1, disk2, ips2, i, off + |s|, t)
    ensures WroteAt(disk, ips, disk2, ips2, i, off, s + t)
  {
    OthersKeptMore(disk, ips, disk1, ips1, disk2, ips2, i);
    if s != [] && t != [] {
      SpliceMore(Content(disk, ips[i]), off, s, t);
    } else {
      assert s + t == if s == [] then t else s;
    }
  }

  /** After s was written, t fits exactly when s + t fitted. */
  lemma FitsMore(disk: seq<Block>, ips: seq<Inode>, disk1: seq<Block>, ips1: seq<Inode>, i: nat, off: nat,
      s: seq<Byte>, n: nat)
    requires WroteAt(disk, ips, disk1, ips1, i, off, s)
    ensures Fits(ips1[i].size, off + |s|, n) <==> Fits(ips[i].size, off, |s| + n)
  {
    ContentSize(disk, ips[i]);
    ContentSize(disk1, ips1[i]);
  }

  /** A transaction: the home blocks at begin_op and at end_op, and the blocks passed to log_write. */
  datatype Tx = Tx(before: Home, after: Home, logged: set<Logged>)

  /** The transaction logged every block it changed, at most 17 distinct blocks when the bitmap is
      one block, all of them blocks of the volume. */
  ghost predicate TxOk(t: Tx, first: nat, limit: nat) {
    && t.after in Covered(t.before, t.logged) && |t.logged| <= 16 + |t.before.bitmap|
    && forall l :: l in t.logged ==> InVolume(l, |t.before.bitmap|, |t.before.dip|, first, limit)
  }

  ghost predicate AllOk(txs: seq<Tx>, m: nat, first: nat, limit: nat) {
    forall j :: m <= j < |txs| ==> TxOk(txs[j], first, limit)
  }

  /** The transactions from m on lead from h to h', each from where the one before it ended. */
  ghost predicate Chained(txs: seq<Tx>, m: nat, h: Home, h': Home) {
    && m <= |txs|
    && if m == |txs| then h' == h
       else
         && txs[m].before == h && txs[|txs| - 1].after == h'
         && forall j :: m < j < |txs| ==> txs[j].before == txs[j - 1].after
  }

  /** A state of an open file and the file system under it. */
  datatype Was = Was(home: Home, ips: seq<Inode>, off: nat, txs: seq<Tx>, first: nat, limit: nat)

  /** The home blocks h hold a whole number of chunks of src, or all of it, and nothing else has changed. */
  ghost predicate AtPrefix(was: Was, h: Home, inum: nat, src: seq<Byte>, m: nat) {
    && m <= |src| && (m == |src| || m % CHUNK == 0)
    && WroteAt(was.home.disk, was.ips, h.disk, h.dip, inum, was.off, src[..m])
  }

  ghost predicate SomePrefix(was: Was, h: Home, inum: nat, src: seq<Byte>) {
    exists m: nat :: AtPrefix(was, h, inum, src, m)
  }

  ghost predicate Prefixes(was: Was, txs: seq<Tx>, inum: nat, src: seq<Byte>) {
    forall j :: |was.txs| <= j < |txs| ==> SomePrefix(was, txs[j].after, inum, src)
  }

  /** The first i bytes of src have been written, in so many transactions, which make up the whole change. */
  ghost predicate InChunks(was: Was, now: Was, inum: nat, src: seq<Byte>, i: nat, chunks: nat) {
    && now.off == was.off + i && now.home.dip == now.ips && AtPrefix(was, now.home, inum, src, i)
    && Prefixes(was, now.txs, inum, src)
    && was.txs <= now.txs && |now.txs| == |was.txs| + chunks && now.first == was.first && now.limit == was.limit
    && AllOk(now.txs, |was.txs|, was.first, was.limit) && Chained(now.txs, |was.txs|, was.home, now.home)
  }

  ghost function Writing(was: Was, inum: nat, src: seq<Byte>, i: nat, chunks: nat): iset<Was> {
    iset now | InChunks(was, now, inum, src, i, chunks)
  }

  /** After so many whole chunks, unless all is written; a last one may have failed. */
  ghost predicate Placed(i: nat, n: nat, chunks: nat, bad: bool) {
    if bad then i < n && chunks > 0 && i == (chunks - 1) * CHUNK else i == n || i == chunks * CHUNK
  }

  lemma NothingWritten(was: Was, inum: nat, src: seq<Byte>)
    requires inum < |was.ips| && was.ips[inum].size <= MAXBYTES && was.home.dip == was.ips
    ensures was in Writing(was, inum, src, 0, 0)
  {
  }

  /** A byte that was written lies within the largest file. */
  lemma OffsetInFile(was: Was, now: Was, inum: nat, src: seq<Byte>, i: nat, chunks: nat)
    requires now in Writing(was, inum, src, i, chunks) && was.off < UINT
    ensures now.off < UINT
  {
    assert i > 0 ==> src[..i] != [] && was.off + i <= MAXBYTES;
  }

  /** How far the write has come, from the offset; if all is written, it fitted. */
  lemma Came(was: Was, now: Was, inum: nat, src: seq<Byte>, i: nat, chunks: nat)
    requires now in Writing(was, inum, src, i, chunks)
    ensures i == now.off - was.off && (i == |src| > 0 ==> Fits(was.ips[inum].size, was.off, |src|))
  {
    assert src[..|src|] == src;
  }

  lemma OneMore(txs: seq<Tx>, t: Tx, m: nat, h: Home, h1: Home, first: nat, limit: nat)
    requires AllOk(txs, m, first, limit) && Chained(txs, m, h, h1) && TxOk(t, first, limit) && t.before == h1
    ensures AllOk(txs + [t], m, first, limit) && Chained(txs + [t], m, h, t.after)
  {
  }

  lemma WroteChunk(was: Was, mid: Was, now: Was, inum: nat, src: seq<Byte>, i: nat, n1: nat, chunks: nat, done: bool,
      t: Tx)
    requires mid in Writing(was, inum, src, i, chunks) && i + n1 <= |src| &&
      now.off == mid.off + (if done then n1 else 0)
    requires WroteAt(mid.home.disk, mid.ips, now.home.disk, now.ips, inum, mid.off,
      if done then src[i..i + n1] else [])
    requires now.txs == mid.txs + [t] && t.before == mid.home && t.after == now.home && now.home.dip == now.ips
    requires i % CHUNK == 0 && (i + n1 == |src| || n1 == CHUNK)
    requires TxOk(t, was.first, was.limit) && now.first == mid.first && now.limit == mid.limit
    ensures now in Writing(was, inum, src, if done then i + n1 else i, chunks + 1)
  {
    var piece := if done then src[i..i + n1] else [];
    WroteAtMore(was.home.disk, was.ips, mid.home.disk, mid.ips, now.home.disk, now.ips, inum, was.off, src[..i], piece);
    assert src[..i] + piece == src[..if done then i + n1 else i];
    assert AtPrefix(was, now.home, inum, src, if done then i + n1 else i);
    OneMore(mid.txs, t, |was.txs|, was.home, mid.home, was.first, was.limit);
  }

  class OpenFile {
    const fs: FileSystem
    const inum: nat
    const writable: bool
    var off: nat
    ghost var txs: seq<Tx>

    constructor (fs: FileSystem, inum: nat, writable: bool)
      ensures this.fs == fs && this.inum == inum && this.writable == writable && off == 0 && txs == []
    {
      this.fs, this.inum, this.writable := fs, inum, writable;
      off, txs := 0, [];
    }

    /** One transaction of filewrite. */
    method WriteChunk(piece: seq<Byte>) returns (ok: bool, r: int, ghost t: Tx)
      requires fs.Valid() && inum < |fs.ip| && off < UINT && 0 < |piece| <= CHUNK
      modifies this, fs
      ensures !ok ==> fs.Full()
      ensures ok ==> fs.Valid()
      ensures ok ==> r == if Fits(old(fs.ip[inum].size), old(off), |piece|) then |piece| else -1
      ensures ok ==> off == old(off) + if r > 0 then |piece| else 0
      ensures ok ==> WroteAt(old(fs.disk), old(fs.ip), fs.disk, fs.ip, inum, old(off), if r > 0 then piece else [])
      ensures ok ==> txs == old(txs) + [t] && t.before == old(fs.Blocks()) && t.after == fs.Blocks()
      ensures ok ==> TxOk(t, fs.first, fs.limit)
    {
      fs.logged := {};
      t := Tx(fs.Blocks(), fs.Blocks(), {});
      assert Exact(fs.disk, fs.ip[inum], fs.ip[inum].size);
      ok, r := fs.Writei(inum, piece, off);
      if !ok {
        return;
      }
      if r > 0 {
        ChunkFootprint(fs.logged, |fs.bitmap|, fs.disk, fs.ip[inum], inum, off, |piece|);
        ChunkInVolume(fs.logged, |fs.bitmap|, fs.disk, fs.ip, fs.owner, fs.first, fs.limit, inum, off / BSIZE,
          (off + |piece| + BSIZE - 1) / BSIZE);
        off := off + r;
      }
      assert Exact(fs.disk, fs.ip[inum], fs.ip[inum].size);
      t := t.(after := fs.Blocks(), logged := fs.logged);
      txs := txs + [t];
    }

    ghost function Now(): (w: Was)
      reads this, fs
    {
      Was(fs.Blocks(), fs.ip, off, txs, fs.first, fs.limit)
    }

    /** One turn of filewrite's loop, with i bytes written in `chunks` transactions since `was`. */
    method Turn(src: seq<Byte>, i: nat, ghost was: Was, ghost chunks: nat) returns (ok: bool, n1: nat, r1: int)
      requires fs.Valid() && inum < |fs.ip| && was.off < UINT && i < |src|
      requires Now() in Writing(was, inum, src, i, chunks)
      modifies this, fs
      ensures !ok ==> fs.Full()
      ensures n1 == if |src| - i > CHUNK then CHUNK else |src| - i
      ensures ok ==> fs.Valid() && inum < |fs.ip| && (r1 == n1 || r1 == -1)
      ensures ok ==> (r1 == n1 <==> Fits(was.ips[inum].size, was.off, i + n1))
      ensures ok ==> Now() in Writing(was, inum, src, if r1 == n1 then i + n1 else i, chunks + 1)
    {
      n1 := if |src| - i > CHUNK then CHUNK else |src| - i;
      OffsetInFile(was, Now(), inum, src, i, chunks);
      ghost var mid := Now();
      FitsMore(was.home.disk, was.ips, mid.home.disk, mid.ips, inum, was.off, src[..i], n1);
      ghost var t;
      ok, r1, t := WriteChunk(src[i..i + n1]);
      if ok {
        WroteChunk(was, mid, Now(), inum, src, i, n1, chunks, r1 > 0, t);
      }
    }

    /** The loop of filewrite. */
    method WriteAll(src: seq<Byte>, ghost was: Was) returns (ok: bool, i: nat, ghost chunks: nat)
      requires fs.Valid() && inum < |fs.ip| && off < UINT && was == Now() && was in Writing(was, inum, src, 0, 0)
      modifies this, fs
      ensures !ok ==> fs.Full()
      ensures ok ==> fs.Valid() && i <= |src| && Now() in Writing(was, inum, src, i, chunks)
      ensures ok && i < |src| ==> !Fits(was.ips[inum].size, was.off, |src|) && chunks > 0 && i == (chunks - 1) * CHUNK
    {
      var n, bad := |src|, false;
      ok, i, chunks := true, 0, 0;
      while i < n && !bad && ok
        invariant 0 <= i <= n && Placed(i, n, chunks, bad)
        invariant ok ==> fs.Valid() && inum < |fs.ip| && Now() in Writing(was, inum, src, i, chunks)
        invariant ok && bad ==> !Fits(was.ips[inum].size, was.off, n)
        invariant !ok ==> fs.Full()
        decreases n - i, !bad, ok
      {
        var n1, r1;
        ok, n1, r1 := Turn(src, i, was, chunks);
        chunks := chunks + 1;
        if r1 != n1 {
          bad := true;
        } else {
          i := i + n1;
        }
      }
    }

    /** filewrite: succeeds exactly when the whole write fits, and then is that one
        write; otherwise a whole number of chunks has been written.  Its transactions are
        the whole change, one after the other, and each logged every block it changed. */
    method Filewrite(src: seq<Byte>) returns (ok: bool, r: int, ghost chunks: nat)
      requires fs.Valid() && inum < |fs.ip| && off < UINT
      modifies this, fs
      ensures !ok ==> fs.Full()
      ensures ok ==> fs.Valid()
      ensures ok ==> r == if writable && (src == [] || Fits(old(fs.ip[inum].size), old(off), |src|)) then |src| else -1
      ensures ok ==> 0 <= off - old(off) <= |src| && Now() in Writing(old(Now()), inum, src, off - old(off), chunks)
      ensures ok && r == |src| ==> off == old(off) + |src|
      ensures ok && r == -1 ==> off == old(off) + if writable then (chunks - 1) * CHUNK else 0
    {
      ghost var was := Now();
      NothingWritten(was, inum, src);
      if !writable {
        return true, -1, 0;
      }
      var i;
      ok, i, chunks := WriteAll(src, was);
      if ok {
        Came(was, Now(), inum, src, i, chunks);
      }
      r := if i == |src| then |src| else -1;
    }
  }
}
