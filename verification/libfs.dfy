/** The host-side library (tools/libfs.c) works on the same image format; its
    truncate both shrinks and extends. */
module LibFs {
  import opened Blocks
  import opened BlockMap
  import opened Fs

  function DivCeil(x: nat, y: nat): (r: nat)
    requires y > 0
    ensures x <= r * y < x + y
  {
    if x == 0 then 0 else (x - 1) / y + 1
  }

  /** The slots in `gone` of inode i are empty; all other slots and their data are as before. */
  ghost predicate Released(disk: seq<Block>, ips: seq<Inode>, disk': seq<Block>, ips': seq<Inode>, i: nat,
      gone: set<nat>) {
    && i < |ips| && |ips'| == |ips| && ips' == ips[i := ips[i].(addrs := ips'[i].addrs)]
    && (forall j, k {:trigger Slot(disk', ips'[j], k)} {:trigger Slot(disk, ips[j], k)} ::
          0 <= j < |ips| && 0 <= k < NSLOTS ==>
          Slot(disk', ips'[j], k) == if j == i && k in gone then 0 else Slot(disk, ips[j], k))
    && (forall j, bn {:trigger DataBlock(disk', ips'[j], bn)} {:trigger DataBlock(disk, ips[j], bn)} ::
          0 <= j < |ips| && 0 <= bn < MAXFILE && !(j == i && DataSlot(bn) in gone) ==>
          DataBlock(disk', ips'[j], bn) == DataBlock(disk, ips[j], bn))
  }

  lemma ReleasedMore(disk: seq<Block>, ips: seq<Inode>, disk1: seq<Block>, ips1: seq<Inode>, disk2: seq<Block>,
      ips2: seq<Inode>, i: nat, gone: set<nat>, k: nat)
    requires Released(disk, ips, disk1, ips1, i, gone) && Released(disk1, ips1, disk2, ips2, i, {k})
    ensures Released(disk, ips, disk2, ips2, i, gone + {k})
  {
    forall j, l | 0 <= j < |ips| && 0 <= l < NSLOTS
      ensures Slot(disk2, ips2[j], l) == if j == i && l in gone + {k} then 0 else Slot(disk, ips[j], l)
    {
      assert Slot(disk1, ips1[j], l) == if j == i && l in gone then 0 else Slot(disk, ips[j], l);
    }
    forall j, bn | 0 <= j < |ips| && 0 <= bn < MAXFILE && !(j == i && DataSlot(bn) in gone + {k})
      ensures DataBlock(disk2, ips2[j], bn) == DataBlock(disk, ips[j], bn)
    {
      assert DataBlock(disk1, ips1[j], bn) == DataBlock(disk, ips[j], bn);
    }
  }

  lemma EntryReleased(disk: seq<Block>, ips: seq<Inode>, owner: Owner, first: nat, limit: nat, i: nat, l: nat)
    requires OwnsSlots(disk, ips, owner, first, limit) && i < |ips| && NDIRECT < l < NSLOTS &&
      Slot(disk, ips[i], l) != 0
    ensures var ind := ips[i].addrs[NDIRECT];
      && first <= ind < limit && Slot(disk, ips[i], l) == Word(disk[ind], l - NDIRECT - 1) &&
        Slot(disk, ips[i], l) in owner
      && var disk' := disk[ind := SetWord(disk[ind], l - NDIRECT - 1, 0)];
      && Released(disk, ips, disk', ips, i, {l})
      && OwnsSlots(disk', ips, owner - {Slot(disk, ips[i], l)}, first, limit)
  {
    var ind, b := Slot(disk, ips[i], NDIRECT), Slot(disk, ips[i], l);
    var disk' := disk[ind := SetWord(disk[ind], l - NDIRECT - 1, 0)];
    forall j, k | 0 <= j < |ips| && 0 <= k < NSLOTS
      ensures Slot(disk', ips[j], k) == if j == i && k == l then 0 else Slot(disk, ips[j], k)
    {
      if j != i {
        assert Slot(disk, ips[j], NDIRECT) != ind;
      }
    }
    forall j, bn | 0 <= j < |ips| && 0 <= bn < MAXFILE && !(j == i && DataSlot(bn) == l)
      ensures DataBlock(disk', ips[j], bn) == DataBlock(disk, ips[j], bn)
    {
      var c := Slot(disk, ips[j], DataSlot(bn));
      assert Slot(disk', ips[j], DataSlot(bn)) == c;
      if c != 0 {
        assert owner[c] == (j, DataSlot(bn));
      }
    }
    assert SlotPut(disk, ips, disk', ips, i, l, 0);
    assert ips == ips[i := ips[i].(addrs := ips[i].addrs)];
  }

  lemma IndirectReleased(disk: seq<Block>, ips: seq<Inode>, owner: Owner, first: nat, limit: nat, i: nat)
    requires OwnsSlots(disk, ips, owner, first, limit) && i < |ips| && ips[i].addrs[NDIRECT] != 0
    requires forall k :: NDIRECT < k < NSLOTS ==> Slot(disk, ips[i], k) == 0
    ensures var ind := ips[i].addrs[NDIRECT];
      var ips' := ips[i := ips[i].(addrs := ips[i].addrs[NDIRECT := 0])];
      && first <= ind < limit && ind in owner
      && Released(disk, ips, disk, ips', i, {NDIRECT}) && OwnsSlots(disk, ips', owner - {ind}, first, limit)
  {
    var ind := Slot(disk, ips[i], NDIRECT);
    var ips' := ips[i := ips[i].(addrs := ips[i].addrs[NDIRECT := 0])];
    assert owner[ind] == (i, NDIRECT);
    forall j, k | 0 <= j < |ips| && 0 <= k < NSLOTS
      ensures Slot(disk, ips'[j], k) == if j == i && k == NDIRECT then 0 else Slot(disk, ips[j], k)
    {
    }
  }

  lemma AddrReleased(disk: seq<Block>, ips: seq<Inode>, i: nat, k: nat, ips': seq<Inode>)
    requires i < |ips| && |ips[i].addrs| == NDIRECT + 1 && k < NDIRECT
    requires ips' == ips[i := ips[i].(addrs := ips[i].addrs[k := 0])]
    ensures Released(disk, ips, disk, ips', i, {k})
  {
  }

  predicate Between(k: nat, lo: nat, hi: nat) {
    lo <= k < hi
  }

  function Range(lo: nat, hi: nat): (s: set<nat>) {
    set k | 0 <= k < hi && Between(k, lo, hi)
  }

  lemma RangeMore(lo: nat, hi: nat)
    requires lo <= hi
    ensures Range(lo, hi + 1) == Range(lo, hi) + {hi}
  {
  }

  /** Emptying exactly the slots that the smaller size does not need truncates the contents. */
  lemma ShrinkDone(disk: seq<Block>, ips: seq<Inode>, disk': seq<Block>, ips': seq<Inode>, i: nat, size: nat,
      gone: set<nat>)
    requires Released(disk, ips, disk', ips', i, gone) && AllExact(disk, ips) && size <= ips[i].size
    requires forall k :: 0 <= k < NSLOTS ==> (k in gone <==> Needed(ips[i].size, k) && !Needed(size, k))
    ensures OthersKept(disk, ips, disk', ips', i) && Exact(disk', ips'[i], size)
    ensures Image(disk', ips'[i])[..size] == Content(disk, ips[i])[..size]
  {
    forall j | 0 <= j < |ips| && j != i ensures SameFile(disk, disk', ips[j]) {
      assert forall l :: 0 <= l < MAXFILE ==> DataBlock(disk', ips'[j], l) == DataBlock(disk, ips[j], l);
      SameImage(disk, ips[j], disk', ips'[j]);
      assert forall k :: 0 <= k < NSLOTS ==> Slot(disk', ips'[j], k) == Slot(disk, ips[j], k);
    }
    assert Exact(disk, ips[i], ips[i].size);
    var s, s' := Image(disk, ips[i]), Image(disk', ips'[i]);
    forall p | 0 <= p < size ensures s'[p] == s[p] {
      assert Needed(size, DataSlot(p / BSIZE));
      assert DataBlock(disk', ips'[i], p / BSIZE) == DataBlock(disk, ips[i], p / BSIZE);
    }
  }

  /** Which slots itruncate empties. */
  lemma Emptied(was: nat, size: nat, k: nat)
    requires size < was <= MAXBYTES && k < NSLOTS
    ensures var (n, m) := (DivCeil(was, BSIZE), DivCeil(size, BSIZE));
      Needed(was, k) && !Needed(size, k) <==>
      (k < NDIRECT && m <= k < n) || (k == NDIRECT && m <= NDIRECT < n) || (k > NDIRECT && m <= k - 1 < n)
  {
  }

  /** Frees an entry of the indirect block and clears it. */
  method FreeEntry(fs: FileSystem, i: nat, k: nat)
    requires fs.Owned() && i < |fs.ip| && NDIRECT < k < NSLOTS && Slot(fs.disk, fs.ip[i], k) != 0
    modifies fs`bitmap, fs`disk, fs`ip, fs`owner, fs`logged
    ensures fs.Owned() && fs.ip == old(fs.ip) && |fs.bitmap| == |old(fs.bitmap)|
    ensures Released(old(fs.disk), old(fs.ip), fs.disk, fs.ip, i, {k})
  {
    var ind := fs.ip[i].addrs[NDIRECT];
    EntryReleased(fs.disk, fs.ip, fs.owner, fs.first, fs.limit, i, k);
    var b := Word(fs.disk[ind], k - NDIRECT - 1);
    BitsFreed(fs.bitmap, fs.owner, fs.first, fs.size, b);
    var panics := fs.Bfree(b);
    fs.owner := fs.owner - {b};
    fs.disk := fs.disk[ind := SetWord(fs.disk[ind], k - NDIRECT - 1, 0)];
  }

  /** Frees the indirect block once it is empty. */
  method FreeIndirect(fs: FileSystem, i: nat)
    requires fs.Owned() && i < |fs.ip| && fs.ip[i].addrs[NDIRECT] != 0
    requires forall k :: NDIRECT < k < NSLOTS ==> Slot(fs.disk, fs.ip[i], k) == 0
    modifies fs`bitmap, fs`disk, fs`ip, fs`owner, fs`logged
    ensures fs.Owned() && |fs.bitmap| == |old(fs.bitmap)|
    ensures Released(old(fs.disk), old(fs.ip), fs.disk, fs.ip, i, {NDIRECT})
  {
    var ind := fs.ip[i].addrs[NDIRECT];
    IndirectReleased(fs.disk, fs.ip, fs.owner, fs.first, fs.limit, i);
    var panics := fs.Bfree(ind);
    fs.owner := fs.owner - {ind};
    fs.ip := fs.ip[i := fs.ip[i].(addrs := fs.ip[i].addrs[NDIRECT := 0])];
  }

  /** The loop over direct blocks. */
  method FreeDirects(fs: FileSystem, i: nat, kd: nat, nd: nat)
    requires fs.Owned() && i < |fs.ip| && kd <= nd <= NDIRECT
    requires forall k :: kd <= k < nd ==> Slot(fs.disk, fs.ip[i], k) != 0
    modifies fs`bitmap, fs`disk, fs`ip, fs`owner, fs`logged
    ensures fs.Owned() && |fs.bitmap| == |old(fs.bitmap)|
    ensures Released(old(fs.disk), old(fs.ip), fs.disk, fs.ip, i, Range(kd, nd))
  {
    var k := kd;
    assert Released(fs.disk, fs.ip, fs.disk, fs.ip, i, Range(kd, kd));
    while k < nd
      invariant kd <= k <= nd && fs.Owned() && |fs.bitmap| == |old(fs.bitmap)|
      invariant Released(old(fs.disk), old(fs.ip), fs.disk, fs.ip, i, Range(kd, k))
    {
      assert Slot(fs.disk, fs.ip[i], k) == old(Slot(fs.disk, fs.ip[i], k));
      ghost var ip1, disk1 := fs.ip, fs.disk;
      var panics := fs.FreeAddr(i, k);
      AddrReleased(disk1, ip1, i, k, fs.ip);
      ReleasedMore(old(fs.disk), old(fs.ip), disk1, ip1, fs.disk, fs.ip, i, Range(kd, k), k);
      RangeMore(kd, k);
      k := k + 1;
    }
  }

  /** The loop over the entries of the indirect block, by slot. */
  method FreeEntries(fs: FileSystem, i: nat, lo: nat, hi: nat)
    requires fs.Owned() && i < |fs.ip| && NDIRECT < lo <= hi <= NSLOTS
    requires forall k :: lo <= k < hi ==> Slot(fs.disk, fs.ip[i], k) != 0
    modifies fs`bitmap, fs`disk, fs`ip, fs`owner, fs`logged
    ensures fs.Owned() && fs.ip == old(fs.ip) && |fs.bitmap| == |old(fs.bitmap)|
    ensures Released(old(fs.disk), old(fs.ip), fs.disk, fs.ip, i, Range(lo, hi))
  {
    var k := lo;
    ghost var gone: set<nat> := Range(lo, lo);
    assert Released(fs.disk, fs.ip, fs.disk, fs.ip, i, gone);
    while k < hi
      invariant lo <= k <= hi && fs.Owned() && fs.ip == old(fs.ip) && |fs.bitmap| == |old(fs.bitmap)|
      invariant Released(old(fs.disk), old(fs.ip), fs.disk, fs.ip, i, gone) && gone == Range(lo, k)
    {
      assert Slot(fs.disk, fs.ip[i], k) == old(Slot(fs.disk, fs.ip[i], k));
      ghost var disk1 := fs.disk;
      FreeEntry(fs, i, k);
      ReleasedMore(old(fs.disk), old(fs.ip), disk1, fs.ip, fs.disk, fs.ip, i, gone, k);
      RangeMore(lo, k);
      gone := gone + {k};
      k := k + 1;
    }
  }

  /** The slots beyond the direct ones that itruncate empties, keeping k of n blocks. */
  function Tail(k: nat, n: nat): (s: set<nat>) {
    if k > NDIRECT then Range(k + 1, n + 1) else Range(NDIRECT + 1, n + 1) + {NDIRECT}
  }

  /** The entries of the indirect block, and the block itself if none is kept. */
  method FreeTail(fs: FileSystem, i: nat, k: nat, n: nat)
    requires fs.Owned() && i < |fs.ip| && NDIRECT < n <= MAXFILE && k <= n
    requires forall l :: NDIRECT <= l < NSLOTS ==> (Slot(fs.disk, fs.ip[i], l) != 0 <==> l <= n)
    modifies fs`bitmap, fs`disk, fs`ip, fs`owner, fs`logged
    ensures fs.Owned() && |fs.bitmap| == |old(fs.bitmap)|
    ensures Released(old(fs.disk), old(fs.ip), fs.disk, fs.ip, i, Tail(k, n))
  {
    var ki := if k > NDIRECT then k - NDIRECT else 0;
    FreeEntries(fs, i, NDIRECT + 1 + ki, n + 1);
    if ki == 0 {
      ghost var disk1 := fs.disk;
      assert Slot(fs.disk, fs.ip[i], NDIRECT) == old(Slot(fs.disk, fs.ip[i], NDIRECT)) != 0;
      FreeIndirect(fs, i);
      ReleasedMore(old(fs.disk), old(fs.ip), disk1, old(fs.ip), fs.disk, fs.ip, i, Range(NDIRECT + 1, n + 1), NDIRECT);
    }
  }

  lemma SlotsOutside(disk: seq<Block>, ips: seq<Inode>, disk': seq<Block>, ips': seq<Inode>, i: nat, lo: nat, hi: nat)
    requires Released(disk, ips, disk', ips', i, Range(lo, hi)) && hi <= NDIRECT
    ensures forall k :: hi <= k < NSLOTS ==> Slot(disk', ips'[i], k) == Slot(disk, ips[i], k)
  {
  }

  lemma ReleasedUnion(disk: seq<Block>, ips: seq<Inode>, disk1: seq<Block>, ips1: seq<Inode>, disk2: seq<Block>,
      ips2: seq<Inode>, i: nat, a: set<nat>, b: set<nat>)
    requires Released(disk, ips, disk1, ips1, i, a) && Released(disk1, ips1, disk2, ips2, i, b)
    ensures Released(disk, ips, disk2, ips2, i, a + b)
  {
    forall j, l | 0 <= j < |ips| && 0 <= l < NSLOTS
      ensures Slot(disk2, ips2[j], l) == if j == i && l in a + b then 0 else Slot(disk, ips[j], l)
    {
      assert Slot(disk1, ips1[j], l) == if j == i && l in a then 0 else Slot(disk, ips[j], l);
    }
    forall j, bn | 0 <= j < |ips| && 0 <= bn < MAXFILE && !(j == i && DataSlot(bn) in a + b)
      ensures DataBlock(disk2, ips2[j], bn) == DataBlock(disk, ips[j], bn)
    {
      assert DataBlock(disk1, ips1[j], bn) == DataBlock(disk, ips[j], bn);
    }
  }

  /** The blocks freed by a shrinking itruncate. */
  method FreeBeyond(fs: FileSystem, i: nat, k: nat, n: nat) returns (ghost gone: set<nat>)
    requires fs.Owned() && i < |fs.ip| && k <= n <= MAXFILE
    requires forall l :: 0 <= l < NSLOTS ==> (Slot(fs.disk, fs.ip[i], l) != 0 <==> l < n || (n > NDIRECT && l == n))
    modifies fs`bitmap, fs`disk, fs`ip, fs`owner, fs`logged
    ensures fs.Owned() && |fs.bitmap| == |old(fs.bitmap)|
    ensures Released(old(fs.disk), old(fs.ip), fs.disk, fs.ip, i, gone)
    ensures gone == Range(if k < NDIRECT then k else NDIRECT, if n < NDIRECT then n
      else NDIRECT) + if n > NDIRECT then Tail(k, n) else {}
  {
    var nd := if n < NDIRECT then n else NDIRECT;
    var kd := if k < NDIRECT then k else NDIRECT;
    FreeDirects(fs, i, kd, nd);
    gone := Range(kd, nd);
    if n > NDIRECT {
      ghost var disk1, ip1 := fs.disk, fs.ip;
      SlotsOutside(old(fs.disk), old(fs.ip), fs.disk, fs.ip, i, kd, nd);
      FreeTail(fs, i, k, n);
      ReleasedUnion(old(fs.disk), old(fs.ip), disk1, ip1, fs.disk, fs.ip, i, gone, Tail(k, n));
      gone := gone + Tail(k, n);
    }
  }

  lemma GoneSlots(was: nat, size: nat, l: nat)
    requires size < was <= MAXBYTES && l < NSLOTS
    ensures var (n, k) := (DivCeil(was, BSIZE), DivCeil(size, BSIZE));
      && (Needed(was, l) <==> l < n || (n > NDIRECT && l == n)) && k <= n <= MAXFILE
      && var gone := Range(if k < NDIRECT then k else NDIRECT, if n < NDIRECT then n
        else NDIRECT) + if n > NDIRECT then Tail(k, n) else {};
      l in gone <==> Needed(was, l) && !Needed(size, l)
  {
    Emptied(was, size, l);
  }

  method Shrink(fs: FileSystem, i: nat, size: nat)
    requires fs.Valid() && i < |fs.ip| && size < fs.ip[i].size
    modifies fs`bitmap, fs`disk, fs`ip, fs`owner, fs`logged
    ensures fs.Owned() && |fs.bitmap| == |old(fs.bitmap)| && OthersKept(old(fs.disk), old(fs.ip), fs.disk, fs.ip, i)
    ensures fs.ip == old(fs.ip)[i := old(fs.ip)[i].(addrs := fs.ip[i].addrs)]
    ensures Exact(fs.disk, fs.ip[i], size)
    ensures Image(fs.disk, fs.ip[i])[..size] == old(Content(fs.disk, fs.ip[i]))[..size]
  {
    var n, k := DivCeil(fs.ip[i].size, BSIZE), DivCeil(size, BSIZE);
    assert Exact(fs.disk, fs.ip[i], fs.ip[i].size);
    forall l: nat | l < NSLOTS {
      GoneSlots(fs.ip[i].size, size, l);
    }
    ghost var gone := FreeBeyond(fs, i, k, n);
    ShrinkDone(old(fs.disk), old(fs.ip), fs.disk, fs.ip, i, size, gone);
  }

  /** The contents cut or extended with zeroes to `size` bytes. */
  function Resize(c: seq<Byte>, size: nat): (r: seq<Byte>)
    ensures |r| == size
  {
    if size <= |c| then c[..size] else c + seq(size - |c|, _ => 0)
  }

  /** Setting the size once the inode holds exactly the blocks of that size. */
  lemma SizeSet(disk: seq<Block>, ips: seq<Inode>, disk': seq<Block>, ips': seq<Inode>, owner: Owner, first: nat,
      limit: nat, i: nat, size: nat)
    requires AllExact(disk, ips) && i < |ips| && OthersKept(disk, ips, disk', ips', i)
    requires OwnsSlots(disk', ips', owner, first, limit) && Exact(disk', ips'[i], size)
    ensures var ips2 := ips'[i := ips'[i].(size := size)];
      && OwnsSlots(disk', ips2, owner, first, limit) && AllExact(disk', ips2) && OthersKept(disk, ips, disk', ips2, i)
      && Content(disk', ips2[i]) == Image(disk', ips'[i])[..size]
  {
    Resized(disk', ips', owner, first, limit, i, size);
    var ips2 := ips'[i := ips'[i].(size := size)];
    forall j | 0 <= j < |ips2| ensures Exact(disk', ips2[j], ips2[j].size) {
      if j != i {
        assert ips2[j] == ips[j] && Exact(disk, ips[j], ips[j].size);
      }
    }
  }

  lemma ExtendDone(nmap: nat, disk: seq<Block>, ips: seq<Inode>, logged: set<Logged>, disk': seq<Block>,
      ips': seq<Inode>, logged': set<Logged>, i: nat, size: nat)
    requires i < |ips| && ips[i].size <= size <= MAXBYTES
    requires WroteBytes(nmap, disk, ips, logged, disk', ips', logged', i, ips[i].size, seq(size - ips[i].size, _ => 0))
    ensures Exact(disk', ips'[i], size) && Image(disk', ips'[i])[..size] == Resize(Content(disk, ips[i]), size)
  {
  }

  /** The zeroes after the old end. */
  method Extend(fs: FileSystem, i: nat, size: nat) returns (ok: bool)
    requires fs.Valid() && i < |fs.ip| && fs.ip[i].size <= size <= MAXBYTES
    modifies fs`bitmap, fs`disk, fs`ip, fs`owner, fs`logged
    ensures !ok ==> fs.Full()
    ensures ok ==>
      fs.Owned() && |fs.bitmap| == |old(fs.bitmap)| && OthersKept(old(fs.disk), old(fs.ip), fs.disk, fs.ip, i)
    ensures ok ==> fs.ip == old(fs.ip)[i := old(fs.ip)[i].(addrs := fs.ip[i].addrs)] && Exact(fs.disk, fs.ip[i], size)
    ensures ok ==> Image(fs.disk, fs.ip[i])[..size] == Resize(old(Content(fs.disk, fs.ip[i])), size)
  {
    assert Exact(fs.disk, fs.ip[i], fs.ip[i].size);
    ok := fs.WriteBytes(i, seq(size - fs.ip[i].size, _ => 0), fs.ip[i].size);
    if ok {
      ExtendDone(|fs.bitmap|, old(fs.disk), old(fs.ip), old(fs.logged), fs.disk, fs.ip, fs.logged, i, size);
    }
  }

  /** itruncate: shrinks or zero-extends one inode; every other inode keeps its bytes. */
  method Itruncate(fs: FileSystem, i: nat, size: nat) returns (ok: bool, r: int)
    requires fs.Valid() && i < |fs.ip|
    modifies fs
    ensures !ok ==> fs.Full()
    ensures ok ==> fs.Valid() && |fs.ip| == |old(fs.ip)| && r == if size > MAXBYTES then -1 else 0
    ensures ok ==> OthersKept(old(fs.disk), old(fs.ip), fs.disk, fs.ip, i)
    ensures ok && r == -1 ==> fs.ip == old(fs.ip) && fs.disk == old(fs.disk) && fs.bitmap == old(fs.bitmap)
    ensures ok && r == 0 ==> Content(fs.disk, fs.ip[i]) == Resize(old(Content(fs.disk, fs.ip[i])), size)
  {
    ok, r := true, 0;
    if size > MAXBYTES {
      return true, -1;
    }
    if size < fs.ip[i].size {
      Shrink(fs, i, size);
    } else {
      ok := Extend(fs, i, size);
      if !ok {
        return;
      }
    }
    SizeSet(old(fs.disk), old(fs.ip), fs.disk, fs.ip, fs.owner, fs.first, fs.limit, i, size);
    fs.ip := fs.ip[i := fs.ip[i].(size := size)];
    fs.dip := fs.dip[i := fs.ip[i]];
  }
}
