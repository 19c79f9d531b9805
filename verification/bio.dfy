/** The buffer cache (kernel/bio.c): NBUF buffers on a doubly linked list in order
    of last release.  Pointers into the static array bcache.buf are indices, and
    index NBUF stands for bcache.head. */
module BufferCache {
  import opened Blocks
  import P = LogProtocol

  const ROOTDEV: int := 1
  const NODEV: int := -1

  datatype Buf = Buf(dev: int, blockno: nat, busy: bool, valid: bool, dirty: bool,
                     prev: nat, next: nat, data: Block)

  // ---- The linked list

  /** The i-th node of list l, counting the head h at both ends. */
  function Node(l: seq<nat>, h: nat, i: int): (n: nat) {
    if 0 <= i < |l| then l[i] else h
  }

  /** Following next from the head visits l and comes back to the head, and prev
      leads the other way. */
  ghost predicate List(b: seq<Buf>, h: nat, l: seq<nat>) {
    && h < |b|
    && (forall i :: 0 <= i < |l| ==> l[i] < |b| && l[i] != h)
    && (forall i, j :: 0 <= i < j < |l| ==> l[i] != l[j])
    && (forall i :: -1 <= i < |l| ==> b[Node(l, h, i)].next == Node(l, h, i + 1))
    && (forall i :: 0 <= i <= |l| ==> b[Node(l, h, i)].prev == Node(l, h, i - 1))
  }

  /** b->next->prev = b->prev; b->prev->next = b->next; */
  function Unlink(b: seq<Buf>, x: nat): (r: seq<Buf>)
    requires x < |b| && b[x].next < |b| && b[x].prev < |b|
  {
    var b1 := b[b[x].next := b[b[x].next].(prev := b[x].prev)];
    b1[b1[x].prev := b1[b1[x].prev].(next := b1[x].next)]
  }

  /** b->next = head.next; b->prev = &head; head.next->prev = b; head.next = b; */
  function PushFront(b: seq<Buf>, h: nat, x: nat): (r: seq<Buf>)
    requires x < |b| && h < |b| && b[h].next < |b|
  {
    var b1 := b[x := b[x].(next := b[h].next)];
    var b2 := b1[x := b1[x].(prev := h)];
    var b3 := b2[b2[h].next := b2[b2[h].next].(prev := x)];
    b3[h := b3[h].(next := x)]
  }

  function Without(l: seq<nat>, p: nat): (r: seq<nat>)
    requires p < |l|
  {
    l[..p] + l[p + 1..]
  }

  lemma UnlinkNext(b: seq<Buf>, h: nat, l: seq<nat>, p: nat, i: int)
    requires List(b, h, l) && p < |l| && b[l[p]].next == Node(l, h, p + 1) && b[l[p]].prev == Node(l, h, p - 1)
    requires -1 <= i < |l| - 1
    ensures Unlink(b, l[p])[Node(Without(l, p), h, i)].next == Node(Without(l, p), h, i + 1)
  {
    assert b[Node(l, h, if i < p then i else i + 1)].next == Node(l, h, if i < p then i + 1 else i + 2);
  }

  lemma UnlinkPrev(b: seq<Buf>, h: nat, l: seq<nat>, p: nat, i: int)
    requires List(b, h, l) && p < |l| && b[l[p]].next == Node(l, h, p + 1) && b[l[p]].prev == Node(l, h, p - 1)
    requires 0 <= i <= |l| - 1
    ensures Unlink(b, l[p])[Node(Without(l, p), h, i)].prev == Node(Without(l, p), h, i - 1)
  {
    assert b[Node(l, h, if i < p then i else i + 1)].prev == Node(l, h, if i < p then i - 1 else i);
  }

  lemma UnlinkList(b: seq<Buf>, h: nat, l: seq<nat>, p: nat)
    requires List(b, h, l) && p < |l|
    ensures b[l[p]].next < |b| && b[l[p]].prev < |b| && List(Unlink(b, l[p]), h, Without(l, p))
  {
    var x, r := l[p], Without(l, p);
    assert Node(l, h, p) == x;
    assert b[x].next == Node(l, h, p + 1) && b[x].prev == Node(l, h, p - 1);
    var b' := Unlink(b, x);
    forall i | -1 <= i < |r| ensures b'[Node(r, h, i)].next == Node(r, h, i + 1) {
      UnlinkNext(b, h, l, p, i);
    }
    forall i | 0 <= i <= |r| ensures b'[Node(r, h, i)].prev == Node(r, h, i - 1) {
      UnlinkPrev(b, h, l, p, i);
    }
  }

  /** Relinking changes nothing but links. */
  ghost predicate SameBufs(b: seq<Buf>, b': seq<Buf>) {
    && |b'| == |b|
    && forall k :: 0 <= k < |b| ==> b'[k] == b[k].(prev := b'[k].prev, next := b'[k].next)
  }

  lemma UnlinkSame(b: seq<Buf>, x: nat)
    requires x < |b| && b[x].next < |b| && b[x].prev < |b|
    ensures SameBufs(b, Unlink(b, x))
  {
  }

  lemma PushFrontList(b: seq<Buf>, h: nat, l: seq<nat>, x: nat)
    requires List(b, h, l) && x < |b| && x != h && x !in l
    ensures b[h].next < |b| && List(PushFront(b, h, x), h, [x] + l)
  {
    assert b[Node(l, h, -1)].next == Node(l, h, 0);
    var b', r := PushFront(b, h, x), [x] + l;
    forall i | -1 <= i < |r| ensures b'[Node(r, h, i)].next == Node(r, h, i + 1) {
      if i >= 1 {
        assert b[Node(l, h, i - 1)].next == Node(l, h, i);
      }
    }
    forall i | 0 <= i <= |r| ensures b'[Node(r, h, i)].prev == Node(r, h, i - 1) {
      if i >= 2 {
        assert b[Node(l, h, i - 1)].prev == Node(l, h, i - 2);
      }
    }
  }

  /** The same blocks are held. */
  ghost predicate SameHolds(b: seq<Buf>, b': seq<Buf>) {
    && |b'| == |b|
    && forall k :: 0 <= k < |b| ==> b'[k].dev == b[k].dev && b'[k].blockno == b[k].blockno && b'[k].busy == b[k].busy
  }

  lemma SameHoldsMore(b: seq<Buf>, b': seq<Buf>, b'': seq<Buf>)
    requires SameHolds(b, b') && SameHolds(b', b'')
    ensures SameHolds(b, b'')
  {
  }

  // ---- The cache

  /** What bget does: hand out a buffer, sleep on a busy one, or panic. */
  datatype Outcome = Got(buf: nat) | Sleep(buf: nat) | NoBuffers

  predicate Holds(b: Buf, dev: int, blockno: nat) {
    b.dev == dev && b.blockno == blockno
  }

  predicate Recyclable(b: Buf) {
    !b.busy && !b.dirty
  }

  /** No block has two buffers, and a buffer of no device is unused. */
  ghost predicate OneEach(b: seq<Buf>, n: nat)
    requires n <= |b|
  {
    && (forall k :: 0 <= k < n && b[k].dev == NODEV ==> !b[k].busy && !b[k].valid && !b[k].dirty)
    && (forall j, k :: 0 <= j < k < n && b[j].dev != NODEV && b[j].dev == b[k].dev ==> b[j].blockno != b[k].blockno)
  }

  /** Every buffer is on the list. */
  ghost predicate Covers(l: seq<nat>, n: nat) {
    forall k :: 0 <= k < n ==> k in l
  }

  /** A list in order of last release, latest first. */
  ghost predicate ByRelease(l: seq<nat>, released: seq<nat>, clock: nat) {
    && (forall i :: 0 <= i < |l| ==> l[i] < |released|)
    && (forall k :: 0 <= k < |released| ==> released[k] <= clock)
    && forall i, j :: 0 <= i < j < |l| ==> released[l[i]] >= released[l[j]]
  }

  /** Buffers that have not been used, the first m of them on no device. */
  ghost predicate Unused(b: seq<Buf>, n: nat, m: nat)
    requires n <= |b| && m <= n
  {
    && (forall k :: 0 <= k < n ==> !b[k].busy && !b[k].valid && !b[k].dirty)
    && (forall k :: 0 <= k < m ==> b[k].dev == NODEV)
  }

  lemma SameBufsMore(b: seq<Buf>, b': seq<Buf>, b'': seq<Buf>)
    requires SameBufs(b, b') && SameBufs(b', b'')
    ensures SameBufs(b, b'')
  {
  }

  lemma IdleOneEach(b: seq<Buf>, b': seq<Buf>, n: nat, k: nat)
    requires k < n <= |b| && OneEach(b, n) && SameBufs(b[k := b[k].(busy := false)], b')
    ensures OneEach(b', n)
  {
  }

  ghost predicate ShowsOne(f: Buf, c: P.Cache) {
    && f.blockno in c.data && c.data[f.blockno] == f.data
    && (f.blockno in c.dirty <==> f.dirty) && (f.blockno in c.busy <==> f.busy)
  }

  ghost predicate InUse(b: seq<Buf>, n: nat, x: nat)
    requires n <= |b|
  {
    exists k :: 0 <= k < n && Holds(b[k], ROOTDEV, x)
  }

  function Count(b: seq<Buf>, n: nat): (c: nat)
    requires n <= |b|
    ensures c <= n
  {
    if n == 0 then 0 else Count(b, n - 1) + if b[n - 1].dev == ROOTDEV then 1 else 0
  }

  /** Cache c is the contents and flags of the first n buffers. */
  ghost predicate Shows(b: seq<Buf>, n: nat, c: P.Cache)
    requires n <= |b|
  {
    && (forall k :: 0 <= k < n && b[k].dev == ROOTDEV ==> ShowsOne(b[k], c))
    && (forall x :: x in c.data ==> InUse(b, n, x))
    && (forall x :: x in c.dirty || x in c.busy ==> x in c.data)
    && c.cap == n && |c.data| == Count(b, n)
  }

  /** Buffers of the same blocks. */
  lemma SameUse(b: seq<Buf>, b': seq<Buf>, n: nat, c: P.Cache)
    requires n <= |b| == |b'| && Shows(b, n, c)
    requires forall k :: 0 <= k < n ==> b'[k].dev == b[k].dev && b'[k].blockno == b[k].blockno
    ensures forall x :: x in c.data ==> InUse(b', n, x)
  {
    forall x | x in c.data ensures InUse(b', n, x) {
      assert InUse(b, n, x);
      var j :| 0 <= j < n && Holds(b[j], ROOTDEV, x);
      assert Holds(b'[j], ROOTDEV, x);
    }
  }

  lemma {:induction false} SameCount(b: seq<Buf>, b': seq<Buf>, n: nat)
    requires n <= |b| == |b'| && forall k :: 0 <= k < n ==> b'[k].dev == b[k].dev
    ensures Count(b', n) == Count(b, n)
  {
    if n > 0 {
      SameCount(b, b', n - 1);
    }
  }

  lemma IdleShows(b: seq<Buf>, b': seq<Buf>, n: nat, k: nat, c: P.Cache)
    requires k < n <= |b| && OneEach(b, n) && SameBufs(b[k := b[k].(busy := false)], b') && Shows(b, n, c)
    ensures Shows(b', n, if b[k].dev == ROOTDEV then c.(busy := c.busy - {b[k].blockno}) else c)
  {
    var c' := if b[k].dev == ROOTDEV then c.(busy := c.busy - {b[k].blockno}) else c;
    SameUse(b, b', n, c);
    forall j | 0 <= j < n && b'[j].dev == ROOTDEV ensures ShowsOne(b'[j], c') {
      assert ShowsOne(b[j], c);
    }
    SameCount(b, b', n);
  }

  /** Moving an element to the front of a permutation leaves a permutation. */
  lemma FrontMembers(l: seq<nat>, p: nat, n: nat)
    requires p < |l| && Covers(l, n)
    ensures Covers([l[p]] + Without(l, p), n)
  {
    var r := [l[p]] + Without(l, p);
    forall k | 0 <= k < n ensures k in r {
      assert k in l;
      var i :| 0 <= i < |l| && l[i] == k;
      assert r[if i < p then i + 1 else if i == p then 0 else i] == k;
    }
  }

  lemma FrontByRelease(l: seq<nat>, p: nat, released: seq<nat>, clock: nat)
    requires p < |l| && ByRelease(l, released, clock)
    requires forall i, j :: 0 <= i < j < |l| ==> l[i] != l[j]
    ensures ByRelease([l[p]] + Without(l, p), released[l[p] := clock + 1], clock + 1)
  {
    var r, released' := [l[p]] + Without(l, p), released[l[p] := clock + 1];
    forall i, j | 0 <= i < j < |r| ensures released'[r[i]] >= released'[r[j]] {
      var j' := if j <= p then j - 1 else j;
      assert r[j] == l[j'] && j' != p;
      if i > 0 {
        var i' := if i <= p then i - 1 else i;
        assert r[i] == l[i'] && i' != p && i' < j';
      }
    }
  }

  /** The list survives changes to anything but the links. */
  lemma SameLinks(b: seq<Buf>, b': seq<Buf>, h: nat, l: seq<nat>)
    requires List(b, h, l) && |b'| == |b|
    requires forall k :: 0 <= k < |b| ==> b'[k].prev == b[k].prev && b'[k].next == b[k].next
    ensures List(b', h, l)
  {
  }

  /** Every buffer in use holds a block of the root device. */
  ghost predicate Filled(b: seq<Buf>, n: nat, disk: seq<Block>)
    requires n <= |b|
  {
    forall k :: 0 <= k < n && b[k].dev != NODEV ==> b[k].dev == ROOTDEV && b[k].valid && b[k].blockno < |disk|
  }

  lemma {:induction false} NoneCounted(b: seq<Buf>, n: nat)
    requires n <= |b| && forall k :: 0 <= k < n ==> b[k].dev == NODEV
    ensures Count(b, n) == 0
  {
    if n > 0 {
      NoneCounted(b, n - 1);
    }
  }

  /** bread of the block waits for a buffer that is held, or panics for want of one to recycle. */
  ghost predicate Blocked(b: seq<Buf>, n: nat, blockno: nat)
    requires n <= |b|
  {
    || (exists k :: 0 <= k < n && Holds(b[k], ROOTDEV, blockno) && b[k].busy)
    || (forall k :: 0 <= k < n ==> !Holds(b[k], ROOTDEV, blockno) && !Recyclable(b[k]))
  }

  /** A buffer that bget may hand out. */
  lemma NotBlocked(b: seq<Buf>, n: nat, k: nat, blockno: nat)
    requires n <= |b| && k < n && OneEach(b, n)
    requires if InUse(b, n, blockno) then Holds(b[k], ROOTDEV, blockno) && !b[k].busy else Recyclable(b[k])
    ensures !Blocked(b, n, blockno)
  {
    forall l | 0 <= l < n && Holds(b[l], ROOTDEV, blockno) ensures !b[l].busy {
      assert InUse(b, n, blockno);
      assert l == k;
    }
    if !InUse(b, n, blockno) {
      assert !Holds(b[k], ROOTDEV, blockno);
    }
  }

  /** One bread has handed out buffer i, of the block; the others are as they were. */
  ghost predicate HandsOut(b: seq<Buf>, b': seq<Buf>, n: nat, i: nat, blockno: nat) {
    && n <= |b| == |b'| && i < n && Holds(b'[i], ROOTDEV, blockno) && b'[i].busy
    && forall k :: 0 <= k < n && k != i ==> b'[k] == b[k]
  }

  /** The cache after the contents and the pin of a cached block have changed. */
  function PutBuf(f: Buf, c: P.Cache): (c': P.Cache) {
    c.(data := c.data[f.blockno := f.data],
       dirty := if f.dirty then c.dirty + {f.blockno} else c.dirty - {f.blockno})
  }

  lemma PutKeys(b: seq<Buf>, n: nat, k: nat, f: Buf, c: P.Cache)
    requires n <= |b| && k < n && Shows(b, n, c) && b[k].dev == ROOTDEV && f.blockno == b[k].blockno
    ensures PutBuf(f, c).data.Keys == c.data.Keys && |PutBuf(f, c).data| == |c.data|
    ensures f.dirty == b[k].dirty ==> PutBuf(f, c).dirty == c.dirty
  {
    assert ShowsOne(b[k], c);
    var c' := PutBuf(f, c);
    assert c'.data.Keys == c.data.Keys;
    assert |c'.data| == |c'.data.Keys| && |c.data| == |c.data.Keys|;
  }

  lemma PutShowsOne(b: seq<Buf>, n: nat, k: nat, f: Buf, c: P.Cache, j: nat)
    requires n <= |b| && k < n && j < n && OneEach(b, n) && Shows(b, n, c) && b[k].dev == ROOTDEV && b[j].dev == ROOTDEV
    requires f == b[k].(data := f.data, dirty := f.dirty)
    ensures ShowsOne(b[k := f][j], PutBuf(f, c))
  {
    assert ShowsOne(b[j], c) && (j != k ==> b[j].blockno != b[k].blockno);
  }

  /** A buffer that is held has a block of the root device. */
  lemma HeldOnRoot(b: seq<Buf>, n: nat, k: nat, disk: seq<Block>)
    requires n <= |b| && k < n && OneEach(b, n) && Filled(b, n, disk) && b[k].busy
    ensures b[k].dev == ROOTDEV && b[k].blockno < |disk|
  {
  }

  lemma PutShows(b: seq<Buf>, n: nat, k: nat, f: Buf, disk: seq<Block>, c: P.Cache)
    requires n <= |b| && k < n && OneEach(b, n) && Filled(b, n, disk) && Shows(b, n, c) && b[k].busy
    requires f == b[k].(data := f.data, dirty := f.dirty)
    ensures b[k].blockno < |disk| && OneEach(b[k := f], n) && Filled(b[k := f], n, disk)
    ensures Shows(b[k := f], n, PutBuf(f, c))
    ensures f.dirty == b[k].dirty ==> PutBuf(f, c).dirty == c.dirty
  {
    var b', c' := b[k := f], PutBuf(f, c);
    HeldOnRoot(b, n, k, disk);
    SameUse(b, b', n, c);
    SameCount(b, b', n);
    PutKeys(b, n, k, f, c);
    forall j | 0 <= j < n && b'[j].dev == ROOTDEV ensures ShowsOne(b'[j], c') {
      PutShowsOne(b, n, k, f, c, j);
    }
  }

  lemma SameData(b: seq<Buf>, n: nat, k: nat, c: P.Cache)
    requires n <= |b| && k < n && Shows(b, n, c) && b[k].dev == ROOTDEV
    ensures c.data[b[k].blockno := b[k].data] == c.data
  {
    assert ShowsOne(b[k], c);
  }

  /** Releasing a buffer leaves its block. */
  lemma StillFilled(b: seq<Buf>, b': seq<Buf>, n: nat, k: nat, disk: seq<Block>)
    requires k < n <= |b| && Filled(b, n, disk) && SameBufs(b[k := b[k].(busy := false)], b')
    ensures Filled(b', n, disk)
  {
  }

  lemma HeldCached(b: seq<Buf>, n: nat, k: nat, c: P.Cache)
    requires n <= |b| && k < n && Shows(b, n, c) && b[k].dev == ROOTDEV && b[k].busy
    ensures b[k].blockno in c.data && c.data[b[k].blockno] == b[k].data && b[k].blockno in c.busy
  {
    assert ShowsOne(b[k], c);
  }

  /** Buffers that are neither pinned nor held agree with the disk. */
  ghost predicate Agrees(c: P.Cache, disk: seq<Block>) {
    forall x :: x in c.data && x !in c.dirty && x !in c.busy ==> x < |disk| && c.data[x] == disk[x]
  }

  lemma BreadsTwo(c: P.Cache, c1: P.Cache, c2: P.Cache, disk: seq<Block>, x: nat, y: nat)
    requires Agrees(c, disk) && P.Breads(c, disk, {x}, c1) && P.Breads(c1, disk, {y}, c2) && x != y
    ensures P.Breads(c, disk, {x, y}, c2)
  {
    assert c.busy + {x} + {y} == c.busy + {x, y};
    forall z | z in c2.data ensures z < |disk| && c2.data[z] == if z in c.data then c.data[z] else disk[z] {
      assert z in c1.data ==> c1.data[z] == if z in c.data then c.data[z] else disk[z];
    }
  }

  lemma StoredOnly(c: P.Cache, c': P.Cache, x: nat, data: Block)
    requires c' == c.(data := c.data[x := data], dirty := c.dirty - {x})
    ensures c' == P.Store(c, x, data, {})
  {
    assert c.busy - {} == c.busy;
  }

  lemma StoredAndFreed(c: P.Cache, c': P.Cache, x: nat, y: nat, data: Block)
    requires c' == P.Store(c, y, data, {})
    ensures c'.(busy := c'.busy - {x} - {y}) == P.Store(c, y, data, {x, y})
  {
    assert c.busy - {} - {x} - {y} == c.busy - {x, y};
  }

  ghost predicate CopiesBy(c: P.Cache, disk: seq<Block>, from: nat, to: nat, c': P.Cache, disk': seq<Block>,
      mid: P.Cache) {
    && P.Breads(c, disk, {from, to}, mid) && from in mid.data && to < |disk|
    && c' == P.Store(mid, to, mid.data[from], {from, to}) && disk' == disk[to := mid.data[from]]
  }

  /** Block `from` is copied to block `to`, as a disk transfer of the log does it. */
  ghost predicate Copies(c: P.Cache, disk: seq<Block>, from: nat, to: nat, c': P.Cache, disk': seq<Block>) {
    exists mid :: CopiesBy(c, disk, from, to, c', disk', mid)
  }

  lemma {:induction false} CountUpdate(b: seq<Buf>, n: nat, k: nat, f: Buf)
    requires n <= |b| && k < |b|
    ensures Count(b[k := f], n) ==
      Count(b, n) + if k < n then (if f.dev == ROOTDEV then 1 else 0) - (if b[k].dev == ROOTDEV then 1 else 0) else 0
  {
    if n > 0 {
      CountUpdate(b, n - 1, k, f);
    }
  }

  lemma BreadHit(b: seq<Buf>, n: nat, k: nat, disk: seq<Block>, c: P.Cache)
    requires n <= |b| && k < n && OneEach(b, n) && Filled(b, n, disk) && Shows(b, n, c)
    requires b[k].dev == ROOTDEV && !b[k].busy
    ensures var c' := c.(busy := c.busy + {b[k].blockno});
      Shows(b[k := b[k].(busy := true)], n, c') && P.Breads(c, disk, {b[k].blockno}, c')
  {
    var f, c' := b[k].(busy := true), c.(busy := c.busy + {b[k].blockno});
    var b' := b[k := f];
    CountUpdate(b, n, k, f);
    forall x | x in c'.data ensures InUse(b', n, x) {
      assert InUse(b, n, x);
      var j :| 0 <= j < n && Holds(b[j], ROOTDEV, x);
      assert Holds(b'[j], ROOTDEV, x);
    }
    forall x | x in c'.data ensures x < |disk| {
      assert InUse(b, n, x);
    }
  }

  /** A recycled buffer, with the contents of block x read into it. */
  function Loaded(f: Buf, x: nat, data: Block): (f': Buf) {
    f.(dev := ROOTDEV, blockno := x, busy := true, valid := true, data := data)
  }

  ghost predicate CanLoad(b: seq<Buf>, n: nat, k: nat, x: nat, disk: seq<Block>, c: P.Cache) {
    && n <= |b| && k < n && OneEach(b, n) && Filled(b, n, disk) && Recyclable(b[k]) && x < |disk|
    && Shows(b, n, c) && !InUse(b, n, x)
  }

  lemma LoadUses(b: seq<Buf>, n: nat, k: nat, x: nat, disk: seq<Block>, c: P.Cache)
    requires CanLoad(b, n, k, x, disk, c)
    ensures var b' := b[k := Loaded(b[k], x, disk[x])];
      InUse(b', n, x) && forall y :: y in c.data && !Holds(b[k], ROOTDEV, y) ==> InUse(b', n, y)
  {
    var b' := b[k := Loaded(b[k], x, disk[x])];
    assert Holds(b'[k], ROOTDEV, x);
    forall y | y in c.data && !Holds(b[k], ROOTDEV, y) ensures InUse(b', n, y) {
      assert InUse(b, n, y);
      var j :| 0 <= j < n && Holds(b[j], ROOTDEV, y);
      assert Holds(b'[j], ROOTDEV, y);
    }
  }

  /** The cache after a buffer has been recycled for block x. */
  function Recycled(f: Buf, x: nat, data: Block, c: P.Cache): (c': P.Cache) {
    var kept := if f.dev == ROOTDEV then c.data - {f.blockno} else c.data;
    c.(data := kept[x := data], busy := c.busy + {x})
  }

  lemma LoadShowsOne(b: seq<Buf>, n: nat, k: nat, x: nat, disk: seq<Block>, c: P.Cache, j: nat)
    requires CanLoad(b, n, k, x, disk, c) && j < n
    ensures var b' := b[k := Loaded(b[k], x, disk[x])];
      b'[j].dev == ROOTDEV ==> ShowsOne(b'[j], Recycled(b[k], x, disk[x], c))
  {
    if j != k && b[j].dev == ROOTDEV {
      assert ShowsOne(b[j], c);
      assert Holds(b[j], ROOTDEV, b[j].blockno);
    } else if j == k {
      assert x !in c.data;
    }
  }

  lemma RecycledSize(f: Buf, x: nat, data: Block, c: P.Cache)
    requires x !in c.data && (f.dev == ROOTDEV ==> f.blockno in c.data)
    ensures |Recycled(f, x, data, c).data| == |c.data| + if f.dev == ROOTDEV then 0 else 1
  {
    var kept := if f.dev == ROOTDEV then c.data - {f.blockno} else c.data;
    assert kept[x := data].Keys == kept.Keys + {x};
    if f.dev == ROOTDEV {
      assert kept.Keys == c.data.Keys - {f.blockno};
    }
  }

  lemma LoadShows(b: seq<Buf>, n: nat, k: nat, x: nat, disk: seq<Block>, c: P.Cache)
    requires CanLoad(b, n, k, x, disk, c)
    ensures Shows(b[k := Loaded(b[k], x, disk[x])], n, Recycled(b[k], x, disk[x], c))
  {
    var f, c' := Loaded(b[k], x, disk[x]), Recycled(b[k], x, disk[x], c);
    LoadUses(b, n, k, x, disk, c);
    var b' := b[k := f];
    forall j | 0 <= j < n && b'[j].dev == ROOTDEV ensures ShowsOne(b'[j], c') {
      LoadShowsOne(b, n, k, x, disk, c, j);
    }
    CountUpdate(b, n, k, f);
    assert x !in c.data;
    RecycledSize(b[k], x, disk[x], c);
    assert b[k].dev == ROOTDEV ==> ShowsOne(b[k], c);
  }

  lemma LoadBreads(b: seq<Buf>, n: nat, k: nat, x: nat, disk: seq<Block>, c: P.Cache)
    requires CanLoad(b, n, k, x, disk, c)
    ensures P.Breads(c, disk, {x}, Recycled(b[k], x, disk[x], c))
  {
    LoadShows(b, n, k, x, disk, c);
    assert x !in c.data;
    assert b[k].dev == ROOTDEV ==> ShowsOne(b[k], c);
    forall y | y in c.data ensures y < |disk| {
      assert InUse(b, n, y);
    }
  }

  lemma OneFilled(b: seq<Buf>, n: nat, k: nat, f: Buf, disk: seq<Block>)
    requires n <= |b| && k < n && Filled(b, n, disk) && f.dev == ROOTDEV && f.valid && f.blockno < |disk|
    ensures Filled(b[k := f], n, disk)
  {
  }

  /** The cache after bread has returned buffer k. */
  lemma ReadInto(b: seq<Buf>, b': seq<Buf>, n: nat, k: nat, x: nat, disk: seq<Block>, c: P.Cache) returns (c': P.Cache)
    requires n <= |b| == |b'| && k < n && OneEach(b, n) && Filled(b, n, disk) && Shows(b, n, c) && x < |disk|
    requires forall j :: 0 <= j < |b| && j != k ==> b'[j] == b[j]
    requires if InUse(b, n, x) then Holds(b[k], ROOTDEV, x) && !b[k].busy && b'[k] == b[k].(busy := true)
             else Recyclable(b[k]) && b'[k] == Loaded(b[k], x, disk[x])
    ensures Filled(b', n, disk) && Shows(b', n, c') && P.Breads(c, disk, {x}, c')
  {
    assert b' == b[k := b'[k]];
    if InUse(b, n, x) {
      BreadHit(b, n, k, disk, c);
      c' := c.(busy := c.busy + {x});
    } else {
      LoadShows(b, n, k, x, disk, c);
      LoadBreads(b, n, k, x, disk, c);
      c' := Recycled(b[k], x, disk[x], c);
    }
    OneFilled(b, n, k, b'[k], disk);
  }

  class BCache {
    const nbuf: nat
    const buf: array<Buf>
    ghost var order: seq<nat>     // the list, most recently released first
    ghost var released: seq<nat>  // when each buffer was last released
    ghost var clock: nat
    ghost var cache: P.Cache      // the buffers of ROOTDEV, as the log sees them

    ghost predicate Valid()
      reads this, buf
    {
      && buf.Length == nbuf + 1 && |order| == nbuf == |released|
      && List(buf[..], nbuf, order)
      && Covers(order, nbuf)
      && OneEach(buf[..], nbuf) && ByRelease(order, released, clock)
    }

    /** In a system with one disk. */
    ghost predicate OneDisk(disk: seq<Block>)
      reads this, buf
    {
      buf.Length == nbuf + 1 && Filled(buf[..], nbuf, disk) && Shows(buf[..], nbuf, cache)
    }

    /** binit */
    constructor (n: nat)
      ensures Valid() && fresh(buf) && nbuf == n
      ensures forall k :: 0 <= k < n ==> buf[k].dev == NODEV
      ensures cache == P.Cache(map[], {}, {}, n) && forall disk: seq<Block> :: OneDisk(disk)
    {
      nbuf := n;
      buf := new Buf[n + 1](_ => Buf(0, 0, false, false, false, n, n, Zeroes()));
      new;
      order := [];
      for b := 0 to n
        invariant List(buf[..], n, order) && |order| == b
        invariant forall k :: k in order <==> 0 <= k < b
        invariant Unused(buf[..], n, b)
      {
        LinkFront(b);
      }
      released := seq(n, _ => 0);
      clock := 0;
      cache := P.Cache(map[], {}, {}, n);
      NoneCounted(buf[..], n);
    }

    /** The body of the loop of binit. */
    method LinkFront(b: nat)
      requires buf.Length == nbuf + 1 && b < nbuf && b !in order
      requires List(buf[..], nbuf, order) && Unused(buf[..], nbuf, b)
      modifies this`order, buf
      ensures List(buf[..], nbuf, order) && order == [b] + old(order) && Unused(buf[..], nbuf, b + 1)
    {
      ghost var was := buf[..][b := buf[b].(dev := NODEV)];
      SameLinks(buf[..], was, nbuf, order);
      PushFrontList(was, nbuf, order, b);
      buf[b] := buf[b].(next := buf[nbuf].next);
      buf[b] := buf[b].(prev := nbuf);
      buf[b] := buf[b].(dev := NODEV);
      buf[buf[nbuf].next] := buf[buf[nbuf].next].(prev := b);
      buf[nbuf] := buf[nbuf].(next := b);
      assert buf[..] == PushFront(was, nbuf, b);
      order := [b] + order;
    }

    /** Look through the list from its front for a buffer of the block. */
    method Find(dev: int, blockno: nat) returns (b: nat)
      requires Valid()
      ensures b <= nbuf
      ensures b < nbuf ==> Holds(buf[b], dev, blockno)
      ensures b == nbuf ==> forall k :: 0 <= k < nbuf ==> !Holds(buf[k], dev, blockno)
    {
      ghost var i := 0;
      assert buf[Node(order, nbuf, -1)].next == Node(order, nbuf, 0);
      b := buf[nbuf].next;
      while b != nbuf
        invariant 0 <= i <= nbuf && b == Node(order, nbuf, i)
        invariant forall j :: 0 <= j < i ==> !Holds(buf[order[j]], dev, blockno)
        decreases nbuf - i
      {
        if buf[b].dev == dev && buf[b].blockno == blockno {
          return;
        }
        assert buf[Node(order, nbuf, i)].next == Node(order, nbuf, i + 1);
        b := buf[b].next;
        i := i + 1;
      }
      forall k | 0 <= k < nbuf ensures !Holds(buf[k], dev, blockno) {
        assert k in order;
      }
    }

    /** Look through the list from its back for a buffer that can be recycled: the
        least recently released of all clean idle buffers. */
    method FindVictim() returns (b: nat)
      requires Valid()
      ensures b <= nbuf
      ensures b < nbuf ==> Recyclable(buf[b])
      ensures b < nbuf ==> forall k :: 0 <= k < nbuf && Recyclable(buf[k]) ==> released[b] <= released[k]
      ensures b == nbuf ==> forall k :: 0 <= k < nbuf ==> !Recyclable(buf[k])
    {
      ghost var i := nbuf - 1;
      assert buf[Node(order, nbuf, nbuf)].prev == Node(order, nbuf, nbuf - 1);
      b := buf[nbuf].prev;
      while b != nbuf
        invariant -1 <= i < nbuf && b == Node(order, nbuf, i)
        invariant forall j :: i < j < nbuf ==> !Recyclable(buf[order[j]])
        decreases i
      {
        if !buf[b].busy && !buf[b].dirty {
          forall k | 0 <= k < nbuf && Recyclable(buf[k]) ensures released[b] <= released[k] {
            assert k in order;
          }
          return;
        }
        assert buf[Node(order, nbuf, i)].prev == Node(order, nbuf, i - 1);
        b := buf[b].prev;
        i := i - 1;
      }
      forall k | 0 <= k < nbuf ensures !Recyclable(buf[k]) {
        assert k in order;
      }
    }

    /** bget: the one buffer of the block if it is cached, else the least recently
        released clean idle buffer, relabelled. */
    method Bget(dev: int, blockno: nat) returns (r: Outcome)
      requires Valid() && dev != NODEV
      modifies buf
      ensures Valid()
      ensures match r {
          case Got(b) =>
            && b < nbuf && (forall k :: 0 <= k <= nbuf && k != b ==> buf[k] == old(buf[k]))
            && if exists k :: 0 <= k < nbuf && Holds(old(buf[k]), dev, blockno)
               then Holds(old(buf[b]), dev, blockno) && !old(buf[b]).busy && buf[b] == old(buf[b]).(busy := true)
               else
                 && Recyclable(old(buf[b]))
                 && (forall k :: 0 <= k < nbuf && Recyclable(old(buf[k])) ==> released[b] <= released[k])
                 && buf[b] == old(buf[b]).(dev := dev, blockno := blockno, busy := true, valid := false)
          case Sleep(b) => b < nbuf && Holds(buf[b], dev, blockno) && buf[b].busy && buf[..] == old(buf[..])
          case NoBuffers =>
            && (forall k :: 0 <= k < nbuf ==> !Holds(buf[k], dev, blockno) && !Recyclable(buf[k]))
            && buf[..] == old(buf[..])
        }
    {
      var b := Find(dev, blockno);
      if b != nbuf {
        if buf[b].busy {
          return Sleep(b);
        }
        buf[b] := buf[b].(busy := true);
        SameLinks(old(buf[..]), buf[..], nbuf, order);
        return Got(b);
      }
      b := FindVictim();
      if b == nbuf {
        return NoBuffers;
      }
      buf[b] := buf[b].(dev := dev, blockno := blockno, busy := true, valid := false, dirty := false);
      SameLinks(old(buf[..]), buf[..], nbuf, order);
      return Got(b);
    }

    /** iderw of a buffer that is not valid. */
    method ReadDisk(b: nat, data: Block)
      requires Valid() && b < nbuf && buf[b].busy
      modifies buf
      ensures Valid() && buf[..] == old(buf[..])[b := old(buf[b]).(data := data, valid := true)]
    {
      buf[b] := buf[b].(data := data, valid := true);
      SameLinks(old(buf[..]), buf[..], nbuf, order);
    }

    /** bread, with the disk of ROOTDEV: to the log it is a read that returns the
        cached contents or else those on disk, and recycles only clean idle buffers. */
    method Bread(blockno: nat, disk: seq<Block>) returns (r: Outcome)
      requires Valid() && OneDisk(disk) && blockno < |disk|
      modifies buf, this`cache
      ensures Valid() && OneDisk(disk)
      ensures r.Got? ==> r.buf < nbuf && Holds(buf[r.buf], ROOTDEV, blockno) && buf[r.buf].busy
      ensures r.Got? ==> P.Breads(old(cache), disk, {blockno}, cache)
      ensures r.Got? ==> !old(buf[r.buf]).busy && forall k :: 0 <= k < nbuf && k != r.buf ==> buf[k] == old(buf[k])
      ensures !r.Got? ==> buf[..] == old(buf[..]) && cache == old(cache)
      ensures r.Got? <==> !Blocked(old(buf[..]), nbuf, blockno)
    {
      ghost var was := buf[..];
      r := Bget(ROOTDEV, blockno);
      if r.Got? {
        assert InUse(was, nbuf, blockno) <==> exists k :: 0 <= k < nbuf && Holds(old(buf[k]), ROOTDEV, blockno);
        NotBlocked(was, nbuf, r.buf, blockno);
        Fill(r.buf, blockno, disk, was);
      } else if r.Sleep? {
        assert Holds(was[r.buf], ROOTDEV, blockno) && was[r.buf].busy;
      }
    }

    /** The contents of a buffer that bget has handed out: its own if valid, else the disk's. */
    method Fill(b: nat, blockno: nat, disk: seq<Block>, ghost was: seq<Buf>)
      requires Valid() && b < nbuf && buf[b].busy && |was| == nbuf + 1 && blockno < |disk|
      requires OneEach(was, nbuf) && Filled(was, nbuf, disk) && Shows(was, nbuf, cache)
      requires forall k :: 0 <= k <= nbuf && k != b ==> buf[k] == was[k]
      requires if InUse(was, nbuf, blockno) then Holds(was[b], ROOTDEV, blockno) && !was[b].busy &&
        buf[b] == was[b].(busy := true)
               else Recyclable(was[b]) && buf[b] == was[b].(dev := ROOTDEV, blockno := blockno, busy := true,
                 valid := false)
      modifies buf, this`cache
      ensures Valid() && OneDisk(disk) && Holds(buf[b], ROOTDEV, blockno) && buf[b].busy
      ensures P.Breads(old(cache), disk, {blockno}, cache)
      ensures forall k :: 0 <= k < nbuf && k != b ==> buf[k] == was[k]
    {
      if !buf[b].valid {
        ReadDisk(b, disk[blockno]);
      }
      cache := ReadInto(was, buf[..], nbuf, b, blockno, disk, cache);
    }

    /** New contents or a new pin for a buffer that is held. */
    method PutIn(b: nat, f: Buf, ghost disk: seq<Block>)
      requires Valid() && OneDisk(disk) && b < nbuf && buf[b].busy && f == buf[b].(data := f.data, dirty := f.dirty)
      modifies buf, this`cache
      ensures Valid() && OneDisk(disk) && buf[..] == old(buf[..])[b := f] && buf[b] == f
      ensures cache == PutBuf(f, old(cache)) && f.blockno < |disk|
      ensures f.data == old(buf[b]).data ==> cache.data == old(cache).data
      ensures f.dirty == old(buf[b]).dirty ==> cache.dirty == old(cache).dirty
    {
      PutShows(buf[..], nbuf, b, f, disk, cache);
      SameData(buf[..], nbuf, b, cache);
      buf[b] := f;
      cache := PutBuf(f, cache);
      SameLinks(old(buf[..]), buf[..], nbuf, order);
    }

    /** A change of the contents of a buffer that is held. */
    method SetData(b: nat, data: Block, ghost disk: seq<Block>)
      requires Valid() && OneDisk(disk) && b < nbuf && buf[b].busy
      modifies buf, this`cache
      ensures Valid() && OneDisk(disk) && buf[..] == old(buf[..])[b := buf[b]] && buf[b] == old(buf[b]).(data := data)
      ensures cache == old(cache).(data := old(cache).data[buf[b].blockno := data])
      ensures SameHolds(old(buf[..]), buf[..])
    {
      PutIn(b, buf[b].(data := data), disk);
    }

    /** The end of log_write: the buffer is pinned by B_DIRTY until bwrite. */
    method Pin(b: nat, ghost disk: seq<Block>)
      requires Valid() && OneDisk(disk) && b < nbuf && buf[b].busy
      modifies buf, this`cache
      ensures Valid() && OneDisk(disk) && buf[..] == old(buf[..])[b := buf[b]] && buf[b] == old(buf[b]).(dirty := true)
      ensures cache == old(cache).(dirty := old(cache).dirty + {buf[b].blockno})
    {
      PutIn(b, buf[b].(dirty := true), disk);
    }

    /** bwrite, through to the disk: the block holds the buffer's contents and the buffer is
        no longer pinned. */
    method Bwrite(b: nat, disk: seq<Block>) returns (disk': seq<Block>)
      requires Valid() && OneDisk(disk) && b < nbuf && buf[b].busy
      modifies buf, this`cache
      ensures Valid() && OneDisk(disk') && buf[..] == old(buf[..])[b := buf[b]] &&
        buf[b] == old(buf[b]).(dirty := false)
      ensures buf[b].blockno < |disk| && disk' == disk[buf[b].blockno := buf[b].data]
      ensures cache == old(cache).(dirty := old(cache).dirty - {buf[b].blockno})
      ensures SameHolds(old(buf[..]), buf[..])
    {
      PutIn(b, buf[b].(dirty := false), disk);
      disk' := disk[buf[b].blockno := buf[b].data];
    }

    /** Two breads; where the second cannot be done the first buffer stays held. */
    method ReadTwo(x: nat, y: nat, disk: seq<Block>) returns (ok: bool, i: nat, j: nat, ghost mid: seq<Buf>)
      requires Valid() && OneDisk(disk) && x < |disk| && y < |disk| && x != y && Agrees(cache, disk)
      modifies buf, this`cache
      ensures Valid() && OneDisk(disk)
      ensures ok ==> i < nbuf && j < nbuf && i != j
      ensures ok ==> buf[i].busy && Holds(buf[i], ROOTDEV, x) && buf[j].busy && Holds(buf[j], ROOTDEV, y)
      ensures ok ==> P.Breads(old(cache), disk, {x, y}, cache)
      ensures Blocked(old(buf[..]), nbuf, x) ==> !ok && buf[..] == old(buf[..])
      ensures !Blocked(old(buf[..]), nbuf, x) ==>
        HandsOut(old(buf[..]), mid, nbuf, i, x) && (ok <==> !Blocked(mid, nbuf, y))
    {
      mid := buf[..];
      var r := Bread(x, disk);
      if !r.Got? {
        return false, 0, 0, mid;
      }
      i := r.buf;
      ghost var c := cache;
      mid := buf[..];
      HeldCached(buf[..], nbuf, i, cache);
      r := Bread(y, disk);
      if !r.Got? {
        return false, i, 0, mid;
      }
      j := r.buf;
      BreadsTwo(old(cache), c, cache, disk, x, y);
      return true, i, j, mid;
    }

    /** memmove from one buffer to the other, bwrite, and brelse of both: to the log, the store
        of a disk transfer. */
    method CopyBuf(from: nat, to: nat, disk: seq<Block>) returns (disk': seq<Block>)
      requires Valid() && OneDisk(disk) && from < nbuf && to < nbuf && from != to && buf[from].busy && buf[to].busy
      modifies this, buf
      ensures Valid() && OneDisk(disk')
      ensures var x, y := old(buf[from]).blockno, old(buf[to]).blockno;
        && y < |disk| && disk' == disk[y := old(buf[from]).data]
        && cache == P.Store(old(cache), y, old(buf[from]).data, {x, y})
    {
      ghost var x, y := buf[from].blockno, buf[to].blockno;
      disk' := WriteOut(to, buf[from].data, disk);
      StoredAndFreed(old(cache), cache, x, y, old(buf[from]).data);
      ReleaseTwo(from, to, disk');
    }

    /** New contents for a held buffer, and bwrite. */
    method WriteOut(b: nat, data: Block, disk: seq<Block>) returns (disk': seq<Block>)
      requires Valid() && OneDisk(disk) && b < nbuf && buf[b].busy
      modifies buf, this`cache
      ensures Valid() && OneDisk(disk') && SameHolds(old(buf[..]), buf[..])
      ensures buf[b].blockno < |disk| && disk' == disk[buf[b].blockno := data]
      ensures cache == P.Store(old(cache), buf[b].blockno, data, {})
    {
      ghost var was, c, x := buf[..], cache, buf[b].blockno;
      SetData(b, data, disk);
      ghost var mid := buf[..];
      disk' := Bwrite(b, disk);
      SameHoldsMore(was, mid, buf[..]);
      StoredOnly(c, cache, x, data);
    }

    /** brelse of two buffers. */
    method ReleaseTwo(a: nat, b: nat, ghost disk: seq<Block>)
      requires Valid() && OneDisk(disk) && a < nbuf && b < nbuf && a != b && buf[a].busy && buf[b].busy
      modifies this, buf
      ensures Valid() && OneDisk(disk)
      ensures cache == old(cache).(busy := old(cache).busy - {old(buf[a]).blockno} - {old(buf[b]).blockno})
    {
      ghost var was := buf[..];
      HeldOnRoot(was, nbuf, a, disk);
      HeldOnRoot(was, nbuf, b, disk);
      Brelse(a);
      StillFilled(was, buf[..], nbuf, a, disk);
      ghost var mid := buf[..];
      Brelse(b);
      StillFilled(mid, buf[..], nbuf, b, disk);
    }

    /** One turn of write_log, or of install_trans: block `from` is copied to block `to` through
        the cache.  Where its buffers can be had it is a disk transfer of the log. */
    method CopyBlock(from: nat, to: nat, toFirst: bool, disk: seq<Block>)
      returns (ok: bool, disk': seq<Block>, ghost mid: seq<Buf>, ghost i: nat)
      requires Valid() && OneDisk(disk) && from < |disk| && to < |disk| && from != to && Agrees(cache, disk)
      modifies this, buf
      ensures ok ==> Valid() && OneDisk(disk')
      ensures ok ==> Copies(old(cache), disk, from, to, cache, disk')
      ensures Blocked(old(buf[..]), nbuf, if toFirst then to else from) ==> !ok && buf[..] == old(buf[..])
      ensures !Blocked(old(buf[..]), nbuf, if toFirst then to else from) ==>
        HandsOut(old(buf[..]), mid, nbuf, i, if toFirst then to else from) &&
        (ok <==> !Blocked(mid, nbuf, if toFirst then from else to))
    {
      var bf, bt;
      if toFirst {
        ok, bt, bf, mid := ReadTwo(to, from, disk);
        i := bt;
        assert {to, from} == {from, to};
      } else {
        ok, bf, bt, mid := ReadTwo(from, to, disk);
        i := bf;
      }
      disk' := disk;
      if !ok {
        return;
      }
      ghost var c := cache;
      HeldCached(buf[..], nbuf, bf, c);
      disk' := CopyBuf(bf, bt, disk);
      assert CopiesBy(old(cache), disk, from, to, cache, disk', c);
    }

    /** brelse: the buffer becomes idle and moves to the front of the list. */
    method Brelse(b: nat)
      requires Valid() && b < nbuf && buf[b].busy
      modifies this, buf
      ensures Valid()
      ensures SameBufs(old(buf[..])[b := old(buf[b]).(busy := false)], buf[..])
      ensures exists p :: 0 <= p < nbuf && old(order)[p] == b && order == [b] + Without(old(order), p)
      ensures clock == old(clock) + 1 && released == old(released)[b := clock]
      ensures cache == if old(buf[b]).dev == ROOTDEV then old(cache).(busy := old(cache).busy - {old(buf[b]).blockno})
        else old(cache)
      ensures old(Shows(buf[..], nbuf, cache)) ==> Shows(buf[..], nbuf, cache)
    {
      ghost var was, c, f := buf[..], cache, buf[b];
      MoveToFront(b);
      cache := if f.dev == ROOTDEV then cache.(busy := cache.busy - {f.blockno}) else cache;
      if Shows(was, nbuf, c) {
        IdleShows(was, buf[..], nbuf, b, c);
      }
    }

    method MoveToFront(b: nat)
      requires Valid() && b < nbuf && buf[b].busy
      modifies this`order, this`released, this`clock, buf
      ensures Valid()
      ensures SameBufs(old(buf[..])[b := old(buf[b]).(busy := false)], buf[..])
      ensures exists p :: 0 <= p < nbuf && old(order)[p] == b && order == [b] + Without(old(order), p)
      ensures clock == old(clock) + 1 && released == old(released)[b := clock]
    {
      assert b in order;
      ghost var p :| 0 <= p < nbuf && order[p] == b;
      ghost var was := order;
      Unchain(b, p);
      ghost var mid := buf[..];
      Enchain(b);
      assert order == [was[p]] + Without(was, p);
      SameBufsMore(old(buf[..]), mid, buf[..]);
      Idle(b, old(buf[..]));
      IdleOneEach(old(buf[..]), buf[..], nbuf, b);
      FrontMembers(was, p, nbuf);
      Stamp(was, p);
    }

    /** b->flags &= ~B_BUSY */
    method Idle(b: nat, ghost was: seq<Buf>)
      requires buf.Length == nbuf + 1 && b < nbuf && List(buf[..], nbuf, order) && SameBufs(was, buf[..])
      modifies buf
      ensures List(buf[..], nbuf, order) && SameBufs(was[b := was[b].(busy := false)], buf[..])
    {
      ghost var mid := buf[..];
      buf[b] := buf[b].(busy := false);
      assert buf[..] == mid[b := mid[b].(busy := false)];
      SameLinks(mid, buf[..], nbuf, order);
    }

    /** Note the time at which the buffer now in front was released. */
    ghost method Stamp(was: seq<nat>, p: nat)
      requires p < |was| && ByRelease(was, released, clock) && order == [was[p]] + Without(was, p)
      requires forall i, j :: 0 <= i < j < |was| ==> was[i] != was[j]
      modifies this`released, this`clock
      ensures clock == old(clock) + 1 && released == old(released)[was[p] := clock]
      ensures ByRelease(order, released, clock)
    {
      FrontByRelease(was, p, released, clock);
      clock := clock + 1;
      released := released[was[p] := clock];
    }

    /** The first two assignments of brelse: take the buffer off the list. */
    method Unchain(b: nat, ghost p: nat)
      requires buf.Length == nbuf + 1 && b < nbuf && p < |order| && order[p] == b
      requires List(buf[..], nbuf, order)
      modifies this`order, buf
      ensures order == Without(old(order), p) && List(buf[..], nbuf, order)
      ensures SameBufs(old(buf[..]), buf[..])
    {
      ghost var was := buf[..];
      UnlinkList(was, nbuf, order, p);
      UnlinkSame(was, b);
      buf[buf[b].next] := buf[buf[b].next].(prev := buf[b].prev);
      buf[buf[b].prev] := buf[buf[b].prev].(next := buf[b].next);
      assert buf[..] == Unlink(was, b);
      order := Without(order, p);
    }

    /** The other four: put it at the front. */
    method Enchain(b: nat)
      requires buf.Length == nbuf + 1 && b < nbuf && b !in order
      requires List(buf[..], nbuf, order)
      modifies this`order, buf
      ensures order == [b] + old(order) && List(buf[..], nbuf, order)
      ensures SameBufs(old(buf[..]), buf[..])
    {
      PushFrontList(buf[..], nbuf, order, b);
      buf[b] := buf[b].(next := buf[nbuf].next);
      buf[b] := buf[b].(prev := nbuf);
      buf[buf[nbuf].next] := buf[buf[nbuf].next].(prev := b);
      buf[nbuf] := buf[nbuf].(next := b);
      assert buf[..] == PushFront(old(buf[..]), nbuf, b);
      order := [b] + order;
    }
  }

  // ---- What the log sees of the cache

  // ---- Changes of a buffer in place

  // ---- Disk transfers
}
