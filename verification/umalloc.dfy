/** malloc and free of ulib/umalloc.c over a memory of headers. */
module Umalloc {
  import opened FreeList

  datatype Header = Header(ptr: int, size: int)

  const HEADER: nat := 16     // sizeof(Header)
  const MINUNITS: nat := 4096

  /** The largest request for which sbrk is asked for as much as morecore needs. */
  const MAXREQUEST: nat := 0x7fff_ffe0

  /** What sbrk, which takes an int, is asked for: the bytes of nu units modulo 2^32, with sign. */
  function SbrkArg(nu: nat): (n: int) {
    var w := nu * HEADER % 0x1_0000_0000;
    if w < 0x8000_0000 then w else w - 0x1_0000_0000
  }

  /** sbrk is asked for all nu units. */
  predicate Whole(nu: nat) {
    SbrkArg(nu) == nu * HEADER
  }

  function Units(nbytes: nat): (n: nat)
    ensures n >= 1 && nbytes <= (n - 1) * HEADER < nbytes + HEADER
  {
    (nbytes + HEADER - 1) / HEADER + 1
  }

  function Most(nunits: nat): (n: nat) {
    if nunits < MINUNITS then MINUNITS else nunits
  }

  lemma WholeRequests(nbytes: nat)
    ensures Whole(Most(Units(nbytes))) <==> nbytes <= MAXREQUEST
  {
    var nu := Most(Units(nbytes));
    assert Whole(nu) <==> nu * HEADER < 0x8000_0000;
  }

  /** A request at which sbrk is asked for nothing, succeeds, and gives nothing. */
  lemma HugeRequest()
    ensures Units(0xffff_fff0) == 0x1000_0000 && SbrkArg(Most(Units(0xffff_fff0))) == 0
  {
  }

  function NextOf(bs: seq<Blk>, i: nat): (a: int)
    requires i < |bs|
  {
    if i + 1 < |bs| then bs[i + 1].a else bs[0].a
  }

  /** The headers in memory form the circular list of the blocks. */
  ghost predicate Linked(mem: map<int, Header>, bs: seq<Blk>) {
    forall i :: 0 <= i < |bs| ==> bs[i].a in mem && mem[bs[i].a] == Header(NextOf(bs, i), bs[i].n)
  }

  ghost predicate InUse(alloc: map<int, int>, x: int) {
    exists a :: a in alloc && a <= x < a + alloc[a]
  }

  /** Allocated blocks have their size in their header, do not overlap each other, and
      with the free blocks make up the memory obtained. */
  ghost predicate Split(mem: map<int, Header>, bs: seq<Blk>, alloc: map<int, int>, core: set<int>, base: int) {
    && (forall a :: a in alloc ==> a in mem && mem[a].size == alloc[a] && alloc[a] > 0 && a > base)
    && (forall a, b :: a in alloc && b in alloc && a < b ==> a + alloc[a] <= b)
    && (forall x :: x in core <==> In(bs, x) || InUse(alloc, x))
    && (forall x :: x in core ==> !In(bs, x) || !InUse(alloc, x))
    && (forall x :: x in core ==> x > base)
  }

  // ---- Finding the place of a freed block

  /** A block outside the free list lies in one gap of it. */
  lemma {:induction false} FindGap(bs: seq<Blk>, b: Blk, m: nat) returns (t: nat)
    requires Ordered(bs) && 1 <= m <= |bs| && b.n > 0 && bs[0].a < b.a
    requires forall x :: Holds(b, x) ==> !In(bs, x)
    requires m < |bs| ==> b.a < bs[m].a
    ensures t < m && bs[t].a < b.a && (t + 1 < |bs| ==> b.a < bs[t + 1].a) && Gap(bs, t, b)
    decreases m
  {
    if m == 1 || bs[m - 1].a < b.a {
      t := m - 1;
      if b.a < bs[t].a + bs[t].n {
        assert Holds(bs[t], b.a) && Holds(b, b.a);
      }
      if t + 1 < |bs| && bs[t + 1].a < b.a + b.n {
        assert Holds(bs[t + 1], bs[t + 1].a) && Holds(b, bs[t + 1].a);
      }
    } else {
      if b.a == bs[m - 1].a {
        assert Holds(bs[m - 1], b.a) && Holds(b, b.a);
      }
      t := FindGap(bs, b, m - 1);
    }
  }

  /** The search of free stops at the gap and nowhere else. */
  lemma StopsAtGap(bs: seq<Blk>, b: Blk, t: nat, i: nat)
    requires Ordered(bs) && bs[0].a < b.a && t < |bs| && bs[t].a < b.a && (t + 1 < |bs| ==> b.a < bs[t + 1].a) &&
      i < |bs|
    ensures var next := NextOf(bs, i);
      (bs[i].a < b.a < next) || (bs[i].a >= next && (b.a > bs[i].a || b.a < next)) <==> i == t
  {
  }

  /** How far the circular search is from t. */
  function Distance(n: nat, i: nat, t: nat): (d: nat)
    requires i < n && t < n
  {
    if i <= t then t - i else t + n - i
  }

  /** The stores of free: join the upper neighbour or point at it, then the lower one likewise. */
  function Stored(mem: map<int, Header>, p: int, b: Blk): (m: map<int, Header>)
    requires p in mem && mem[p].ptr in mem
  {
    var next := mem[p].ptr;
    var hb := if b.a + b.n == next then Header(mem[next].ptr, b.n + mem[next].size) else Header(next, b.n);
    var hp := if p + mem[p].size == b.a then Header(hb.ptr, mem[p].size + hb.size) else Header(b.a, mem[p].size);
    mem[b.a := hb][p := hp]
  }

  lemma HeadStays(bs: seq<Blk>, t: nat, b: Blk, r: seq<Blk>, at: nat, shift: int)
    requires Inserted(bs, t, b, r, at, shift)
    ensures |r| > 0 && r[0].a == bs[0].a
  {
  }

  /** Behind the new block the list is the old one, moved. */
  lemma Moved(bs: seq<Blk>, t: nat, b: Blk, r: seq<Blk>, at: nat, shift: int, k: nat) returns (l: nat)
    requires Ordered(bs) && Gap(bs, t, b) && Inserted(bs, t, b, r, at, shift) && at < k < |r|
    ensures t < l < |bs| && r[k] == bs[l] && NextOf(r, k) == NextOf(bs, l) && bs[l].a > b.a
  {
    l := k - shift;
    assert r[k] == bs[l];
    HeadStays(bs, t, b, r, at, shift);
    if k + 1 < |r| {
      assert r[k + 1] == bs[l + 1];
    }
  }

  lemma StoredAfter(mem: map<int, Header>, bs: seq<Blk>, t: nat, b: Blk, r: seq<Blk>, at: nat, shift: int, k: nat)
    requires Ordered(bs) && Linked(mem, bs) && Gap(bs, t, b) && Inserted(bs, t, b, r, at, shift) && at < k < |r|
    ensures r[k].a in mem && mem[r[k].a] == Header(NextOf(r, k), r[k].n) && r[k].a > b.a
  {
    var l := Moved(bs, t, b, r, at, shift, k);
    assert mem[bs[l].a] == Header(NextOf(bs, l), bs[l].n);
  }

  lemma StoredBefore(mem: map<int, Header>, bs: seq<Blk>, t: nat, b: Blk, r: seq<Blk>, at: nat, shift: int, k: nat)
    requires Ordered(bs) && Linked(mem, bs) && Gap(bs, t, b) && Inserted(bs, t, b, r, at, shift) && k < t
    ensures r[k].a in mem && mem[r[k].a] == Header(NextOf(r, k), r[k].n) && r[k].a < b.a && r[k].a != bs[t].a
  {
    assert r[k] == bs[k] && mem[bs[k].a] == Header(NextOf(bs, k), bs[k].n);
    assert r[k + 1].a == bs[k + 1].a;
  }

  /** What follows the new block in the new list follows the gap in the old. */
  lemma NextAfter(bs: seq<Blk>, t: nat, b: Blk, r: seq<Blk>, at: nat, shift: int)
    requires Ordered(bs) && Gap(bs, t, b) && Inserted(bs, t, b, r, at, shift)
    ensures NextOf(r, at) == if Upper(bs, t, b) then NextOf(bs, t + 1) else NextOf(bs, t)
  {
    assert r[0].a == bs[0].a;
    if at + 1 < |r| {
      assert r[at + 1] == bs[at + 1 - shift];
    }
  }

  lemma StoredElsewhere(mem: map<int, Header>, p: int, b: Blk, x: int)
    requires p in mem && mem[p].ptr in mem && x in mem && x != p && x != b.a
    ensures x in Stored(mem, p, b) && Stored(mem, p, b)[x] == mem[x]
  {
  }

  lemma GapBelow(bs: seq<Blk>, t: nat, b: Blk)
    requires Ordered(bs) && Gap(bs, t, b)
    ensures bs[t].a < b.a
  {
  }

  /** The comparisons of free see the neighbours. */
  lemma JoinsAtEnds(bs: seq<Blk>, t: nat, b: Blk)
    requires Ordered(bs) && Gap(bs, t, b)
    ensures Upper(bs, t, b) <==> b.a + b.n == NextOf(bs, t)
    ensures Upper(bs, t, b) ==> NextOf(bs, t) == bs[t + 1].a != bs[t].a && bs[t + 1].a != b.a
    ensures bs[t].a < b.a
  {
  }

  lemma StoredMiddle(mem: map<int, Header>, bs: seq<Blk>, t: nat, b: Blk, r: seq<Blk>, at: nat, shift: int, k: nat)
    requires Ordered(bs) && Linked(mem, bs) && Gap(bs, t, b) && Inserted(bs, t, b, r, at, shift) && t <= k <= at
    requires NextOf(r, at) == if Upper(bs, t, b) then NextOf(bs, t + 1) else NextOf(bs, t)
    requires mem[bs[t].a].ptr in mem
    ensures r[k].a in Stored(mem, bs[t].a, b) && Stored(mem, bs[t].a, b)[r[k].a] == Header(NextOf(r, k), r[k].n)
  {
    var p, next := bs[t].a, NextOf(bs, t);
    assert mem[p] == Header(next, bs[t].n);
    if Upper(bs, t, b) {
      assert mem[bs[t + 1].a] == Header(NextOf(bs, t + 1), bs[t + 1].n);
    }
    JoinsAtEnds(bs, t, b);
    if Lower(bs, t, b) {
      assert k == t == at;
    } else if k == t {
      assert r[t] == bs[t] && NextOf(r, t) == r[at].a;
    } else {
      assert k == at;
    }
  }

  lemma StoredAt(mem: map<int, Header>, bs: seq<Blk>, t: nat, b: Blk, r: seq<Blk>, at: nat, shift: int, k: nat)
    requires Ordered(bs) && Linked(mem, bs) && Gap(bs, t, b) && Inserted(bs, t, b, r, at, shift) && k < |r|
    requires mem[bs[t].a].ptr in mem
    ensures r[k].a in Stored(mem, bs[t].a, b) && Stored(mem, bs[t].a, b)[r[k].a] == Header(NextOf(r, k), r[k].n)
  {
    GapBelow(bs, t, b);
    if k < t {
      StoredBefore(mem, bs, t, b, r, at, shift, k);
      StoredElsewhere(mem, bs[t].a, b, r[k].a);
    } else if k > at {
      StoredAfter(mem, bs, t, b, r, at, shift, k);
      StoredElsewhere(mem, bs[t].a, b, r[k].a);
    } else {
      NextAfter(bs, t, b, r, at, shift);
      StoredMiddle(mem, bs, t, b, r, at, shift, k);
    }
  }

  lemma StoredLinked(mem: map<int, Header>, bs: seq<Blk>, t: nat, b: Blk)
    requires Ordered(bs) && Linked(mem, bs) && Gap(bs, t, b)
    ensures mem[bs[t].a].ptr in mem && Linked(Stored(mem, bs[t].a, b), Insert(bs, t, b))
  {
    assert mem[bs[t].a] == Header(NextOf(bs, t), bs[t].n);
    assert NextOf(bs, t) == bs[if t + 1 < |bs| then t + 1 else 0].a;
    var m := Stored(mem, bs[t].a, b);
    var r, at, shift := InsertShape(bs, t, b);
    forall k | 0 <= k < |r| ensures r[k].a in m && m[r[k].a] == Header(NextOf(r, k), r[k].n) {
      StoredAt(mem, bs, t, b, r, at, shift, k);
    }
  }

  // ---- free and malloc on the partition

  lemma FreeInUse(alloc: map<int, int>, b: Blk, x: int)
    requires forall a :: a in alloc ==> alloc[a] > 0
    requires forall a, c :: a in alloc && c in alloc && a < c ==> a + alloc[a] <= c
    requires b.a in alloc && alloc[b.a] == b.n
    ensures InUse(alloc - {b.a}, x) <==> InUse(alloc, x) && !Holds(b, x)
  {
    if InUse(alloc, x) && !Holds(b, x) {
      var a :| a in alloc && a <= x < a + alloc[a];
      assert a in alloc - {b.a};
    }
    if InUse(alloc - {b.a}, x) {
      var a :| a in alloc - {b.a} && a <= x < a + alloc[a];
      assert a in alloc;
    }
  }

  /** An allocated block is no part of the free list, and its header is none of the list's. */
  lemma AllocatedApart(mem: map<int, Header>, bs: seq<Blk>, alloc: map<int, int>, core: set<int>, base: int, a: int)
    requires Ordered(bs) && bs[0].a == base && Split(mem, bs, alloc, core, base) && a in alloc
    ensures forall x :: a <= x < a + alloc[a] ==> !In(bs, x)
    ensures forall i :: 0 <= i < |bs| ==> bs[i].a != a
  {
    forall x | a <= x < a + alloc[a] ensures !In(bs, x) {
      assert InUse(alloc, x);
    }
    assert !In(bs, a);
    forall i | 0 <= i < |bs| ensures bs[i].a != a {
      if i > 0 {
        assert Holds(bs[i], bs[i].a);
      }
    }
  }

  lemma FreeSplit(mem: map<int, Header>, bs: seq<Blk>, alloc: map<int, int>, core: set<int>, base: int, t: nat, b: Blk)
    requires Ordered(bs) && Linked(mem, bs) && bs[0].a == base && Split(mem, bs, alloc, core, base)
    requires b.a in alloc && alloc[b.a] == b.n && Gap(bs, t, b)
    ensures mem[bs[t].a].ptr in mem && Split(Stored(mem, bs[t].a, b), Insert(bs, t, b), alloc - {b.a}, core, base)
  {
    StoredLinked(mem, bs, t, b);
    forall a | a in alloc && a != b.a ensures a in Stored(mem, bs[t].a, b) && Stored(mem, bs[t].a, b)[a] == mem[a] {
      AllocatedApart(mem, bs, alloc, core, base, a);
      StoredElsewhere(mem, bs[t].a, b, a);
    }
    forall x ensures In(Insert(bs, t, b), x) <==> In(bs, x) || Holds(b, x) {
      InsertUnits(bs, t, b, x);
    }
    forall x ensures InUse(alloc - {b.a}, x) <==> InUse(alloc, x) && !Holds(b, x) {
      FreeInUse(alloc, b, x);
    }
    forall x | Holds(b, x) ensures InUse(alloc, x) {
    }
  }

  /** The stores of malloc: unlink a block that fits exactly, else cut its tail off. */
  function Carved(mem: map<int, Header>, prevp: int, p: int, n: int): (m: map<int, Header>)
    requires p in mem && prevp in mem
  {
    if mem[p].size == n then mem[prevp := mem[prevp].(ptr := mem[p].ptr)]
    else
      var m1 := mem[p := mem[p].(size := mem[p].size - n)];
      var tail := p + mem[p].size - n;
      m1[tail := Header(if tail in m1 then m1[tail].ptr else 0, n)]
  }

  lemma CarvedLinked(mem: map<int, Header>, bs: seq<Blk>, j: nat, n: int)
    requires Ordered(bs) && Linked(mem, bs) && 0 < j < |bs| && 0 < n <= bs[j].n
    ensures Linked(Carved(mem, bs[j - 1].a, bs[j].a, n), Take(bs, j, n))
  {
    var m, r := Carved(mem, bs[j - 1].a, bs[j].a, n), Take(bs, j, n);
    assert mem[bs[j].a] == Header(NextOf(bs, j), bs[j].n);
    forall k | 0 <= k < |r| ensures r[k].a in m && m[r[k].a] == Header(NextOf(r, k), r[k].n) {
      var l := if bs[j].n == n && k >= j then k + 1 else k;
      assert r[k].a == bs[l].a && mem[bs[l].a] == Header(NextOf(bs, l), bs[l].n);
      assert r[0].a == bs[0].a;
      if bs[j].n == n {
        assert NextOf(r, k) == if k == j - 1 then NextOf(bs, j) else NextOf(bs, l);
      } else {
        assert NextOf(r, k) == NextOf(bs, k);
        assert bs[l].a != bs[j].a + bs[j].n - n;
      }
    }
  }

  lemma TakeInUse(alloc: map<int, int>, b: Blk, x: int)
    requires b.n > 0 && b.a !in alloc
    ensures InUse(alloc[b.a := b.n], x) <==> InUse(alloc, x) || Holds(b, x)
  {
    var alloc' := alloc[b.a := b.n];
    if InUse(alloc, x) {
      var a :| a in alloc && a <= x < a + alloc[a];
      assert a in alloc' && alloc'[a] == alloc[a];
    }
    if Holds(b, x) {
      assert b.a in alloc' && alloc'[b.a] == b.n;
    }
  }

  lemma TakeHeaders(mem: map<int, Header>, bs: seq<Blk>, alloc: map<int, int>, core: set<int>, base: int, j: nat,
      n: int)
    requires Ordered(bs) && Linked(mem, bs) && bs[0].a == base && Split(mem, bs, alloc, core, base) && 0 < j < |bs| &&
      0 < n <= bs[j].n
    requires Taken(bs, j, n).a !in alloc
    ensures var (m, alloc') := (Carved(mem, bs[j - 1].a, bs[j].a, n), alloc[Taken(bs, j, n).a := n]);
      forall a :: a in alloc' ==> a in m && m[a].size == alloc'[a] && alloc'[a] > 0 && a > base
  {
    var m := Carved(mem, bs[j - 1].a, bs[j].a, n);
    assert mem[bs[j].a] == Header(NextOf(bs, j), bs[j].n);
    forall a | a in alloc ensures a in m && m[a].size == mem[a].size {
      AllocatedApart(mem, bs, alloc, core, base, a);
    }
  }

  lemma TakeApart(mem: map<int, Header>, bs: seq<Blk>, alloc: map<int, int>, core: set<int>, base: int, b: Blk)
    requires Ordered(bs) && bs[0].a == base && Split(mem, bs, alloc, core, base) && b.n > 0 && b.a !in alloc
    requires forall x :: Holds(b, x) ==> In(bs, x)
    ensures var alloc' := alloc[b.a := b.n];
      forall a, c :: a in alloc' && c in alloc' && a < c ==> a + alloc'[a] <= c
  {
    forall a | a in alloc ensures a + alloc[a] <= b.a || b.a + b.n <= a {
      AllocatedApart(mem, bs, alloc, core, base, a);
      assert !(a <= b.a < a + alloc[a]) by {
        assert Holds(b, b.a);
      }
      assert !(b.a <= a < b.a + b.n) by {
        assert a <= a < a + alloc[a];
        assert Holds(b, a) <==> b.a <= a < b.a + b.n;
      }
    }
  }

  lemma TakeSplit(mem: map<int, Header>, bs: seq<Blk>, alloc: map<int, int>, core: set<int>, base: int, j: nat, n: int)
    requires Ordered(bs) && Linked(mem, bs) && bs[0].a == base && Split(mem, bs, alloc, core, base) && 0 < j < |bs| &&
      0 < n <= bs[j].n
    ensures Taken(bs, j, n).a !in alloc
    ensures Split(Carved(mem, bs[j - 1].a, bs[j].a, n), Take(bs, j, n), alloc[Taken(bs, j, n).a := n], core, base)
  {
    var b := Taken(bs, j, n);
    assert Holds(bs[j], b.a);
    assert In(bs, b.a);
    if b.a in alloc {
      AllocatedApart(mem, bs, alloc, core, base, b.a);
    }
    forall x ensures In(Take(bs, j, n), x) <==> In(bs, x) && !Holds(b, x) {
      TakeUnits(bs, j, n, x);
    }
    forall x | Holds(b, x) ensures In(bs, x) {
      TakeUnits(bs, j, n, x);
    }
    forall x ensures InUse(alloc[b.a := n], x) <==> InUse(alloc, x) || Holds(b, x) {
      TakeInUse(alloc, b, x);
    }
    TakeHeaders(mem, bs, alloc, core, base, j, n);
    TakeApart(mem, bs, alloc, core, base, b);
  }

  /** Blocks passed by a search that started after block s and is now at block i. */
  predicate Passed(s: nat, i: nat, k: nat) {
    if s <= i then s < k <= i else k > s || k <= i
  }

  /** Some free block has n units. */
  ghost predicate Fits(bs: seq<Blk>, n: int) {
    exists i :: 0 <= i < |bs| && bs[i].n >= n
  }

  lemma EmptyFits(base: int, n: nat)
    requires n >= 1
    ensures !Fits([], n) && !Fits([Blk(base, 0)], n)
  {
  }

  /** No block the search has passed fits. */
  ghost predicate NonePassed(bs: seq<Blk>, s: nat, i: nat, n: int) {
    forall k :: 0 <= k < |bs| && Passed(s, i, k) ==> bs[k].n < n
  }

  /** The blocks the search has yet to see. */
  function Left(n: nat, s: nat, i: nat): (d: int) {
    if i < s then s - i else n - i + s
  }

  lemma SameBlock(bs: seq<Blk>, s: nat, j: nat)
    requires Ordered(bs) && s < |bs| && j < |bs| && bs[s].a == bs[j].a
    ensures s == j
  {
  }

  lemma AllPassed(bs: seq<Blk>, s: nat, i: nat, n: int)
    requires s < |bs| && i < |bs| && NonePassed(bs, s, i, n) && bs[s].n < n && s == if i + 1 < |bs| then i + 1 else 0
    ensures !Fits(bs, n)
  {
    forall k | 0 <= k < |bs| ensures bs[k].n < n {
      assert k == s || Passed(s, i, k);
    }
  }

  lemma Advance(bs: seq<Blk>, s: nat, i: nat, n: int)
    requires Ordered(bs) && s < |bs| && i < |bs| && NonePassed(bs, s, i, n)
    requires var j := if i + 1 < |bs| then i + 1 else 0; bs[j].n < n && bs[j].a != bs[s].a
    ensures var j := if i + 1 < |bs| then i + 1 else 0;
      NonePassed(bs, s, j, n) && Left(|bs|, s, j) < Left(|bs|, s, i) && Left(|bs|, s, j) >= 0
  {
    var j := if i + 1 < |bs| then i + 1 else 0;
    forall k | 0 <= k < |bs| && Passed(s, j, k) ensures bs[k].n < n {
      assert k == j || Passed(s, i, k);
    }
  }

  /** Where a live block goes, and the list and partition that result. */
  lemma FreePlan(mem: map<int, Header>, bs: seq<Blk>, alloc: map<int, int>, core: set<int>, base: int,
      bp: int) returns (t: nat, r: seq<Blk>)
    requires Ordered(bs) && bs[0].a == base && base in mem && Linked(mem, bs) && Split(mem, bs, alloc, core, base) &&
      bp in alloc
    ensures t < |bs| && bs[0].a < bp && bs[t].a < bp && (t + 1 < |bs| ==> bp < bs[t + 1].a)
    ensures bp in mem && mem[bp].size == alloc[bp] && bs[t].a in mem && mem[bs[t].a].ptr in mem &&
      mem[bs[t].a].ptr != bp
    ensures Ordered(r) && r[0].a == base && Fits(r, alloc[bp]) && (exists i :: 0 <= i < |r| && r[i].a == bs[t].a)
    ensures var m := Stored(mem, bs[t].a, Blk(bp, alloc[bp]));
      base in m && Linked(m, r) && Split(m, r, alloc - {bp}, core, base)
  {
    var b := Blk(bp, alloc[bp]);
    AllocatedApart(mem, bs, alloc, core, base, bp);
    t := FindGap(bs, b, |bs|);
    InsertOrdered(bs, t, b);
    StoredLinked(mem, bs, t, b);
    FreeSplit(mem, bs, alloc, core, base, t, b);
    var at, shift;
    r, at, shift := InsertShape(bs, t, b);
    assert r[if Lower(bs, t, b) then at else at - 1].a == bs[t].a;
    assert r[at].n >= b.n;
    assert mem[bs[t].a] == Header(NextOf(bs, t), bs[t].n);
  }

  lemma FitsLess(bs: seq<Blk>, m: int, n: int)
    requires Fits(bs, m) && n <= m
    ensures Fits(bs, n)
  {
  }

  lemma PutAndDrop(m: map<int, int>, k: int, v: int)
    requires k !in m
    ensures m[k := v] - {k} == m
  {
  }

  lemma NothingFree(base: int)
    ensures forall x :: !In([Blk(base, 0)], x)
  {
  }

  /** The units from a on. */
  function Span(a: int, n: nat): (s: set<int>) {
    set x | a <= x < a + n && Holds(Blk(a, n), x)
  }

  /** sbrk fails with -1, or gives memory above the base block and all it gave before. */
  ghost predicate SbrkOk(reply: int, base: int, core: set<int>) {
    reply == -1 || (reply > base && forall x :: x in core ==> x < reply)
  }

  lemma GrowSplit(mem: map<int, Header>, bs: seq<Blk>, alloc: map<int, int>, core: set<int>, base: int, a: int, n: nat)
    requires Ordered(bs) && bs[0].a == base && Linked(mem, bs) && Split(mem, bs, alloc, core, base) && n > 0
    requires a > base && forall x :: x in core ==> x < a
    ensures a !in alloc
    ensures var m := mem[a := Header(if a in mem then mem[a].ptr else 0, n)];
      Linked(m, bs) && Split(m, bs, alloc[a := n], core + Span(a, n), base)
  {
    forall c | c in alloc ensures c + alloc[c] <= a {
      assert InUse(alloc, c + alloc[c] - 1);
    }
    forall i | 0 <= i < |bs| ensures bs[i].a < a {
      if i > 0 {
        assert Holds(bs[i], bs[i].a);
        assert In(bs, bs[i].a);
      }
    }
    forall x ensures InUse(alloc[a := n], x) <==> InUse(alloc, x) || Holds(Blk(a, n), x) {
      TakeInUse(alloc, Blk(a, n), x);
    }
    forall x ensures x in Span(a, n) <==> Holds(Blk(a, n), x) {
    }
  }

  /** Block i + 1 is cut or taken: it exists, as the base block is empty. */
  lemma TakePlan(mem: map<int, Header>, bs: seq<Blk>, alloc: map<int, int>, core: set<int>, base: int, i: nat, n: nat)
    returns (h: int, r: seq<Blk>, m: map<int, Header>)
    requires Ordered(bs) && bs[0].a == base && base in mem && Linked(mem, bs) && Split(mem, bs, alloc, core, base) &&
      n >= 1
    requires i < |bs| && NextOf(bs, i) in mem && mem[NextOf(bs, i)].size >= n
    ensures i + 1 < |bs| && bs[i].a in mem && bs[i + 1].a in mem && m == Carved(mem, bs[i].a, bs[i + 1].a, n)
    ensures Ordered(r) && r[0].a == base && exists k :: 0 <= k < |r| && r[k].a == bs[i].a
    ensures h > base && h !in alloc && h == bs[i + 1].a + mem[bs[i + 1].a].size - n
    ensures base in m && Linked(m, r) && Split(m, r, alloc[h := n], core, base)
  {
    assert mem[bs[0].a] == Header(NextOf(bs, 0), 0);
    assert i + 1 < |bs|;
    assert mem[bs[i + 1].a] == Header(NextOf(bs, i + 1), bs[i + 1].n);
    TakeOrdered(bs, i + 1, n);
    TakeSplit(mem, bs, alloc, core, base, i + 1, n);
    CarvedLinked(mem, bs, i + 1, n);
    h, r, m := Taken(bs, i + 1, n).a, Take(bs, i + 1, n), Carved(mem, bs[i].a, bs[i + 1].a, n);
    assert r[i].a == bs[i].a;
  }

  class Heap {
    const base: int
    var freep: int                    // 0 until the first malloc
    var mem: map<int, Header>
    ghost var bs: seq<Blk>            // the free list
    ghost var alloc: map<int, int>    // live blocks: header address and size
    ghost var core: set<int>          // all units obtained from sbrk

    constructor (base: int)
      requires base > 0
      ensures this.base == base && Valid() && freep == 0 && alloc == map[] && core == {}
    {
      this.base, freep, mem := base, 0, map[base := Header(0, 0)];
      bs, alloc, core := [], map[], {};
    }

    ghost predicate Valid()
      reads this
    {
      && base > 0 && base in mem
      && if freep == 0 then bs == [] && alloc == map[] && core == {} else Ready()
    }

    /** The free list is circular, in address order and coalesced; free and live blocks
        partition the memory obtained. */
    ghost predicate Ready()
      reads this
    {
      && Ordered(bs) && bs[0].a == base && base > 0 && base in mem && Linked(mem, bs) &&
        Split(mem, bs, alloc, core, base)
      && exists i :: 0 <= i < |bs| && bs[i].a == freep
    }

    /** The search of free: it ends, at the block after which bp belongs. */
    method FindPlace(bp: int, ghost b: Blk, ghost t: nat) returns (p: int)
      requires Ordered(bs) && Linked(mem, bs) && bs[0].a < bp == b.a && t < |bs|
      requires bs[t].a < bp && (t + 1 < |bs| ==> bp < bs[t + 1].a)
      requires exists i :: 0 <= i < |bs| && bs[i].a == freep
      ensures p == bs[t].a
    {
      p := freep;
      ghost var i :| 0 <= i < |bs| && bs[i].a == p;
      StopsAtGap(bs, b, t, i);
      while !(bp > p && bp < mem[p].ptr)
        invariant 0 <= i < |bs| && bs[i].a == p && p in mem && mem[p] == Header(NextOf(bs, i), bs[i].n)
        invariant i == t <==>
          (bs[i].a < bp < NextOf(bs, i)) || (bs[i].a >= NextOf(bs, i) && (bp > bs[i].a || bp < NextOf(bs, i)))
        decreases Distance(|bs|, i, t)
      {
        if p >= mem[p].ptr && (bp > p || bp < mem[p].ptr) {
          break;
        }
        p := mem[p].ptr;
        i := if i + 1 < |bs| then i + 1 else 0;
        StopsAtGap(bs, b, t, i);
      }
    }

    /** The stores of free, once the place is found. */
    method StoreFreed(bp: int, p: int, ghost b: Blk)
      requires bp in mem && mem[bp].size == b.n && b.a == bp && p in mem && mem[p].ptr in mem && p != bp &&
        mem[p].ptr != bp
      modifies this`freep, this`mem
      ensures mem == Stored(old(mem), p, b) && freep == p
    {
      if bp + mem[bp].size == mem[p].ptr {
        mem := mem[bp := Header(mem[mem[p].ptr].ptr, mem[bp].size + mem[mem[p].ptr].size)];
      } else {
        mem := mem[bp := mem[bp].(ptr := mem[p].ptr)];
      }
      if p + mem[p].size == bp {
        mem := mem[p := Header(mem[bp].ptr, mem[p].size + mem[bp].size)];
      } else {
        mem := mem[p := mem[p].(ptr := bp)];
      }
      freep := p;
    }

    /** The first malloc makes the list of the empty base block. */
    method Init()
      requires Valid() && freep == 0
      modifies this`freep, this`mem, this`bs
      ensures Ready() && bs == [Blk(base, 0)]
    {
      mem := mem[base := Header(base, 0)];
      freep := base;
      bs := [Blk(base, 0)];
      NothingFree(base);
      assert bs[0].a == freep;
    }

    /** morecore: asks for at least MINUNITS units and frees them into the list. */
    method Morecore(nunits: nat, reply: int) returns (ok: bool, short: bool)
      requires Ready() && nunits >= 1 && SbrkOk(reply, base, core)
      modifies this`freep, this`mem, this`bs, this`alloc, this`core
      ensures Ready() && alloc == old(alloc)
      ensures ok <==> reply != -1 && Whole(Most(nunits))
      ensures short <==> reply != -1 && !Whole(Most(nunits))
      ensures !ok ==> mem == old(mem) && bs == old(bs) && freep == old(freep) && core == old(core)
      ensures ok ==> core == old(core) + Span(reply, Most(nunits)) && Fits(bs, nunits)
    {
      if reply == -1 {
        return false, false;
      }
      var nu := if nunits < MINUNITS then MINUNITS else nunits;
      if SbrkArg(nu) != nu * HEADER {
        return false, true;
      }
      Extend(reply, nu);
      Free(reply);
      PutAndDrop(old(alloc), reply, nu);
      FitsLess(bs, nu, nunits);
      return true, false;
    }

    /** The new memory starts as one live block. */
    method Extend(a: int, nu: nat)
      requires Ready() && nu > 0 && SbrkOk(a, base, core) && a != -1
      modifies this`mem, this`alloc, this`core
      ensures Ready() && a !in old(alloc) && alloc == old(alloc)[a := nu] && core == old(core) + Span(a, nu)
    {
      GrowSplit(mem, bs, alloc, core, base, a, nu);
      mem := mem[a := Header(if a in mem then mem[a].ptr else 0, nu)];
      alloc, core := alloc[a := nu], core + Span(a, nu);
    }

    /** The stores of malloc. */
    method Carve(prevp: int, p: int, nunits: nat) returns (h: int)
      requires p in mem && prevp in mem && mem[p].size >= nunits >= 1
      modifies this`freep, this`mem
      ensures mem == Carved(old(mem), prevp, p, nunits) && freep == prevp && h == p + old(mem)[p].size - nunits
    {
      h := p;
      if mem[p].size == nunits {
        mem := mem[prevp := mem[prevp].(ptr := mem[p].ptr)];
      } else {
        mem := mem[p := mem[p].(size := mem[p].size - nunits)];
        h := p + mem[p].size;
        mem := mem[h := Header(if h in mem then mem[h].ptr else 0, nunits)];
      }
      freep := prevp;
    }

    /** Takes nunits units from the free block j. */
    method Allocate(prevp: int, p: int, nunits: nat, ghost i: nat) returns (h: int)
      requires Ready() && nunits >= 1 && i < |bs| && bs[i].a == prevp && p == NextOf(bs, i) && p in mem &&
        mem[p].size >= nunits
      modifies this`freep, this`mem, this`bs, this`alloc
      ensures Ready() && h > base && h !in old(alloc) && alloc == old(alloc)[h := nunits]
    {
      ghost var at, r, m := TakePlan(mem, bs, alloc, core, base, i, nunits);
      h := Carve(prevp, p, nunits);
      assert h == at && mem == m;
      bs, alloc := r, alloc[h := nunits];
    }

    /** free of a live block. */
    method Free(bp: int)
      requires Ready() && bp in alloc
      modifies this`freep, this`mem, this`bs, this`alloc
      ensures Ready() && alloc == old(alloc) - {bp}
      ensures Fits(bs, old(alloc)[bp])
    {
      ghost var b := Blk(bp, alloc[bp]);
      ghost var t, r := FreePlan(mem, bs, alloc, core, base, bp);
      var p := FindPlace(bp, b, t);
      StoreFreed(bp, p, b);
      bs, alloc := r, alloc - {bp};
    }

    /** One turn of malloc's search round the list, from the block after freep up to freep. */
    method Search(nunits: nat) returns (found: bool, prevp: int, p: int, ghost i: nat)
      requires Ordered(bs) && Linked(mem, bs) && exists k :: 0 <= k < |bs| && bs[k].a == freep
      ensures found <==> Fits(bs, nunits)
      ensures found ==> i < |bs| && bs[i].a == prevp && p == NextOf(bs, i) && p in mem && mem[p].size >= nunits
    {
      prevp := freep;
      ghost var s :| 0 <= s < |bs| && bs[s].a == freep;
      i := s;
      p := mem[prevp].ptr;
      while true
        invariant 0 <= i < |bs| && bs[i].a == prevp && p == NextOf(bs, i)
        invariant NonePassed(bs, s, i, nunits)
        decreases Left(|bs|, s, i)
      {
        ghost var j := if i + 1 < |bs| then i + 1 else 0;
        assert mem[bs[j].a] == Header(NextOf(bs, j), bs[j].n);
        if mem[p].size >= nunits {
          return true, prevp, p, i;
        }
        if p == freep {
          SameBlock(bs, s, j);
          AllPassed(bs, s, i, nunits);
          return false, prevp, p, i;
        }
        Advance(bs, s, i, nunits);
        prevp, p := p, mem[p].ptr;
        i := j;
      }
    }

    /** A free block that fits, after morecore if there was none: the search then goes round
        again, and cannot fail. */
    method Find(nunits: nat, reply: int) returns (found: bool, short: bool, prevp: int, p: int, ghost i: nat)
      requires Ready() && nunits >= 1 && SbrkOk(reply, base, core)
      modifies this`freep, this`mem, this`bs, this`alloc, this`core
      ensures Ready() && alloc == old(alloc)
      ensures found <==> Fits(old(bs), nunits) || (reply != -1 && Whole(Most(nunits)))
      ensures short <==> !Fits(old(bs), nunits) && reply != -1 && !Whole(Most(nunits))
      ensures core == if Fits(old(bs), nunits) || !found then old(core) else old(core) + Span(reply, Most(nunits))
      ensures found ==> i < |bs| && bs[i].a == prevp && p == NextOf(bs, i) && p in mem && mem[p].size >= nunits
    {
      found, prevp, p, i := Search(nunits);
      short := false;
      if !found {
        var ok;
        ok, short := Morecore(nunits, reply);
        if ok {
          found, prevp, p, i := Search(nunits);
        }
      }
    }

    /** malloc: takes the units from the free list, asking for more memory exactly when no
        free block fits; the result points behind the header h. */
    method Malloc(nbytes: nat, reply: int) returns (ap: int, h: int, short: bool)
      requires Valid() && SbrkOk(reply, base, core)
      modifies this`freep, this`mem, this`bs, this`alloc, this`core
      ensures Valid()
      ensures short <==> !Fits(old(bs), Units(nbytes)) && reply != -1 && nbytes > MAXREQUEST
      ensures ap == 0 <==> !Fits(old(bs), Units(nbytes)) && (reply == -1 || short)
      ensures ap == 0 ==> alloc == old(alloc) && core == old(core)
      ensures ap != 0 ==> ap == h + 1 && h > base && h !in old(alloc) && alloc == old(alloc)[h := Units(nbytes)]
      ensures ap != 0 ==>
        core == if Fits(old(bs), Units(nbytes)) then old(core) else old(core) + Span(reply, Most(Units(nbytes)))
    {
      var nunits := Units(nbytes);
      if freep == 0 {
        Init();
        EmptyFits(base, nunits);
      }
      WholeRequests(nbytes);
      var found, prevp, p; ghost var i;
      found, short, prevp, p, i := Find(nunits, reply);
      if !found {
        return 0, 0, short;
      }
      h := Allocate(prevp, p, nunits, i);
      ap := h + 1;
    }
  }

  /** Where sbrk gave fewer than nu units, a block of nu units at a is not part of the memory
      obtained, so the free list that morecore would put it into cannot be right. */
  lemma ShortBreaks(mem: map<int, Header>, bs: seq<Blk>, alloc: map<int, int>, core: set<int>, core': set<int>,
      base: int, a: int, nu: nat)
    requires nu >= 1 && !Whole(nu) && (forall x :: x in core ==> x < a) && a in alloc && alloc[a] == nu
    requires forall x :: x in core' ==> x in core || a <= x < a + SbrkArg(nu) / HEADER
    ensures !Split(mem, bs, alloc, core', base)
  {
    assert SbrkArg(nu) / HEADER < nu;
    assert InUse(alloc, a + nu - 1);
  }
}
