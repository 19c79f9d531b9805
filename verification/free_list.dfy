/** The free list of ulib/umalloc.c as a sequence of blocks in address order; addresses
    and sizes count headers.  The first block is the empty block at `base`. */
module FreeList {

  datatype Blk = Blk(a: int, n: int)

  predicate Holds(b: Blk, x: int) {
    b.a <= x < b.a + b.n
  }

  /** In address order, none empty but the first, and no two adjacent. */
  ghost predicate Ordered(bs: seq<Blk>) {
    && |bs| >= 1 && bs[0].n == 0
    && (forall i :: 0 < i < |bs| ==> bs[i].n > 0)
    && (forall i, j :: 0 <= i < j < |bs| ==> bs[i].a + bs[i].n < bs[j].a)
  }

  ghost predicate In(bs: seq<Blk>, x: int) {
    exists i :: 0 <= i < |bs| && Holds(bs[i], x)
  }

  /** Where a freed block goes: after block i and before the next. */
  predicate Gap(bs: seq<Blk>, i: nat, b: Blk) {
    && i < |bs| && b.n > 0 && bs[0].a < b.a
    && bs[i].a + bs[i].n <= b.a && (i + 1 < |bs| ==> b.a + b.n <= bs[i + 1].a)
  }

  /** The list after free: the block joins its neighbours if it touches them. */
  function Insert(bs: seq<Blk>, i: nat, b: Blk): (r: seq<Blk>)
    requires i < |bs|
  {
    var upper := i + 1 < |bs| && b.a + b.n == bs[i + 1].a;
    var lower := bs[i].a + bs[i].n == b.a;
    var merged := if upper then Blk(b.a, b.n + bs[i + 1].n) else b;
    var rest := if upper then bs[i + 2..] else bs[i + 1..];
    if lower then bs[..i] + [Blk(bs[i].a, bs[i].n + merged.n)] + rest
    else bs[..i + 1] + [merged] + rest
  }

  /** Whether the new block touches its upper and its lower neighbour. */
  predicate Upper(bs: seq<Blk>, i: nat, b: Blk) {
    i + 1 < |bs| && b.a + b.n == bs[i + 1].a
  }

  predicate Lower(bs: seq<Blk>, i: nat, b: Blk) {
    i < |bs| && bs[i].a + bs[i].n == b.a
  }

  /** The new list by its blocks: those before `at`, the one at `at`, and the rest moved by `shift`. */
  ghost predicate Inserted(bs: seq<Blk>, i: nat, b: Blk, r: seq<Blk>, at: nat, shift: int) {
    && i < |bs| && at == (if Lower(bs, i, b) then i else i + 1)
    && shift == (if Lower(bs, i, b) then 0 else 1) - (if Upper(bs, i, b) then 1 else 0)
    && |r| == |bs| + shift && at < |r|
    && r[at].a == (if Lower(bs, i, b) then bs[i].a else b.a)
    && r[at].a + r[at].n == (if Upper(bs, i, b) then bs[i + 1].a + bs[i + 1].n else b.a + b.n)
    && (forall k :: 0 <= k < at ==> r[k] == bs[k])
    && (forall k :: at < k < |r| ==> r[k] == bs[k - shift])
  }

  lemma InsertShape(bs: seq<Blk>, i: nat, b: Blk) returns (r: seq<Blk>, at: nat, shift: int)
    requires i < |bs|
    ensures r == Insert(bs, i, b) && Inserted(bs, i, b, r, at, shift)
  {
    r := Insert(bs, i, b);
    at := if Lower(bs, i, b) then i else i + 1;
    shift := |r| - |bs|;
  }

  lemma InsertApart(bs: seq<Blk>, i: nat, b: Blk, r: seq<Blk>, at: nat, shift: int, k: nat, l: nat)
    requires Ordered(bs) && Gap(bs, i, b) && Inserted(bs, i, b, r, at, shift) && k < l < |r|
    ensures r[k].a + r[k].n < r[l].a
  {
    if l < at {
      assert r[k] == bs[k] && r[l] == bs[l];
    } else if l == at {
      assert r[k] == bs[k] && (k == i || bs[k].a + bs[k].n < bs[i].a);
    } else if k > at {
      assert r[k] == bs[k - shift] && r[l] == bs[l - shift];
    } else if k < at {
      assert r[k] == bs[k] && r[l] == bs[l - shift];
    } else {
      assert r[l] == bs[l - shift] && l - shift > i;
    }
  }

  lemma InsertOrdered(bs: seq<Blk>, i: nat, b: Blk)
    requires Ordered(bs) && Gap(bs, i, b)
    ensures Ordered(Insert(bs, i, b)) && Insert(bs, i, b)[0] == bs[0]
  {
    var r, at, shift := InsertShape(bs, i, b);
    forall k, l | 0 <= k < l < |r| ensures r[k].a + r[k].n < r[l].a {
      InsertApart(bs, i, b, r, at, shift, k, l);
    }
  }

  lemma InsertIn(bs: seq<Blk>, i: nat, b: Blk, r: seq<Blk>, at: nat, shift: int, x: int)
    requires Ordered(bs) && Gap(bs, i, b) && Inserted(bs, i, b, r, at, shift)
    ensures In(bs, x) || Holds(b, x) ==> In(r, x)
  {
    if Holds(b, x) {
      assert Holds(r[at], x);
    } else if In(bs, x) {
      var k :| 0 <= k < |bs| && Holds(bs[k], x);
      if k < at {
        assert Holds(r[k], x);
      } else if (Lower(bs, i, b) && k == i) || (Upper(bs, i, b) && k == i + 1) {
        assert Holds(r[at], x);
      } else {
        assert r[k + shift] == bs[k];
      }
    }
  }

  lemma InsertOnly(bs: seq<Blk>, i: nat, b: Blk, r: seq<Blk>, at: nat, shift: int, x: int)
    requires Ordered(bs) && Gap(bs, i, b) && Inserted(bs, i, b, r, at, shift)
    ensures In(r, x) ==> In(bs, x) || Holds(b, x)
  {
    if In(r, x) {
      var k :| 0 <= k < |r| && Holds(r[k], x);
      if k < at {
        assert Holds(bs[k], x);
      } else if k > at {
        assert Holds(bs[k - shift], x);
      } else {
        assert Holds(bs[i], x) || Holds(b, x) || (Upper(bs, i, b) && Holds(bs[i + 1], x));
      }
    }
  }

  lemma InsertUnits(bs: seq<Blk>, i: nat, b: Blk, x: int)
    requires Ordered(bs) && Gap(bs, i, b)
    ensures In(Insert(bs, i, b), x) <==> In(bs, x) || Holds(b, x)
  {
    var r, at, shift := InsertShape(bs, i, b);
    InsertIn(bs, i, b, r, at, shift, x);
    InsertOnly(bs, i, b, r, at, shift, x);
  }

  /** The list after malloc took n units from the tail of block j. */
  function Take(bs: seq<Blk>, j: nat, n: int): (r: seq<Blk>)
    requires j < |bs|
  {
    if bs[j].n == n then bs[..j] + bs[j + 1..] else bs[j := Blk(bs[j].a, bs[j].n - n)]
  }

  /** The units it took. */
  function Taken(bs: seq<Blk>, j: nat, n: int): (b: Blk)
    requires j < |bs|
  {
    Blk(bs[j].a + bs[j].n - n, n)
  }

  lemma TakeOrdered(bs: seq<Blk>, j: nat, n: int)
    requires Ordered(bs) && j < |bs| && 0 < n <= bs[j].n
    ensures Ordered(Take(bs, j, n)) && Take(bs, j, n)[0] == bs[0] && j > 0
  {
  }

  lemma TakeUnits(bs: seq<Blk>, j: nat, n: int, x: int)
    requires Ordered(bs) && j < |bs| && 0 < n <= bs[j].n
    ensures In(Take(bs, j, n), x) <==> In(bs, x) && !Holds(Taken(bs, j, n), x)
    ensures Holds(Taken(bs, j, n), x) ==> In(bs, x)
  {
    var r := Take(bs, j, n);
    if In(bs, x) && !Holds(Taken(bs, j, n), x) {
      var k :| 0 <= k < |bs| && Holds(bs[k], x);
      if bs[j].n == n && k > j {
        assert Holds(r[k - 1], x);
      } else {
        assert Holds(r[k], x);
      }
    }
    if In(r, x) {
      var k :| 0 <= k < |r| && Holds(r[k], x);
      if bs[j].n == n && k >= j {
        assert Holds(bs[k + 1], x);
      } else {
        assert Holds(bs[k], x);
      }
    }
    if Holds(Taken(bs, j, n), x) {
      assert Holds(bs[j], x);
    }
  }
}
