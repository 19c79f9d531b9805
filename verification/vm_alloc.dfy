/** allocuvm (kernel/vm.c), which does not look at what mappages returns. */
module VmAlloc {
  import opened PageMap
  import opened Vm

  const USER_FLAGS: nat := 7      // PTE_P | PTE_W | PTE_U

  predicate Zeroed(d: Data) {
    |d| == PGSIZE && forall i :: 0 <= i < PGSIZE ==> d[i] == 0
  }

  function ZeroPage(): (d: Data)
    ensures Zeroed(d)
  {
    seq(PGSIZE, _ => 0)
  }

  // ---- Frames

  /** The frames that mapping the pages lo .. hi - 1 takes, where there are page tables ts. */
  function FramesFrom(ts: set<nat>, lo: nat, hi: nat): (k: nat)
    decreases hi - lo
  {
    if lo >= hi then 0
    else (if lo / NPTENTRIES in ts then 1 else 2) + FramesFrom(ts + {lo / NPTENTRIES}, lo + 1, hi)
  }

  /** Whether the last of these pages is the first in its page table. */
  predicate LastNeeds(ts: set<nat>, lo: nat, hi: nat) {
    lo < hi && (hi - 1) / NPTENTRIES !in ts && (hi - 1 == lo || (hi - 1) % NPTENTRIES == 0)
  }

  lemma LastNext(ts: set<nat>, lo: nat, hi: nat)
    requires lo + 1 < hi
    ensures LastNeeds(ts, lo, hi) <==> LastNeeds(ts + {lo / NPTENTRIES}, lo + 1, hi)
  {
    var t, l := lo / NPTENTRIES, (hi - 1) / NPTENTRIES;
    assert t * NPTENTRIES <= lo < (t + 1) * NPTENTRIES && l * NPTENTRIES <= hi - 1 < (l + 1) * NPTENTRIES;
    if (hi - 1) % NPTENTRIES == 0 {
      assert hi - 1 == l * NPTENTRIES && t < l;
    }
  }

  /** Of `room` frames, `left` are left after the pages lo .. a - 1. */
  ghost predicate Budget(room: nat, left: nat, ts0: set<nat>, ts: set<nat>, lo: nat, a: nat, hi: nat) {
    && room + FramesFrom(ts, a, hi) == left + FramesFrom(ts0, lo, hi)
    && (a < hi ==> (LastNeeds(ts0, lo, hi) <==> LastNeeds(ts, a, hi)))
  }

  /** One frame too few, and it is the page table of the last page that is missing. */
  predicate Short(room: nat, ts: set<nat>, lo: nat, hi: nat) {
    room + 1 == FramesFrom(ts, lo, hi) && LastNeeds(ts, lo, hi)
  }

  lemma BudgetNext(room: nat, left: nat, ts0: set<nat>, ts: set<nat>, lo: nat, a: nat, hi: nat)
    requires Budget(room, left, ts0, ts, lo, a, hi) && a < hi
    ensures var k := if a / NPTENTRIES in ts then 1 else 2;
      && (left >= k ==> Budget(room, left - k, ts0, ts + {a / NPTENTRIES}, lo, a + 1, hi))
      && (left == 0 ==> room < FramesFrom(ts0, lo, hi) && !Short(room, ts0, lo, hi))
      && (left == 1 && k == 2 ==> room < FramesFrom(ts0, lo, hi) && (Short(room, ts0, lo, hi) <==> a + 1 == hi))
  {
    if a + 1 < hi {
      LastNext(ts, a, hi);
    }
    assert FramesFrom(ts + {a / NPTENTRIES}, a + 1, hi) == 0 <==> a + 1 == hi;
  }

  lemma FramesStep(lo: nat)
    requires lo < NPAGES
    ensures FramesFor(lo + 1) == FramesFor(lo) + if lo / NPTENTRIES in Below(lo) then 1 else 2
  {
    var t := lo / NPTENTRIES;
    assert t * NPTENTRIES <= lo < (t + 1) * NPTENTRIES;
  }

  lemma {:induction false} FramesFromBelow(lo: nat, hi: nat)
    requires lo <= hi <= NPAGES
    ensures FramesFrom(Below(lo), lo, hi) == FramesFor(hi) - FramesFor(lo)
    decreases hi - lo
  {
    if lo < hi {
      var t := lo / NPTENTRIES;
      assert t * NPTENTRIES <= lo < (t + 1) * NPTENTRIES;
      forall u: nat ensures u in Below(lo + 1) <==> u in Below(lo) || u == t {
      }
      assert Below(lo + 1) == Below(lo) + {t};
      FramesFromBelow(lo + 1, hi);
      FramesStep(lo);
    }
  }

  /** A space that has only grown has page tables for just its pages: each new page takes a frame,
      and each page table that is begun one more. */
  lemma FramesToGrow(lo: nat, hi: nat)
    requires lo <= hi <= NPAGES
    ensures FramesFrom(Below(lo), lo, hi) ==
      hi - lo + (hi + NPTENTRIES - 1) / NPTENTRIES - (lo + NPTENTRIES - 1) / NPTENTRIES
    ensures LastNeeds(Below(lo), lo, hi) <==> lo < hi && (hi - 1) % NPTENTRIES == 0
  {
    FramesFromBelow(lo, hi);
    FramesForPages(lo);
    FramesForPages(hi);
    if lo < hi {
      var t := (hi - 1) / NPTENTRIES;
      assert t * NPTENTRIES <= hi - 1 < (t + 1) * NPTENTRIES;
    }
  }

  // ---- Pages

  /** Page pn of s is a page of zeroes in a frame that was free. */
  ghost predicate Fresh(was: Was, now: Was, s: nat, pn: nat) {
    var e := Lookup(now.tables, s, pn);
    e.Pte? && e.flags == USER_FLAGS && e.frame in was.free && e.frame in now.data && Zeroed(now.data[e.frame])
  }

  /** The pages lo .. m - 1 of s are fresh; nothing else has changed. */
  ghost predicate Allocated(was: Was, now: Was, s: nat, lo: nat, m: nat) {
    && SameDirs(was.uses, now.uses) && SubPool(was.free, now.free) && KeepsUses(was.uses, now.uses) &&
      KeepsData(was.data, now.data, was.free)
    && (forall s': nat, pn: nat :: IsDir(was.uses, s') && !(s' == s && lo <= pn < m) ==>
      Lookup(now.tables, s', pn) == Lookup(was.tables, s', pn))
    && (forall pn: nat :: lo <= pn < m ==> Fresh(was, now, s, pn))
  }

  /** Frames that were free are still free or in use by s, but for `lost`, which is nowhere. */
  ghost predicate Kept(free: seq<nat>, now: Was, s: nat, lost: nat) {
    Accounted(free, now.free, now.uses, s, lost) && lost !in now.uses && lost !in now.free
  }

  /** The frame that a failing mappages leaves behind is the last free one. */
  ghost predicate LostLast(free: seq<nat>, lost: nat) {
    lost == 0 || (free != [] && lost == free[|free| - 1])
  }

  lemma KeptMore(free: seq<nat>, mid: Was, now: Was, s: nat, lost: nat, lost': nat)
    requires Kept(free, mid, s, lost) && Kept(mid.free, now, s, lost') && KeepsUses(mid.uses, now.uses) &&
      SubPool(free, mid.free)
    requires 0 !in free && LostLast(free, lost) && (lost == 0 || lost' == 0) && (lost' != 0 ==> mid.free == [lost'])
    requires lost != 0 ==> mid.free == [] && now.uses == mid.uses && now.free == []
    ensures Kept(free, now, s, if lost != 0 then lost else lost') && LostLast(free, if lost != 0 then lost else lost')
  {
    if lost == 0 {
      AccountedMore(free, mid.free, now.free, mid.uses, now.uses, s, lost');
    }
  }

  /** What one turn of allocuvm did. */
  ghost predicate PageTurn(mid: Was, now: Was, s: nat, a: nat, mapped: bool) {
    && SameDirs(mid.uses, now.uses) && SubPool(mid.free, now.free) && KeepsUses(mid.uses, now.uses) &&
      KeepsData(mid.data, now.data, mid.free)
    && SameBut(mid.tables, now.tables, mid.uses, s, a)
    && (if mapped then Fresh(mid, now, s, a) else Lookup(now.tables, s, a) == Lookup(mid.tables, s, a))
  }

  lemma AllocatedMore(was: Was, mid: Was, now: Was, s: nat, lo: nat, m: nat, a: nat, mapped: bool)
    requires Allocated(was, mid, s, lo, m) && PageTurn(mid, now, s, a, mapped) && IsDir(was.uses, s) && lo <= m &&
      (mapped ==> a == m)
    requires Wf(mid.tables, mid.uses) && Pool(mid.free, mid.uses)
    ensures Allocated(was, now, s, lo, if mapped then m + 1 else m)
  {
    SubPoolMore(was.free, mid.free, now.free);
    var m' := if mapped then m + 1 else m;
    forall pn: nat | lo <= pn < m' ensures Fresh(was, now, s, pn) {
      if pn < m {
        assert Fresh(was, mid, s, pn);
        LookupIn(mid.tables, mid.uses, s, pn);
      }
    }
    forall s': nat, pn: nat | IsDir(was.uses, s') && !(s' == s && lo <= pn < m')
      ensures Lookup(now.tables, s', pn) == Lookup(was.tables, s', pn) {
      assert IsDir(mid.uses, s');
    }
  }

  // ---- The code

  /** kalloc and memset */
  method ZeroFrame(mem: Memory) returns (f: nat)
    requires mem.Valid()
    modifies mem`free, mem`data
    ensures mem.Valid() && SubPool(old(mem.free), mem.free) && KeepsData(old(mem.data), mem.data, old(mem.free))
    ensures f == 0 <==> old(mem.free) == []
    ensures f == 0 ==> mem.data == old(mem.data)
    ensures f != 0 ==> |mem.free| == |old(mem.free)| - 1
    ensures f != 0 ==>
      old(mem.free)[0] == f && Unused(mem.free, mem.uses, f) && f in mem.data && Zeroed(mem.data[f])
  {
    f := mem.Kalloc();
    if f != 0 {
      TookHead(old(mem.free), mem.uses);
      mem.data := mem.data[f := ZeroPage()];
    }
  }

  /** One turn of allocuvm: `got` unless kalloc fails, `mapped` unless mappages does. */
  method AllocPage(mem: Memory, s: nat, a: nat) returns (got: bool, mapped: bool, ghost lost: nat)
    requires mem.Valid() && IsDir(mem.uses, s) && a < NPAGES && Lookup(mem.tables, s, a) == None
    modifies mem
    ensures mem.Valid() && PageTurn(old(mem.Now()), mem.Now(), s, a, mapped)
    ensures got <==> old(mem.free) != []
    ensures !got ==> mem.Now() == old(mem.Now())
    ensures mapped <==> |old(mem.free)| >= Takes(old(mem.tables), s, a)
    ensures mapped ==>
      |mem.free| == |old(mem.free)| - Takes(old(mem.tables), s, a) && NewTables(old(mem.tables), mem.tables, s, a, true)
    ensures !mapped ==> mem.free == [] && TablesOf(mem.tables, s) == TablesOf(old(mem.tables), s)
    ensures Kept(old(mem.free), mem.Now(), s, lost) && lost == if got && !mapped then old(mem.free)[0] else 0
  {
    ghost var free0, left, takes := mem.free, |mem.free|, Takes(mem.tables, s, a);
    var f := ZeroFrame(mem);
    if f == 0 {
      assert left == 0;
      return false, false, 0;
    }
    ghost var free1 := mem.free;
    assert |free1| == left - 1;
    var r := mem.MapPage(s, a, f, USER_FLAGS);
    SubPoolMore(free0, free1, mem.free);
    HeadAccounted(free0, free1, mem.free, mem.uses, s, f, r == Mapped);
    if r != Mapped {
      assert left == 1 && takes == 2;
      return true, false, f;
    }
    assert |mem.free| == left - takes && left >= takes;
    return true, true, 0;
  }

  /** The user part of the directory ends at 0x3fc00000. */
  lemma UserEnd(newsz: nat)
    ensures PagesOf(newsz) > NPAGES <==> newsz > 0x3fc00000
  {
  }

  lemma OneExtent(tables: Tables, s: nat, m: nat, n: nat)
    requires Contiguous(tables, s, m)
    ensures Contiguous(tables, s, n) <==> m == n
  {
    assert Lookup(tables, s, m) == None && (n < m ==> Lookup(tables, s, n).Pte?);
  }

  /** Frames that were free are free again, but for new page tables and for `lost`. */
  ghost predicate GivenBack(free: seq<nat>, now: Was, lost: nat) {
    forall f :: f in free ==> f in now.free || (f in now.uses && now.uses[f].Table?) || f == lost
  }

  /** The frames of the new pages are in use as pages. */
  lemma FreshFrame(was: Was, mid: Was, s: nat, lo: nat, m: nat, f: nat)
    requires Allocated(was, mid, s, lo, m) && Wf(mid.tables, mid.uses) && IsDir(mid.uses, s) &&
      f in Frames(mid.tables, s, lo, m)
    ensures f in mid.uses && mid.uses[f].Page?
  {
    var pn := FrameFrom(mid.tables, s, lo, m, f);
    assert Fresh(was, mid, s, pn);
    LookupIn(mid.tables, mid.uses, s, pn);
  }

  /** A frame that came into use by s is a page table or that of a new page. */
  lemma FrameBack(was: Was, mid: Was, s: nat, lo: nat, m: nat, f: nat)
    requires Allocated(was, mid, s, lo, m) && Pool(was.free, was.uses) && Wf(mid.tables, mid.uses) &&
      Wf(was.tables, was.uses)
    requires IsDir(was.uses, s) && f in was.free && OfSpace(mid.uses, f, s)
    ensures mid.uses[f].Table? || f in Frames(mid.tables, s, lo, m)
  {
    if mid.uses[f].Page? {
      var pn := mid.uses[f].pn;
      assert UseOk(mid.tables, mid.uses, f, mid.uses[f]);
      if lo <= pn < m {
        FrameListed(mid.tables, s, lo, m, pn);
      } else {
        LookupIn(was.tables, was.uses, s, pn);
      }
    }
  }

  lemma FramesBack(was: Was, mid: Was, now: Was, s: nat, lo: nat, m: nat, lost: nat)
    requires Allocated(was, mid, s, lo, m) && Kept(was.free, mid, s, lost) && Pool(was.free, was.uses) &&
      Wf(mid.tables, mid.uses) && Wf(was.tables, was.uses)
    requires IsDir(was.uses, s) && Freed(mid, now, s, lo, m) && lo <= m
    ensures Kept(was.free, now, s, lost) && GivenBack(was.free, now, lost)
  {
    var fs := Frames(mid.tables, s, lo, m);
    forall f | f in was.free && f != lost && f !in mid.free
      ensures f in now.free || (f in now.uses && now.uses[f] == mid.uses[f] && mid.uses[f].Table?) {
      FrameBack(was, mid, s, lo, m, f);
      if f in fs {
        FreshFrame(was, mid, s, lo, m, f);
      }
    }
    forall f | f in fs ensures f in mid.uses {
      FreshFrame(was, mid, s, lo, m, f);
    }
  }

  lemma StillContiguous(was: Was, now: Was, s: nat, lo: nat, m: nat)
    requires Allocated(was, now, s, lo, m) && IsDir(was.uses, s) && Contiguous(was.tables, s, lo) && lo <= m
    ensures Contiguous(now.tables, s, m)
  {
    forall pn: nat ensures Lookup(now.tables, s, pn).Pte? <==> pn < m {
      assert lo <= pn < m ==> Fresh(was, now, s, pn);
    }
  }

  lemma Restored(was: Was, mid: Was, tables: Tables, s: nat, lo: nat, m: nat)
    requires Allocated(was, mid, s, lo, m) && Unmaps(mid.tables, tables, mid.uses, s, lo, m) &&
      Vacant(was.tables, s, lo) && IsDir(was.uses, s)
    ensures SameMaps(was.tables, tables, was.uses)
  {
    forall s': nat, pn: nat | IsDir(was.uses, s') ensures Lookup(tables, s', pn) == Lookup(was.tables, s', pn) {
      assert IsDir(mid.uses, s');
    }
  }

  /** deallocuvm has freed what was allocated: it passes over nothing if a page was mapped, and if none
      was there is nothing to free. */
  lemma FreedNew(was: Was, mid: Was, now: Was, s: nat, lo: nat, m: nat, land: nat, hi: nat)
    requires Allocated(was, mid, s, lo, m) && Vacant(was.tables, s, lo) && IsDir(was.uses, s) && IsDir(mid.uses, s)
    requires Freed(mid, now, s, land, hi) && lo <= m <= hi && lo <= land && (lo < m ==> land == lo)
    ensures Freed(mid, now, s, lo, m)
  {
    forall pn: nat | m <= pn && lo <= pn ensures Lookup(mid.tables, s, pn) == None {
      assert Lookup(mid.tables, s, pn) == Lookup(was.tables, s, pn);
    }
    if lo < m {
      FramesNone(mid.tables, s, lo, m, hi);
    } else {
      FramesNone(mid.tables, s, land, Least(land, hi), hi);
    }
    assert Frames(mid.tables, s, land, hi) == Frames(mid.tables, s, lo, m);
  }

  /** The frames that the first page takes. */
  function TakesFirst(ts: set<nat>, lo: nat): (k: nat) {
    if lo / NPTENTRIES in ts then 1 else 2
  }

  /** allocuvm beyond the user part strays, itself or in undoing: unless it has no frames for its first
      page and deallocuvm passes over all the rest. */
  ghost predicate Strays(room: nat, ts: set<nat>, lo: nat, hi: nat) {
    hi > NPAGES && (room >= TakesFirst(ts, lo) || Most(Landing(ts, lo), NPAGES) < hi)
  }

  lemma MappedFirst(was: Was, mid: Was, s: nat, lo: nat, m: nat)
    requires Allocated(was, mid, s, lo, m) && lo < m
    ensures Landing(TablesOf(mid.tables, s), lo) == lo < NPAGES
  {
    assert Fresh(was, mid, s, lo);
  }

  /** deallocuvm of what was allocated. */
  method Undo(mem: Memory, s: nat, oldsz: nat, newsz: nat, ghost was: Was, ghost m: nat, ghost lost: nat)
    returns (strays: bool)
    requires mem.Valid() && IsDir(was.uses, s) && Vacant(was.tables, s, PagesOf(oldsz)) &&
      PagesOf(oldsz) <= m < PagesOf(newsz) && PagesOf(oldsz) <= NPAGES
    requires Allocated(was, mem.Now(), s, PagesOf(oldsz), m) && Kept(was.free, mem.Now(), s, lost) &&
      Pool(was.free, was.uses) && Wf(was.tables, was.uses)
    modifies mem
    ensures strays <==> Most(Landing(TablesOf(old(mem.tables), s), PagesOf(oldsz)), NPAGES) < PagesOf(newsz)
    ensures !strays ==> mem.Valid() && SameDirs(was.uses, mem.uses) && SameMaps(was.tables, mem.tables, was.uses)
    ensures !strays ==> Kept(was.free, mem.Now(), s, lost) && GivenBack(was.free, mem.Now(), lost)
  {
    ghost var mid, lo := mem.Now(), PagesOf(oldsz);
    var r;
    r, strays := mem.DeallocUvm(s, newsz, oldsz);
    if strays {
      return;
    }
    if lo < m {
      MappedFirst(was, mid, s, lo, m);
    }
    FreedNew(was, mid, mem.Now(), s, lo, m, Landing(TablesOf(mid.tables, s), lo), PagesOf(newsz));
    Restored(was, mid, mem.tables, s, lo, m);
    FramesBack(was, mid, mem.Now(), s, lo, m, lost);
  }

  /** Where the loop is: all pages below a are mapped and the frames are counted, or the last
      one is not and there is no frame left, or kalloc has failed. */
  ghost predicate Progress(room: nat, left: nat, ts0: set<nat>, ts: set<nat>, lo: nat, m: nat, a: nat, hi: nat,
      out: bool) {
    if out then lo <= m <= a < hi && room < FramesFrom(ts0, lo, hi) && !Short(room, ts0, lo, hi)
    else if m == a then Budget(room, left, ts0, ts, lo, a, hi) && lo <= m
    else lo <= m && m + 1 == a && left == 0 && room < FramesFrom(ts0, lo, hi) && (Short(room, ts0, lo, hi) <==> a == hi)
  }

  lemma ProgressDone(room: nat, left: nat, ts0: set<nat>, ts: set<nat>, lo: nat, m: nat, a: nat, hi: nat, out: bool)
    requires Progress(room, left, ts0, ts, lo, m, a, hi, out) && (out || a == hi)
    ensures out <==> room < FramesFrom(ts0, lo, hi) && !Short(room, ts0, lo, hi)
    ensures lo <= m && if out then m < hi else m == if Short(room, ts0, lo, hi) then hi - 1 else hi
  {
  }

  method Turn(mem: Memory, s: nat, a: nat, hi: nat, ghost was: Was, ghost lo: nat, ghost m: nat, ghost lost: nat,
      ghost room: nat, ghost ts0: set<nat>)
    returns (a': nat, out: bool, ghost m': nat, ghost lost': nat)
    requires mem.Valid() && IsDir(mem.uses, s) && IsDir(was.uses, s) && Allocated(was, mem.Now(), s, lo, m) &&
      lo <= a < hi <= NPAGES
    requires Vacant(was.tables, s, lo) && 0 !in was.free
    requires Progress(room, |mem.free|, ts0, TablesOf(mem.tables, s), lo, m, a, hi, false)
    requires Kept(was.free, mem.Now(), s, lost) && LostLast(was.free, lost) && (lost != 0 <==> m < a)
    modifies mem
    ensures mem.Valid() && IsDir(mem.uses, s) && Allocated(was, mem.Now(), s, lo, m') && a' == if out then a else a + 1
    ensures Progress(room, |mem.free|, ts0, TablesOf(mem.tables, s), lo, m', a', hi, out)
    ensures Kept(was.free, mem.Now(), s, lost') && LostLast(was.free, lost') && (!out ==> (lost' != 0 <==> m' < a'))
    ensures m <= m' <= m + 1 && (m' > m <==> |old(mem.free)| >= Takes(old(mem.tables), s, a))
    ensures m' == m ==> TablesOf(mem.tables, s) == TablesOf(old(mem.tables), s) && mem.free == []
  {
    ghost var mid := mem.Now();
    var got, mapped; ghost var l;
    got, mapped, l := AllocPage(mem, s, a);
    AllocatedMore(was, mid, mem.Now(), s, lo, m, a, mapped);
    if m == a {
      BudgetNext(room, |mid.free|, ts0, TablesOf(mid.tables, s), lo, a, hi);
    }
    KeptMore(was.free, mid, mem.Now(), s, lost, l);
    lost' := if lost != 0 then lost else l;
    out := !got;
    a', m' := if got then a + 1 else a, if mapped then m + 1 else m;
  }

  /** Whether the first page was mapped, and what follows if it was not. */
  ghost predicate First(room: nat, left: nat, ts0: set<nat>, ts: set<nat>, lo: nat, m: nat, a: nat, out: bool) {
    && (m > lo ==> room >= TakesFirst(ts0, lo))
    && (m == lo ==> ts == ts0 && (if a == lo && !out then left == room else room < TakesFirst(ts0, lo) && left == 0))
  }

  lemma FirstNext(room: nat, left: nat, left': nat, ts0: set<nat>, ts: set<nat>, ts': set<nat>, lo: nat, m: nat,
      m': nat, a: nat, a': nat, out: bool, takes: nat)
    requires First(room, left, ts0, ts, lo, m, a, false) && lo <= m <= m' <= m + 1 && lo <= a && a' >= a
    requires takes == TakesFirst(ts, a) && (m' > m <==> left >= takes) && (m' == m ==> ts' == ts && left' == 0)
    requires !out ==> a' > a
    ensures First(room, left', ts0, ts', lo, m', a', out)
  {
  }

  /** One turn, with what it says of the first page. */
  method UserTurn(mem: Memory, s: nat, a: nat, hi: nat, ghost was: Was, ghost lo: nat, ghost m: nat, ghost lost: nat,
      ghost room: nat, ghost ts0: set<nat>)
    returns (a': nat, out: bool, ghost m': nat, ghost lost': nat)
    requires mem.Valid() && IsDir(mem.uses, s) && IsDir(was.uses, s) && Allocated(was, mem.Now(), s, lo, m) &&
      lo <= a < hi <= NPAGES
    requires Vacant(was.tables, s, lo) && 0 !in was.free
    requires Progress(room, |mem.free|, ts0, TablesOf(mem.tables, s), lo, m, a, hi, false)
    requires Kept(was.free, mem.Now(), s, lost) && LostLast(was.free, lost) && (lost != 0 <==> m < a)
    requires First(room, |mem.free|, ts0, TablesOf(mem.tables, s), lo, m, a, false)
    modifies mem
    ensures mem.Valid() && IsDir(mem.uses, s) && Allocated(was, mem.Now(), s, lo, m') && a' == if out then a else a + 1
    ensures Progress(room, |mem.free|, ts0, TablesOf(mem.tables, s), lo, m', a', hi, out)
    ensures Kept(was.free, mem.Now(), s, lost') && LostLast(was.free, lost') && (!out ==> (lost' != 0 <==> m' < a'))
    ensures First(room, |mem.free|, ts0, TablesOf(mem.tables, s), lo, m', a', out)
  {
    ghost var left, ts, takes := |mem.free|, TablesOf(mem.tables, s), Takes(mem.tables, s, a);
    a', out, m', lost' := Turn(mem, s, a, hi, was, lo, m, lost, room, ts0);
    FirstNext(room, left, |mem.free|, ts0, ts, TablesOf(mem.tables, s), lo, m, m', a, a', out, takes);
  }

  /** The turns below the end of the user part. */
  method AllocUser(mem: Memory, s: nat, lo: nat, hi: nat) returns (out: bool, ghost m: nat, ghost lost: nat)
    requires mem.Valid() && IsDir(mem.uses, s) && Vacant(mem.tables, s, lo) && lo <= hi <= NPAGES
    modifies mem
    ensures mem.Valid() && Allocated(old(mem.Now()), mem.Now(), s, lo, m) && lo <= m
    ensures var room, ts := |old(mem.free)|, TablesOf(old(mem.tables), s);
      && (out <==> room < FramesFrom(ts, lo, hi) && !Short(room, ts, lo, hi))
      && (if out then m < hi else m == if Short(room, ts, lo, hi) then hi - 1 else hi)
      && (!out ==> (lost != 0 <==> Short(room, ts, lo, hi)))
    ensures Kept(old(mem.free), mem.Now(), s, lost) && LostLast(old(mem.free), lost)
    ensures First(|old(mem.free)|, |mem.free|, TablesOf(old(mem.tables), s), TablesOf(mem.tables, s), lo, m, hi, out)
  {
    var a := lo;
    m, out, lost := lo, false, 0;
    ghost var was, room, ts0 := mem.Now(), |mem.free|, TablesOf(mem.tables, s);
    while a < hi && !out
      invariant mem.Valid() && IsDir(mem.uses, s) && Allocated(was, mem.Now(), s, lo, m) && lo <= a <= hi
      invariant Progress(room, |mem.free|, ts0, TablesOf(mem.tables, s), lo, m, a, hi, out)
      invariant Kept(was.free, mem.Now(), s, lost) && LostLast(was.free, lost) && (!out ==> (lost != 0 <==> m < a))
      invariant First(room, |mem.free|, ts0, TablesOf(mem.tables, s), lo, m, a, out)
      decreases hi - a, !out
    {
      a, out, m, lost := UserTurn(mem, s, a, hi, was, lo, m, lost, room, ts0);
    }
    ProgressDone(room, |mem.free|, ts0, TablesOf(mem.tables, s), lo, m, a, hi, out);
  }

  /** kalloc and memset once more. */
  method NoFrame(mem: Memory) returns (out: bool)
    requires mem.Valid()
    modifies mem`free, mem`data
    ensures out ==> mem.Now() == old(mem.Now())
    ensures out <==> old(mem.free) == []
  {
    var f := ZeroFrame(mem);
    out := f == 0;
  }

  /** The loop of allocuvm: ordinary turns up to the end of the user part and, if it goes on, one
      more kalloc there before mappages takes a backpointer for a page table. */
  method AllocPages(mem: Memory, s: nat, lo: nat, hi: nat)
    returns (out: bool, strays: bool, ghost m: nat, ghost lost: nat)
    requires mem.Valid() && IsDir(mem.uses, s) && Vacant(mem.tables, s, lo) && lo <= hi && lo <= NPAGES
    modifies mem
    ensures hi > NPAGES ==> out || strays
    ensures strays ==> Strays(|old(mem.free)|, TablesOf(old(mem.tables), s), lo, hi)
    ensures !strays ==> mem.Valid() && Allocated(old(mem.Now()), mem.Now(), s, lo, m) && lo <= m && (out ==> m < hi)
    ensures !strays ==> Kept(old(mem.free), mem.Now(), s, lost) && LostLast(old(mem.free), lost)
    ensures !strays && out && m > lo ==> |old(mem.free)| >= TakesFirst(TablesOf(old(mem.tables), s), lo)
    ensures !strays && out && m == lo ==> TablesOf(mem.tables, s) == TablesOf(old(mem.tables), s)
    ensures !strays && out && m == lo < NPAGES ==> |old(mem.free)| < TakesFirst(TablesOf(old(mem.tables), s), lo)
    ensures hi <= NPAGES ==>
      var room, ts := |old(mem.free)|, TablesOf(old(mem.tables), s);
      && (out <==> room < FramesFrom(ts, lo, hi) && !Short(room, ts, lo, hi))
      && (!out ==> m == if Short(room, ts, lo, hi) then hi - 1 else hi)
      && (!out ==> (lost != 0 <==> Short(room, ts, lo, hi)))
  {
    strays := false;
    if hi <= NPAGES {
      out, m, lost := AllocUser(mem, s, lo, hi);
      return;
    }
    out, m, lost := AllocUser(mem, s, lo, NPAGES);
    if !out {
      out := NoFrame(mem);
      strays := !out;
    }
  }

  /** What a space of contiguous pages is after allocuvm: contiguous again, exactly if no page is missing. */
  lemma GrownContiguous(was: Was, now: Was, s: nat, lo: nat, m: nat, hi: nat)
    requires Allocated(was, now, s, lo, m) && IsDir(was.uses, s) && Contiguous(was.tables, s, lo) && lo <= m
    ensures Contiguous(now.tables, s, hi) <==> m == hi
  {
    StillContiguous(was, now, s, lo, m);
    OneExtent(now.tables, s, m, hi);
  }

  /** allocuvm: grows a space with no page from PagesOf(oldsz) on.  It strays to the backpointers if newsz
      is beyond the user part of the directory, as for sbrk(0x40000000), with the exception that Strays
      makes.  Otherwise it reports success and has mapped all new pages exactly when there are enough
      frames; but with one frame too few, where the last page needs a page table, it reports success
      without the last page. */
  method AllocUvm(mem: Memory, s: nat, oldsz: nat, newsz: nat) returns (r: nat, strays: bool, ghost lost: nat)
    requires mem.Valid() && IsDir(mem.uses, s) && Vacant(mem.tables, s, PagesOf(oldsz)) && PagesOf(oldsz) <= NPAGES
    modifies mem
    ensures strays <==>
      newsz >= oldsz && Strays(|old(mem.free)|, TablesOf(old(mem.tables), s), PagesOf(oldsz), PagesOf(newsz))
    ensures newsz >= oldsz && Landing(TablesOf(old(mem.tables), s), PagesOf(oldsz)) == PagesOf(oldsz) ==>
      (strays <==> newsz > 0x3fc00000)
    ensures newsz < oldsz ==> r == oldsz && mem.Now() == old(mem.Now())
    ensures !strays ==> mem.Valid() && SameDirs(old(mem.uses), mem.uses)
    ensures !strays && newsz >= oldsz && PagesOf(newsz) > NPAGES ==>
      r == 0 && SameMaps(old(mem.tables), mem.tables, old(mem.uses))
    ensures newsz >= oldsz && PagesOf(newsz) <= NPAGES ==>
      var lo, hi, room, ts := PagesOf(oldsz), PagesOf(newsz), |old(mem.free)|, TablesOf(old(mem.tables), s);
      && (room >= FramesFrom(ts, lo, hi) ==> r == newsz && Allocated(old(mem.Now()), mem.Now(), s, lo, hi))
      && (Short(room, ts, lo, hi) ==> r == newsz && Allocated(old(mem.Now()), mem.Now(), s, lo, hi - 1))
      && (room < FramesFrom(ts, lo, hi) && !Short(room, ts, lo, hi) ==>
        r == 0 && SameMaps(old(mem.tables), mem.tables, old(mem.uses)))
    ensures Contiguous(old(mem.tables), s, PagesOf(oldsz)) && !strays && newsz >= oldsz && newsz > 0 && r == newsz ==>
      (Contiguous(mem.tables, s, PagesOf(newsz)) <==>
        |old(mem.free)| >= FramesFrom(TablesOf(old(mem.tables), s), PagesOf(oldsz), PagesOf(newsz)))
    ensures !strays ==> Kept(old(mem.free), mem.Now(), s, lost) && LostLast(old(mem.free), lost)
    ensures !strays && newsz >= oldsz && newsz > 0 && r == newsz ==>
      (lost != 0 <==> Short(|old(mem.free)|, TablesOf(old(mem.tables), s), PagesOf(oldsz), PagesOf(newsz)))
    ensures !strays && newsz >= oldsz && newsz > 0 && r == 0 ==> GivenBack(old(mem.free), mem.Now(), lost)
  {
    UserEnd(newsz);
    lost, strays := 0, false;
    if newsz < oldsz {
      return oldsz, false, 0;
    }
    ghost var was, lo, hi := mem.Now(), PagesOf(oldsz), PagesOf(newsz);
    var out; ghost var m;
    out, strays, m, lost := AllocPages(mem, s, PagesOf(oldsz), PagesOf(newsz));
    r := newsz;
    if strays {
      return;
    }
    if out {
      if lo < m {
        MappedFirst(was, mem.Now(), s, lo, m);
      }
      strays := Undo(mem, s, oldsz, newsz, was, m, lost);
      return 0, strays, lost;
    }
    if Contiguous(was.tables, s, lo) {
      GrownContiguous(was, mem.Now(), s, lo, m, hi);
    }
  }

  /** The case at its smallest: an empty space grown by one page with one free frame. */
  lemma OneFrame()
    ensures Short(1, {}, 0, 1) && FramesFrom({}, 0, 1) == 2
  {
    assert FramesFrom({} + {0}, 1, 1) == 0;
  }

  // ---- Growing and forking

  /** Every space but s is as it was. */
  lemma OthersVacant(was: Was, now: Was, s: nat, lo: nat, m: nat, t: nat, n: nat)
    requires Allocated(was, now, s, lo, m) && t != s && IsDir(was.uses, t) && Vacant(was.tables, t, n)
    ensures Vacant(now.tables, t, n)
  {
    forall pn: nat | n <= pn ensures Lookup(now.tables, t, pn) == None {
      assert Lookup(now.tables, t, pn) == Lookup(was.tables, t, pn);
    }
  }

  /** A growth that leaves the last page out. */
  method GrowShort(mem: Memory, s: nat, oldsz: nat, newsz: nat, t: nat)
    requires mem.Valid() && IsDir(mem.uses, s) && Contiguous(mem.tables, s, PagesOf(oldsz))
    requires oldsz <= newsz && PagesOf(newsz) <= UPAGES
    requires Short(|mem.free|, TablesOf(mem.tables, s), PagesOf(oldsz), PagesOf(newsz))
    requires s != t && IsDir(mem.uses, t) && Vacant(mem.tables, t, UPAGES)
    modifies mem
    ensures mem.Valid() && IsDir(mem.uses, s) && IsDir(mem.uses, t)
    ensures Contiguous(mem.tables, s, PagesOf(newsz) - 1) && Vacant(mem.tables, t, UPAGES)
  {
    ghost var was := mem.Now();
    var r, strays, lost := AllocUvm(mem, s, oldsz, newsz);
    StillContiguous(was, mem.Now(), s, PagesOf(oldsz), PagesOf(newsz) - 1);
    OthersVacant(was, mem.Now(), s, PagesOf(oldsz), PagesOf(newsz) - 1, t, UPAGES);
  }

  lemma StaysContiguous(was: Was, now: Was, s: nat, t: nat, n: nat)
    requires SpaceFreed(was, now, t) && t != s && IsDir(was.uses, s) && Contiguous(was.tables, s, n)
    ensures Contiguous(now.tables, s, n) && IsDir(now.uses, s)
  {
    forall pn: nat ensures Lookup(now.tables, s, pn).Pte? <==> pn < n {
      assert Lookup(now.tables, s, pn) == Lookup(was.tables, s, pn);
    }
    assert s in now.uses;
  }

  /** Space t goes, space s stays. */
  method Exit(mem: Memory, s: nat, t: nat, ghost n: nat)
    requires mem.Valid() && IsDir(mem.uses, s) && IsDir(mem.uses, t) && s != t
    requires Contiguous(mem.tables, s, n) && Vacant(mem.tables, t, UPAGES)
    modifies mem
    ensures mem.Valid() && IsDir(mem.uses, s) && Contiguous(mem.tables, s, n) && t !in mem.uses
  {
    ghost var mid := mem.Now();
    mem.FreeVm(t);
    StaysContiguous(mid, mem.Now(), s, t, n);
  }

  /** copyuvm of a space with page n missing. */
  method Fork(mem: Memory, s: nat, sz: nat, ghost n: nat) returns (d: nat, nullStore: bool, panics: bool)
    requires mem.Valid() && IsDir(mem.uses, s) && FirstGap(mem.tables, s, n) && n <= UPAGES && n < PagesOf(sz)
    modifies mem
    ensures nullStore <==> |old(mem.free)| < 3
    ensures panics <==> |old(mem.free)| >= 3 + FramesFor(n)
    ensures !nullStore && !panics ==> d == 0
  {
    FramesGrow(n, PagesOf(sz));
    d, nullStore, panics := mem.CopyUvm(s, sz, n);
  }

  /** A space that allocuvm has left without its last page is not copied, however many frames another
      process frees meanwhile, as `left` says: with enough of them copyuvm panics. */
  method GrowThenFork(mem: Memory, s: nat, oldsz: nat, newsz: nat, t: nat)
    returns (d: nat, nullStore: bool, panics: bool, ghost left: Was)
    requires mem.Valid() && IsDir(mem.uses, s) && Contiguous(mem.tables, s, PagesOf(oldsz))
    requires oldsz <= newsz && PagesOf(newsz) <= UPAGES
    requires Short(|mem.free|, TablesOf(mem.tables, s), PagesOf(oldsz), PagesOf(newsz))
    requires s != t && IsDir(mem.uses, t) && Vacant(mem.tables, t, UPAGES)
    modifies mem
    ensures t !in left.uses && Contiguous(left.tables, s, PagesOf(newsz) - 1)
    ensures nullStore <==> |left.free| < 3
    ensures panics <==> |left.free| >= 3 + FramesFor(PagesOf(newsz) - 1)
    ensures !nullStore && !panics ==> d == 0
  {
    ghost var n := PagesOf(newsz) - 1;
    GrowShort(mem, s, oldsz, newsz, t);
    Exit(mem, s, t, n);
    left := mem.Now();
    d, nullStore, panics := Fork(mem, s, newsz, n);
  }

  /** Just page n is missing below hi. */
  ghost predicate Holed(tables: Tables, s: nat, n: nat, hi: nat) {
    forall pn: nat :: Lookup(tables, s, pn).Pte? <==> pn < hi && pn != n
  }

  lemma GrownHoled(was: Was, now: Was, s: nat, n: nat, hi: nat)
    requires Allocated(was, now, s, n + 1, hi) && IsDir(was.uses, s) && Contiguous(was.tables, s, n) && n < hi
    ensures Holed(now.tables, s, n, hi)
  {
    forall pn: nat ensures Lookup(now.tables, s, pn).Pte? <==> pn < hi && pn != n {
      assert n + 1 <= pn < hi ==> Fresh(was, now, s, pn);
    }
  }

  /** A second growth, with frames enough, of a space whose last page is missing. */
  method GrowOn(mem: Memory, s: nat, oldsz: nat, newsz: nat, ghost n: nat)
    requires mem.Valid() && IsDir(mem.uses, s) && Contiguous(mem.tables, s, n) && PagesOf(oldsz) == n + 1
    requires oldsz <= newsz && PagesOf(newsz) <= UPAGES
    requires |mem.free| >= FramesFrom(TablesOf(mem.tables, s), n + 1, PagesOf(newsz))
    modifies mem
    ensures mem.Valid() && IsDir(mem.uses, s) && Holed(mem.tables, s, n, PagesOf(newsz))
  {
    ghost var was := mem.Now();
    var r, strays, lost := AllocUvm(mem, s, oldsz, newsz);
    GrownHoled(was, mem.Now(), s, n, PagesOf(newsz));
  }

  /** Growing such a space again maps the new pages behind the missing one, which stays missing; and still
      no fork copies it: with enough frames copyuvm panics there. */
  method GrowTwiceThenFork(mem: Memory, s: nat, oldsz: nat, newsz: nat, t: nat, newsz2: nat)
    returns (enough: bool, d: nat, nullStore: bool, panics: bool, ghost left: Was, ghost grown: Was)
    requires mem.Valid() && IsDir(mem.uses, s) && Contiguous(mem.tables, s, PagesOf(oldsz))
    requires oldsz <= newsz <= newsz2 && PagesOf(newsz2) <= UPAGES
    requires Short(|mem.free|, TablesOf(mem.tables, s), PagesOf(oldsz), PagesOf(newsz))
    requires s != t && IsDir(mem.uses, t) && Vacant(mem.tables, t, UPAGES)
    modifies mem
    ensures t !in left.uses && Contiguous(left.tables, s, PagesOf(newsz) - 1)
    ensures enough <==> |left.free| >= FramesFrom(TablesOf(left.tables, s), PagesOf(newsz), PagesOf(newsz2))
    ensures enough ==> Holed(grown.tables, s, PagesOf(newsz) - 1, PagesOf(newsz2))
    ensures enough ==>
      (nullStore <==> |grown.free| < 3) && (panics <==> |grown.free| >= 3 + FramesFor(PagesOf(newsz) - 1))
    ensures enough && !nullStore && !panics ==> d == 0
  {
    var n := PagesOf(newsz) - 1;
    GrowShort(mem, s, oldsz, newsz, t);
    Exit(mem, s, t, n);
    enough := |mem.free| >= FramesFrom(TablesOf(mem.tables, s), n + 1, PagesOf(newsz2));
    d, nullStore, panics, left, grown := 0, false, false, mem.Now(), mem.Now();
    if enough {
      GrowOn(mem, s, newsz, newsz2, n);
      grown := mem.Now();
      d, nullStore, panics := Fork(mem, s, newsz2, n);
    }
  }

  lemma {:induction false} LandsInReach(ts: set<nat>, a: nat)
    requires a <= NPAGES
    ensures Landing(ts, a) < NPAGES + NPTENTRIES
    decreases NPAGES - a
  {
    if Landing(ts, a) != a && a + NPTENTRIES <= NPAGES {
      LandsInReach(ts, a + NPTENTRIES);
    }
  }

  /** A case: sbrk(0x40000000) strays, whatever there is. */
  method GrowPast(mem: Memory, s: nat, oldsz: nat) returns (strays: bool)
    requires mem.Valid() && IsDir(mem.uses, s) && Vacant(mem.tables, s, PagesOf(oldsz)) && PagesOf(oldsz) <= NPAGES
    modifies mem
    ensures strays
  {
    LandsInReach(TablesOf(mem.tables, s), PagesOf(oldsz));
    var r; ghost var lost;
    r, strays, lost := AllocUvm(mem, s, oldsz, oldsz + 0x40000000);
  }
}
