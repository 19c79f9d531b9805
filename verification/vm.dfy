/** The frame pool and the user part of page tables, in place (kernel/kalloc.c, kernel/vm.c). */
module Vm {
  import opened Common
  import opened PageMap

  /** The contents of a page. */
  type Data = seq<int>

  const PGSIZE: nat := 4096
  const UPAGES: nat := 260608      // 0x3fa00000 / PGSIZE

  function PagesOf(sz: nat): (n: nat)
    ensures sz <= n * PGSIZE < sz + PGSIZE
  {
    (sz + PGSIZE - 1) / PGSIZE
  }

  /** Exactly the pages below n are mapped. */
  ghost predicate Contiguous(tables: Tables, s: nat, n: nat) {
    forall pn: nat :: Lookup(tables, s, pn).Pte? <==> pn < n
  }

  /** Pages below n are mapped, page n is not; beyond there may be any. */
  ghost predicate FirstGap(tables: Tables, s: nat, n: nat) {
    Lookup(tables, s, n) == None && forall pn: nat :: pn < n ==> Lookup(tables, s, pn).Pte?
  }

  /** No page from n on is mapped. */
  ghost predicate Vacant(tables: Tables, s: nat, n: nat) {
    forall pn: nat :: n <= pn ==> Lookup(tables, s, pn) == None
  }

  /** Free frames are distinct and in no use. */
  ghost predicate Pool(free: seq<nat>, uses: Uses) {
    Distinct(free) && (forall f :: f in free ==> f !in uses && f > 0) && 0 !in uses
  }

  /** Mapped pages have contents. */
  ghost predicate HasData(uses: Uses, data: map<nat, Data>) {
    forall f :: f in uses && uses[f].Page? ==> f in data
  }

  datatype Mapping = Mapped | NoMemory | Remap

  /** The frames that the first n pages of a new space take, page tables included. */
  function FramesFor(n: nat): (k: nat) {
    if n == 0 then 0 else FramesFor(n - 1) + if (n - 1) % NPTENTRIES == 0 then 2 else 1
  }

  /** Of `room` frames the last is taken for a page that then lacks a page table. */
  ghost predicate LosesLast(room: int, n: nat) {
    exists i: nat :: i < n && FramesFor(i) + 1 == room && room < FramesFor(i + 1)
  }

  ghost predicate KeepsUses(uses: Uses, uses': Uses) {
    forall f :: f in uses ==> f in uses' && uses'[f] == uses[f]
  }

  /** A state of the memory. */
  datatype Was = Was(tables: Tables, uses: Uses, free: seq<nat>, data: map<nat, Data>)

  /** The new space is gone and its frames are free again, but for the one that was lost. */
  ghost predicate Returned(was: Was, mid: Was, end: Was, d: nat, npages: nat, lost: nat) {
    && SameMaps(was.tables, end.tables, was.uses) && KeepsUses(was.uses, end.uses) && |mid.free| < FramesFor(npages)
    && (forall f :: f in end.uses ==> f in was.uses)
    && (forall f: nat :: f in end.free <==> (f in mid.free || f == d) && f != lost)
    && (LosesLast(|mid.free|, npages) ==> |mid.free| > 0)
    && lost == (if LosesLast(|mid.free|, npages) then mid.free[|mid.free| - 1] else 0)
  }

  ghost predicate Good(w: Was) {
    Wf(w.tables, w.uses) && Pool(w.free, w.uses) && HasData(w.uses, w.data)
  }

  /** f is the directory, a page table or a page of s. */
  predicate OfSpace(uses: Uses, f: nat, s: nat) {
    f in uses && match uses[f]
                 case Directory => f == s
                 case Table(s', _) => s' == s
                 case Page(s', _) => s' == s
  }

  /** Frames of the pool that are no longer free are in use by d, but for `lost`. */
  ghost predicate Accounted(free: seq<nat>, free': seq<nat>, uses: Uses, d: nat, lost: nat) {
    forall f :: f in free ==> f in free' || OfSpace(uses, f, d) || f == lost
  }

  /** Frames that came into use belong to d. */
  ghost predicate OnlyNew(uses: Uses, uses': Uses, d: nat) {
    forall f :: f in uses' && f !in uses ==> OfSpace(uses', f, d)
  }

  /** Page pn of d is a page of its own with the contents and flags of page pn of s. */
  ghost predicate CopyOf(tables: Tables, data: map<nat, Data>, tables': Tables, data': map<nat, Data>, s: nat, d: nat,
      pn: nat) {
    var (e, e') := (Lookup(tables, s, pn), Lookup(tables', d, pn));
    && e.Pte? && e'.Pte? && e'.flags == e.flags && e'.frame != e.frame
    && e.frame in data && e'.frame in data' && data'[e'.frame] == data[e.frame]
  }

  /** Only frames that were free got new contents. */
  ghost predicate KeepsData(data: map<nat, Data>, data': map<nat, Data>, free: seq<nat>) {
    forall f :: f in data && f !in free ==> f in data' && data'[f] == data[f]
  }

  /** The free list lost frames from its head. */
  ghost predicate SubPool(free: seq<nat>, free': seq<nat>) {
    |free'| <= |free| && free' == free[|free| - |free'|..]
  }

  /** The first i pages of the new space d are copies, in frames that were free; nothing else changed. */
  ghost predicate Copied(was: Was, now: Was, s: nat, d: nat, i: nat) {
    && SameMaps(was.tables, now.tables, was.uses) && KeepsUses(was.uses, now.uses) &&
      KeepsData(was.data, now.data, was.free)
    && SubPool(was.free, now.free) && Contiguous(now.tables, d, i) && d !in was.uses
    && (forall pn: nat :: pn < i ==>
      CopyOf(was.tables, was.data, now.tables, now.data, s, d, pn) && Lookup(now.tables, d, pn).frame in was.free)
    && (forall f :: f in now.uses ==> f in was.uses || f in was.free)
    && OnlyNew(was.uses, now.uses, d)
  }

  /** Since mid, when d was new, i pages have been copied, or tried to be. */
  ghost predicate UnderWay(was: Was, mid: Was, now: Was, s: nat, d: nat, i: nat, lost: nat) {
    && Good(now) && IsDir(now.uses, s) && IsDir(now.uses, d) && s != d && Copied(was, now, s, d, i)
    && SubPool(mid.free, now.free) && Accounted(mid.free, now.free, now.uses, d, lost) && lost !in now.uses
    && (forall f :: f in now.uses ==> f in was.uses || f in mid.free || f == d) && d !in mid.free && 0 !in mid.free
  }

  ghost predicate OutOfFrames(free: seq<nat>, i: nat, lost: nat) {
    && FramesFor(i) <= |free| < FramesFor(i + 1)
    && lost == if |free| == FramesFor(i) then 0 else free[|free| - 1]
  }

  /** Page i could not be copied for want of frames. */
  ghost function GaveUp(was: Was, mid: Was, s: nat, d: nat, i: nat, lost: nat): iset<Was> {
    iset w: Was | UnderWay(was, mid, w, s, d, i, lost) && w.free == [] && OutOfFrames(mid.free, i, lost)
  }

  lemma {:induction false} FramesGrow(i: nat, n: nat)
    requires i <= n
    ensures FramesFor(i) <= FramesFor(n)
    decreases n
  {
    if i < n {
      FramesGrow(i, n - 1);
    }
  }

  lemma WhichLost(room: nat, n: nat, i: nat)
    requires i < n && FramesFor(i) <= room < FramesFor(i + 1)
    ensures LosesLast(room, n) <==> room == FramesFor(i) + 1
    ensures room < FramesFor(n)
  {
    FramesGrow(i + 1, n);
    if LosesLast(room, n) {
      var j: nat :| j < n && FramesFor(j) + 1 == room && room < FramesFor(j + 1);
      if j < i {
        FramesGrow(j + 1, i);
      } else if i < j {
        FramesGrow(i + 1, j);
      }
    }
  }

  lemma StopKept(was: Was, mid: Was, now: Was, s: nat, d: nat, i: nat, lost: nat)
    requires now in GaveUp(was, mid, s, d, i, lost)
    ensures Good(now) && IsDir(now.uses, d) && Contiguous(now.tables, d, i) && Copied(was, now, s, d, i)
    ensures OutOfFrames(mid.free, i, lost) && d !in was.uses
  {
  }

  lemma LostNotInUse(was: Was, mid: Was, now: Was, s: nat, d: nat, i: nat, lost: nat, f: nat)
    requires Good(was) && now in GaveUp(was, mid, s, d, i, lost) && !IsDir(was.uses, d)
    ensures OfSpace(now.uses, f, d) <==> (f in mid.free || f == d) && f != lost
  {
  }

  /** Spaces other than s map as before. */
  ghost predicate SameElsewhere(tables: Tables, tables': Tables, uses: Uses, s: nat) {
    forall s': nat, pn: nat :: s' != s && IsDir(uses, s') ==> Lookup(tables', s', pn) == Lookup(tables, s', pn)
  }

  /** The frames of s are out of use and free; other spaces map as before. */
  ghost predicate SpaceFreed(was: Was, now: Was, s: nat) {
    && SameElsewhere(was.tables, now.tables, was.uses, s)
    && (forall f: nat :: f in now.uses <==> f in was.uses && !OfSpace(was.uses, f, s))
    && (forall f: nat :: f in now.uses ==> now.uses[f] == was.uses[f])
    && (forall f: nat :: f in now.free <==> f in was.free || OfSpace(was.uses, f, s))
  }

  lemma UndonePool(was: Was, mid: Was, now: Was, end: Was, s: nat, d: nat, i: nat, lost: nat)
    requires Good(was) && now in GaveUp(was, mid, s, d, i, lost) && SpaceFreed(now, end, d) && !IsDir(was.uses, d)
    ensures forall f: nat :: f in end.free <==> (f in mid.free || f == d) && f != lost
  {
    forall f: nat ensures f in end.free <==> (f in mid.free || f == d) && f != lost {
      LostNotInUse(was, mid, now, s, d, i, lost, f);
    }
  }

  lemma Undone(was: Was, mid: Was, now: Was, s: nat, d: nat, i: nat)
    requires Wf(was.tables, was.uses) && Copied(was, mid, s, d, i) && !IsDir(was.uses, d) && d !in was.uses
    requires SpaceFreed(mid, now, d)
    ensures SameMaps(was.tables, now.tables, was.uses)
    ensures forall f :: f in was.uses ==> f in now.uses && now.uses[f] == was.uses[f]
    ensures forall f :: f in now.uses ==> f in was.uses
  {
  }

  lemma AllReturned(was: Was, mid: Was, now: Was, end: Was, s: nat, d: nat, i: nat, npages: nat, lost: nat)
    requires Good(was) && !IsDir(was.uses, d) && now in GaveUp(was, mid, s, d, i, lost) && i < npages &&
      SpaceFreed(now, end, d)
    ensures Returned(was, mid, end, d, npages, lost)
  {
    StopKept(was, mid, now, s, d, i, lost);
    Undone(was, now, end, s, d, i);
    UndonePool(was, mid, now, end, s, d, i, lost);
    WhichLost(|mid.free|, npages, i);
  }

  /** The same directories exist. */
  ghost predicate SameDirs(uses: Uses, uses': Uses) {
    forall s: nat :: IsDir(uses', s) <==> IsDir(uses, s)
  }

  /** What one turn of copyuvm did, from mid to now. */
  ghost predicate Turned(mid: Was, now: Was, s: nat, d: nat, i: nat, ok: bool) {
    && SameDirs(mid.uses, now.uses) && SameBut(mid.tables, now.tables, mid.uses, d, i) && SubPool(mid.free, now.free)
    && KeepsData(mid.data, now.data, mid.free) && KeepsUses(mid.uses, now.uses) && OnlyNew(mid.uses, now.uses, d)
    && (forall f :: f in now.uses ==> f in mid.uses || f in mid.free)
    && (if ok then CopyOf(mid.tables, mid.data, now.tables, now.data, s, d, i) &&
      Lookup(now.tables, d, i).frame in mid.free
        else Lookup(now.tables, d, i) == None)
  }

  /** New uses are of frames that were free, and of f. */
  ghost predicate Grew(uses: Uses, uses': Uses, free: seq<nat>, f: nat) {
    forall g :: g in uses' ==> g in uses || g in free || g == f
  }

  lemma PageTurned(was: Was, mid: Was, now: Was, s: nat, d: nat, pn: nat, e: Pte, mem: nat, ok: bool)
    requires mid == was.(free := mid.free, data := mid.data) && KeepsData(was.data, mid.data, was.free) &&
      e == Lookup(was.tables, s, pn)
    requires e.Pte? && e.frame in was.data && e.frame in was.uses && mem in was.free && Pool(was.free, was.uses) &&
      mem in mid.data
    requires mid.data[mem] == was.data[e.frame] && now.data == mid.data && SubPool(was.free, mid.free)
    requires SameDirs(mid.uses, now.uses) && SubPool(was.free, now.free) &&
      SameBut(mid.tables, now.tables, mid.uses, d, pn)
    requires Lookup(now.tables, d, pn) == if ok then Pte(mem, e.flags) else None
    requires Grew(mid.uses, now.uses, mid.free, if ok then mem else 0) && KeepsUses(mid.uses, now.uses) &&
      OnlyNew(mid.uses, now.uses, d)
    requires 0 !in now.uses
    ensures Turned(was, now, s, d, pn, ok)
  {
    forall f | f in now.uses ensures f in was.uses || f in was.free {
      assert f in mid.free ==> f in was.free;
    }
  }

  /** Space s has n pages that can be copied before the first that is not there. */
  ghost function Sharing(s: nat, n: nat): iset<Was> {
    iset w: Was | Good(w) && IsDir(w.uses, s) && FirstGap(w.tables, s, n) && n <= UPAGES
  }

  /** The directory entries of s that hold a page table. */
  function TablesOf(tables: Tables, s: nat): (ts: set<nat>) {
    set t: nat | t < NUSER && Entry(tables, s, t).Pte?
  }

  /** The directory entries of the first n pages. */
  function Below(n: nat): (ts: set<nat>) {
    set t: nat | t < NUSER && t * NPTENTRIES < n
  }

  ghost function Copying(was: Was, mid: Was, s: nat, d: nat, i: nat): iset<Was> {
    iset w: Was | UnderWay(was, mid, w, s, d, i, 0) && TablesOf(w.tables, d) == Below(i) &&
      |w.free| + FramesFor(i) == |mid.free|
  }

  /** Where the loop is: i pages copied, or stopped at page i of the n there are. */
  ghost function CopyLoop(was: Was, mid: Was, s: nat, d: nat, i: nat, n: nat, ok: bool, lost: nat): iset<Was> {
    if ok && lost == 0 then Copying(was, mid, s, d, i)
    else if !ok && i < n then GaveUp(was, mid, s, d, i, lost)
    else iset{}
  }

  lemma HeadAccounted(free0: seq<nat>, free1: seq<nat>, free2: seq<nat>, uses: Uses, d: nat, mem: nat, ok: bool)
    requires SubPool(free0, free1) && |free0| == |free1| + 1 && free0[0] == mem &&
      Accounted(free1, free2, uses, d, 0) && 0 !in free1
    requires ok ==> OfSpace(uses, mem, d)
    ensures Accounted(free0, free2, uses, d, if ok then 0 else mem)
  {
    forall f | f in free0 ensures f in free2 || OfSpace(uses, f, d) || f == (if ok then 0 else mem) {
      assert f == mem || f in free1;
    }
  }

  /** The parent is as it was while pages are being copied. */
  lemma SourcePage(was: Was, mid: Was, now: Was, s: nat, d: nat, i: nat, n: nat)
    requires was in Sharing(s, n) && now in Copying(was, mid, s, d, i) && i <= n
    ensures Lookup(now.tables, s, i).Pte? <==> i < n
  {
  }

  /** The next page of the parent is there, and that of the copy is not yet. */
  lemma CopyReady(was: Was, mid: Was, now: Was, s: nat, d: nat, i: nat, n: nat)
    requires was in Sharing(s, n) && i < n && now in Copying(was, mid, s, d, i)
    ensures Good(now) && IsDir(now.uses, s) && IsDir(now.uses, d) && s != d && i < NPAGES
    ensures Lookup(now.tables, s, i) == Lookup(was.tables, s, i) && Lookup(now.tables, s, i).Pte? &&
      Lookup(now.tables, d, i) == None
  {
  }

  lemma AccountedMore(free0: seq<nat>, free1: seq<nat>, free2: seq<nat>, uses1: Uses, uses2: Uses, d: nat, lost: nat)
    requires Accounted(free0, free1, uses1, d, 0) && Accounted(free1, free2, uses2, d, lost) &&
      KeepsUses(uses1, uses2) && 0 !in free0
    ensures Accounted(free0, free2, uses2, d, lost)
  {
  }

  lemma CopiedMaps(was: Was, mid: Was, now: Was, s: nat, d: nat, i: nat, ok: bool)
    requires Copied(was, mid, s, d, i) && IsDir(mid.uses, d) && Turned(mid, now, s, d, i, ok)
    ensures SameMaps(was.tables, now.tables, was.uses) && Contiguous(now.tables, d, if ok then i + 1 else i)
    ensures forall pn: nat :: pn != i ==> Lookup(now.tables, d, pn) == Lookup(mid.tables, d, pn)
  {
    forall s': nat, pn: nat | IsDir(was.uses, s') ensures Lookup(now.tables, s', pn) == Lookup(was.tables, s', pn) {
      assert IsDir(mid.uses, s') && s' != d;
    }
    forall pn: nat | pn != i ensures Lookup(now.tables, d, pn) == Lookup(mid.tables, d, pn) {
    }
  }

  lemma SubPoolMore(free: seq<nat>, free1: seq<nat>, free2: seq<nat>)
    requires SubPool(free, free1) && SubPool(free1, free2)
    ensures SubPool(free, free2)
  {
  }

  lemma CopiedUses(was: Was, mid: Was, now: Was, s: nat, d: nat, i: nat, ok: bool)
    requires Copied(was, mid, s, d, i) && Turned(mid, now, s, d, i, ok)
    ensures KeepsUses(was.uses, now.uses) && KeepsData(was.data, now.data, was.free) && SubPool(was.free, now.free)
    ensures OnlyNew(was.uses, now.uses, d) && forall f :: f in now.uses ==> f in was.uses || f in was.free
  {
    SubPoolMore(was.free, mid.free, now.free);
    assert forall f :: f in mid.free ==> f in was.free;
    forall f | f in now.uses && f !in was.uses ensures OfSpace(now.uses, f, d) {
      if f in mid.uses {
        assert OfSpace(mid.uses, f, d) && now.uses[f] == mid.uses[f];
      }
    }
  }

  lemma CopiedOld(was: Was, mid: Was, now: Was, s: nat, d: nat, i: nat, ok: bool, pn: nat)
    requires Copied(was, mid, s, d, i) && IsDir(mid.uses, d) && Turned(mid, now, s, d, i, ok) && pn < i
    requires Wf(mid.tables, mid.uses) && Pool(mid.free, mid.uses) &&
      Lookup(now.tables, d, pn) == Lookup(mid.tables, d, pn)
    ensures CopyOf(was.tables, was.data, now.tables, now.data, s, d, pn)
  {
    LookupIn(mid.tables, mid.uses, d, pn);
    assert CopyOf(was.tables, was.data, mid.tables, mid.data, s, d, pn);
  }

  /** The newest page is a copy of the parent's page as it was. */
  lemma CopiedNew(was: Was, mid: Was, now: Was, s: nat, d: nat, i: nat)
    requires Copied(was, mid, s, d, i) && Turned(mid, now, s, d, i, true) && IsDir(was.uses, s)
    requires Wf(was.tables, was.uses) && Pool(was.free, was.uses) && HasData(was.uses, was.data)
    ensures CopyOf(was.tables, was.data, now.tables, now.data, s, d, i)
  {
    assert Lookup(mid.tables, s, i) == Lookup(was.tables, s, i);
    LookupIn(was.tables, was.uses, s, i);
  }

  lemma CopiedMore(was: Was, mid: Was, now: Was, s: nat, d: nat, i: nat, ok: bool)
    requires Wf(was.tables, was.uses) && Wf(mid.tables, mid.uses) && Pool(was.free, was.uses) &&
      Pool(mid.free, mid.uses) && HasData(was.uses, was.data)
    requires Copied(was, mid, s, d, i) && IsDir(was.uses, s) && IsDir(mid.uses, d) && Turned(mid, now, s, d, i, ok)
    ensures Copied(was, now, s, d, if ok then i + 1 else i)
  {
    CopiedMaps(was, mid, now, s, d, i, ok);
    CopiedUses(was, mid, now, s, d, i, ok);
    forall pn: nat | pn < (if ok then i + 1 else i)
      ensures CopyOf(was.tables, was.data, now.tables, now.data, s, d, pn) &&
        Lookup(now.tables, d, pn).frame in was.free
    {
      if pn < i {
        CopiedOld(was, mid, now, s, d, i, ok, pn);
      } else {
        CopiedNew(was, mid, now, s, d, i);
      }
    }
  }

  lemma StillUnderWay(was: Was, mid: Was, now: Was, end: Was, s: nat, d: nat, i: nat, n: nat, ok: bool, lost: nat)
    requires was in Sharing(s, n) && i < n && UnderWay(was, mid, now, s, d, i, 0) && Good(end)
    requires Turned(now, end, s, d, i, ok) && Accounted(now.free, end.free, end.uses, d, lost) && lost !in end.uses
    ensures UnderWay(was, mid, end, s, d, if ok then i + 1 else i, lost)
  {
    CopiedMore(was, now, end, s, d, i, ok);
    SubPoolMore(mid.free, now.free, end.free);
    AccountedMore(mid.free, now.free, end.free, now.uses, end.uses, d, lost);
    assert forall f :: f in now.free ==> f in mid.free;
  }

  /** The frames that one more page takes: its own and, where there is none, one for its page table. */
  ghost function Takes(tables: Tables, s: nat, pn: nat): (k: nat) {
    if HasTable(tables, s, pn) then 1 else 2
  }

  /** The page tables of s are those from before and, if `made`, that of pn. */
  ghost predicate NewTables(tables: Tables, tables': Tables, s: nat, pn: nat, made: bool) {
    TablesOf(tables', s) == TablesOf(tables, s) + if made then {pn / NPTENTRIES} else {}
  }

  lemma NextFrames(tables: Tables, d: nat, i: nat)
    requires TablesOf(tables, d) == Below(i) && i < NPAGES
    ensures FramesFor(i + 1) - FramesFor(i) == Takes(tables, d, i)
  {
    var t := i / NPTENTRIES;
    assert t * NPTENTRIES <= i < (t + 1) * NPTENTRIES;
    assert t in TablesOf(tables, d) <==> t in Below(i);
  }

  lemma TablesMore(tables: Tables, tables': Tables, d: nat, i: nat)
    requires TablesOf(tables, d) == Below(i) && NewTables(tables, tables', d, i, true) && i < NPAGES
    ensures TablesOf(tables', d) == Below(i + 1)
  {
    var k := i / NPTENTRIES;
    assert k * NPTENTRIES <= i < (k + 1) * NPTENTRIES;
    forall t: nat ensures t in Below(i + 1) <==> t in Below(i) || t == k {
    }
  }

  lemma FramesWent(free0: seq<nat>, now: Was, end: Was, d: nat, i: nat)
    requires TablesOf(now.tables, d) == Below(i) && |now.free| + FramesFor(i) == |free0| && i < NPAGES
    requires |end.free| == |now.free| - Takes(now.tables, d, i) && NewTables(now.tables, end.tables, d, i, true)
    ensures TablesOf(end.tables, d) == Below(i + 1) && |end.free| + FramesFor(i + 1) == |free0|
  {
    NextFrames(now.tables, d, i);
    TablesMore(now.tables, end.tables, d, i);
  }

  lemma CopyWent(was: Was, mid: Was, now: Was, end: Was, s: nat, d: nat, i: nat, n: nat)
    requires was in Sharing(s, n) && i < n && now in Copying(was, mid, s, d, i) && Good(end)
    requires Turned(now, end, s, d, i, true) && Accounted(now.free, end.free, end.uses, d, 0)
    requires |end.free| == |now.free| - Takes(now.tables, d, i) && NewTables(now.tables, end.tables, d, i, true)
    ensures end in Copying(was, mid, s, d, i + 1)
  {
    StillUnderWay(was, mid, now, end, s, d, i, n, true, 0);
    FramesWent(mid.free, now, end, d, i);
  }

  lemma NoFramesLeft(free0: seq<nat>, free: seq<nat>, i: nat, takes: nat, lost: nat)
    requires SubPool(free0, free) && |free| + FramesFor(i) == |free0| &&
      FramesFor(i + 1) - FramesFor(i) == takes <= 2 && |free| < takes
    requires lost == if free == [] then 0 else free[0]
    ensures OutOfFrames(free0, i, lost)
  {
  }

  lemma CopyStopped(was: Was, mid: Was, now: Was, end: Was, s: nat, d: nat, i: nat, n: nat, lost: nat)
    requires was in Sharing(s, n) && i < n && now in Copying(was, mid, s, d, i) && Good(end)
    requires Turned(now, end, s, d, i, false) && Accounted(now.free, end.free, end.uses, d, lost) && end.free == [] &&
      lost !in end.uses
    requires |now.free| < Takes(now.tables, d, i) && lost == if now.free == [] then 0 else now.free[0]
    ensures end in GaveUp(was, mid, s, d, i, lost)
  {
    StillUnderWay(was, mid, now, end, s, d, i, n, false, lost);
    NextFrames(now.tables, d, i);
    NoFramesLeft(mid.free, now.free, i, Takes(now.tables, d, i), lost);
  }

  lemma CopyTurned(was: Was, mid: Was, now: Was, end: Was, s: nat, d: nat, i: nat, n: nat, ok: bool, lost: nat)
    requires was in Sharing(s, n) && i < n && now in Copying(was, mid, s, d, i) && Good(end)
    requires Turned(now, end, s, d, i, ok) && Accounted(now.free, end.free, end.uses, d, lost)
    requires ok <==> |now.free| >= Takes(now.tables, d, i)
    requires ok ==>
      |end.free| == |now.free| - Takes(now.tables, d, i) && NewTables(now.tables, end.tables, d, i, true) && lost == 0
    requires !ok ==> end.free == [] && lost == (if now.free == [] then 0 else now.free[0]) && lost !in end.uses
    ensures end in CopyLoop(was, mid, s, d, if ok then i + 1 else i, n, ok, lost)
  {
    if ok {
      CopyWent(was, mid, now, end, s, d, i, n);
    } else {
      CopyStopped(was, mid, now, end, s, d, i, n, lost);
    }
  }

  lemma CopyKept(was: Was, mid: Was, now: Was, s: nat, d: nat, n: nat)
    requires now in Copying(was, mid, s, d, n)
    ensures Good(now) && SameMaps(was.tables, now.tables, was.uses) && KeepsUses(was.uses, now.uses) &&
      IsDir(now.uses, d)
    ensures Copied(was, now, s, d, n) && |now.free| + FramesFor(n) == |mid.free|
  {
  }

  /** The pool is free again but for its first two frames and, if one was lost, its last. */
  ghost predicate Regained(pool: seq<nat>, free: seq<nat>, loses: bool) {
    |pool| >= 2 && forall f: nat :: f in free <==> f in pool[2..] && !(loses && f == pool[|pool| - 1])
  }

  lemma BackInPool(pool: seq<nat>, free: seq<nat>, d: nat, lost: nat, loses: bool)
    requires |pool| >= 3 && d == pool[2] && (loses ==> |pool| > 3) &&
      lost == (if loses then pool[|pool| - 1] else 0) && 0 !in pool
    requires forall f: nat :: f in free <==> (f in pool[3..] || f == d) && f != lost
    ensures Regained(pool, free, loses)
  {
    forall f: nat ensures f in pool[2..] <==> f in pool[3..] || f == d {
      assert pool[2..] == [d] + pool[3..];
    }
  }

  /** An entry of a page table is no entry of the directory. */
  lemma SameTables(tables: Tables, uses: Uses, s: nat, pn: nat, e: Pte)
    requires Wf(tables, uses) && IsDir(uses, s) && HasTable(tables, s, pn)
    ensures TablesOf(SetEntry(tables, s, pn, e), s) == TablesOf(tables, s)
  {
    assert UseOk(tables, uses, s, Directory);
  }

  lemma CopiedNone(was: Was, now: Was, s: nat, d: nat)
    requires d !in was.uses && d in was.free && now.uses == was.uses[d := Directory] && now.data == was.data
    requires Unmapped(now.tables, d) && SameMaps(was.tables, now.tables, was.uses) && SubPool(was.free, now.free)
    ensures Copied(was, now, s, d, 0)
  {
  }

  lemma StartsCopying(was: Was, mid: Was, s: nat, d: nat, n: nat)
    requires Good(was) && Good(mid) && IsDir(was.uses, s) && FirstGap(was.tables, s, n) && n <= UPAGES
    requires |was.free| >= 3 && d == was.free[2] && mid.free == was.free[3..] && mid.data == was.data
    requires mid.uses == was.uses[d := Directory] && d !in was.uses && TablesOf(mid.tables, d) == Below(0)
    requires Unmapped(mid.tables, d) && SameMaps(was.tables, mid.tables, was.uses)
    ensures was in Sharing(s, n) && mid in Copying(was, mid, s, d, 0) && !IsDir(was.uses, d)
  {
    CopiedNone(was, mid, s, d);
  }

  /** A frame that is neither free nor in use: kalloc has just returned it. */
  ghost predicate Unused(free: seq<nat>, uses: Uses, f: nat) {
    f > 0 && f !in free && f !in uses
  }

  lemma TookHead(free: seq<nat>, uses: Uses)
    requires free != [] && Pool(free, uses)
    ensures Pool(free[1..], uses) && Unused(free[1..], uses, free[0]) && SubPool(free, free[1..])
  {
  }

  /** f is a page table of s for a directory entry below i. */
  predicate TableOf(uses: Uses, f: nat, s: nat, i: nat) {
    f in uses && uses[f].Table? && uses[f].s == s && uses[f].i < i
  }

  lemma Dropped(tables: Tables, uses: Uses, s: nat, gone: set<nat>)
    requires Wf(tables, uses) && IsDir(uses, s) && Unmapped(tables, s)
    requires forall f: nat :: f in gone <==> TableOf(uses, f, s, NUSER)
    ensures Wf(tables - (gone + {s}), Without(uses, s)) && SameElsewhere(tables, tables - (gone + {s}), uses, s)
    ensures s !in gone
  {
    DropWf(tables, uses, s);
    forall f | f in uses && uses[f].Table? && uses[f].s == s ensures f in gone {
      assert UseOk(tables, uses, f, uses[f]);
    }
    assert tables - (gone + {s}) == Keep(tables, Without(uses, s));
  }

  lemma PoolDropped(free: seq<nat>, free1: seq<nat>, uses: Uses, s: nat, gone: set<nat>)
    requires Pool(free, uses) && IsDir(uses, s) && Distinct(free1) &&
      (forall f: nat :: f in free1 <==> f in free || f in gone)
    requires forall f: nat :: f in gone ==> TableOf(uses, f, s, NUSER)
    ensures Pool([s] + free1, Without(uses, s))
  {
    assert s !in free1;
    forall f | f in [s] + free1 ensures f !in Without(uses, s) && f > 0 {
      assert f == s || f in free1;
    }
  }

  /** The frames of the mapped pages among lo .. hi - 1, the last first. */
  function Frames(tables: Tables, s: nat, lo: nat, hi: nat): (fs: seq<nat>)
    decreases hi
  {
    if hi <= lo then []
    else
      var (e, rest) := (Lookup(tables, s, hi - 1), Frames(tables, s, lo, hi - 1));
      if e.Pte? then [e.frame] + rest else rest
  }

  lemma {:induction false} FrameListed(tables: Tables, s: nat, lo: nat, hi: nat, pn: nat)
    requires lo <= pn < hi && Lookup(tables, s, pn).Pte?
    ensures Lookup(tables, s, pn).frame in Frames(tables, s, lo, hi)
    decreases hi
  {
    if pn < hi - 1 {
      FrameListed(tables, s, lo, hi - 1, pn);
    } else {
      assert Frames(tables, s, lo, hi)[0] == Lookup(tables, s, pn).frame;
    }
  }

  lemma {:induction false} FrameFrom(tables: Tables, s: nat, lo: nat, hi: nat, f: nat) returns (pn: nat)
    requires f in Frames(tables, s, lo, hi)
    ensures lo <= pn < hi && Lookup(tables, s, pn).Pte? && Lookup(tables, s, pn).frame == f
    decreases hi
  {
    if Lookup(tables, s, hi - 1).Pte? && Lookup(tables, s, hi - 1).frame == f {
      return hi - 1;
    }
    pn := FrameFrom(tables, s, lo, hi - 1, f);
  }

  /** Where no page is mapped there are no frames. */
  lemma {:induction false} FramesNone(tables: Tables, s: nat, lo: nat, m: nat, hi: nat)
    requires m <= hi && forall pn: nat :: m <= pn < hi && lo <= pn ==> Lookup(tables, s, pn) == None
    ensures Frames(tables, s, lo, hi) == Frames(tables, s, lo, m)
    decreases hi
  {
    if m < hi {
      FramesNone(tables, s, lo, m, hi - 1);
    }
  }

  /** The frames of the mapped pages are those used as pages of s. */
  lemma FramesOf(tables: Tables, uses: Uses, s: nat, n: nat)
    requires Wf(tables, uses) && IsDir(uses, s) && Vacant(tables, s, n)
    ensures forall f: nat :: f in Frames(tables, s, 0, n) <==> f in uses && uses[f].Page? && uses[f].s == s
  {
    var fs := Frames(tables, s, 0, n);
    forall f: nat ensures f in fs <==> f in uses && uses[f].Page? && uses[f].s == s {
      if f in fs {
        var pn := FrameFrom(tables, s, 0, n, f);
        LookupIn(tables, uses, s, pn);
      }
      if f in uses && uses[f].Page? && uses[f].s == s {
        assert UseOk(tables, uses, f, uses[f]);
        FrameListed(tables, s, 0, n, uses[f].pn);
      }
    }
  }

  /** The pages lo .. hi - 1 of s are unmapped, all else is as before. */
  ghost predicate Unmaps(tables: Tables, tables': Tables, uses: Uses, s: nat, lo: nat, hi: nat) {
    forall s': nat, pn: nat :: IsDir(uses, s') ==>
      Lookup(tables', s', pn) == if s' == s && lo <= pn < hi then None else Lookup(tables, s', pn)
  }

  /** The contents, or the uses, of the frames fs, and of no others, are gone. */
  ghost predicate Lost<T>(data: map<nat, T>, data': map<nat, T>, fs: seq<nat>) {
    forall g: nat :: (g in data' <==> g in data && g !in fs) && (g in data' ==> data'[g] == data[g])
  }

  /** The pages lo .. hi - 1 of s are unmapped and their frames, and no others, freed. */
  ghost predicate Freed(was: Was, now: Was, s: nat, lo: nat, hi: nat) {
    && Unmaps(was.tables, now.tables, was.uses, s, lo, hi) && now.free == Frames(was.tables, s, lo, hi) + was.free
    && Lost(was.data, now.data, Frames(was.tables, s, lo, hi)) &&
      Lost(was.uses, now.uses, Frames(was.tables, s, lo, hi))
  }

  lemma FreedSpace(was: Was, mid: Was, now: Was, s: nat, n: nat)
    requires Wf(was.tables, was.uses) && IsDir(was.uses, s) && Freed(was, mid, s, 0, n) && IsDir(mid.uses, s) &&
      SameDirs(was.uses, mid.uses)
    requires Vacant(was.tables, s, n)
    requires now.uses == Without(mid.uses, s) && SameElsewhere(mid.tables, now.tables, mid.uses, s)
    requires forall f: nat :: f in now.free <==> f in mid.free || f == s || TableOf(mid.uses, f, s, NUSER)
    ensures SpaceFreed(was, now, s)
  {
    var fs := Frames(was.tables, s, 0, n);
    FramesOf(was.tables, was.uses, s, n);
    forall f: nat ensures f in now.free <==> f in was.free || OfSpace(was.uses, f, s) {
      assert f in mid.free <==> f in fs || f in was.free;
      if f in was.uses && was.uses[f].Table? {
        assert UseOk(was.tables, was.uses, f, was.uses[f]);
      }
    }
  }

  function Least(x: nat, y: nat): (m: nat) {
    if x < y then x else y
  }

  lemma WholeSpace()
    ensures PagesOf(0) == 0 && PagesOf(0x3fa00000) == UPAGES
  {
  }

  lemma AllUnmapped(tables: Tables, tables': Tables, uses: Uses, s: nat)
    requires Unmaps(tables, tables', uses, s, 0, UPAGES) && Vacant(tables, s, UPAGES) && IsDir(uses, s)
    ensures Unmapped(tables', s)
  {
  }

  lemma TableNext(tables: Tables, uses: Uses, s: nat, i: nat)
    requires Wf(tables, uses) && IsDir(uses, s) && i < NUSER
    ensures s in tables && i < |tables[s]|
    ensures forall f: nat :: TableOf(uses, f, s, i + 1) <==>
      TableOf(uses, f, s, i) || (tables[s][i].Pte? && f == tables[s][i].frame)
    ensures tables[s][i].Pte? ==> UsedAs(uses, tables[s][i].frame, Table(s, i))
  {
    assert UseOk(tables, uses, s, Directory);
    assert Entry(tables, s, i) == tables[s][i];
    forall f: nat ensures TableOf(uses, f, s, i + 1) <==>
      TableOf(uses, f, s, i) || (tables[s][i].Pte? && f == tables[s][i].frame) {
      if f in uses && uses[f] == Table(s, i) {
        assert UseOk(tables, uses, f, uses[f]);
      }
    }
  }

  lemma FramesNext(tables: Tables, s: nat, lo: nat, m: nat)
    requires lo <= m && Lookup(tables, s, m).Pte?
    ensures Frames(tables, s, lo, m + 1) == [Lookup(tables, s, m).frame] + Frames(tables, s, lo, m)
  {
  }

  lemma FramesMore<T>(tables: Tables, data: map<nat, T>, data1: map<nat, T>, s: nat, lo: nat, m: nat, free: seq<nat>)
    requires lo <= m && Lookup(tables, s, m).Pte? && Lost(data, data1, Frames(tables, s, lo, m))
    ensures [Lookup(tables, s, m).frame] + (Frames(tables, s, lo, m) + free) == Frames(tables, s, lo, m + 1) + free
    ensures Lost(data, data1 - {Lookup(tables, s, m).frame}, Frames(tables, s, lo, m + 1))
  {
    var fs, f := Frames(tables, s, lo, m), Lookup(tables, s, m).frame;
    FramesNext(tables, s, lo, m);
    assert [f] + (fs + free) == ([f] + fs) + free;
    forall g: nat ensures g in [f] + fs <==> g in fs || g == f {
    }
  }

  lemma UnmapsMore(tables: Tables, tables1: Tables, tables2: Tables, uses: Uses, uses1: Uses, s: nat, lo: nat, m: nat)
    requires Unmaps(tables, tables1, uses, s, lo, m) && SameBut(tables1, tables2, uses1, s, m) && SameDirs(uses, uses1)
    requires lo <= m && Lookup(tables2, s, m) == None
    ensures Unmaps(tables, tables2, uses, s, lo, m + 1)
  {
  }

  lemma FreedMore(was: Was, mid: Was, now: Was, s: nat, lo: nat, m: nat)
    requires Freed(was, mid, s, lo, m) && lo <= m && IsDir(was.uses, s) && SameDirs(was.uses, mid.uses)
    requires Lookup(mid.tables, s, m).Pte? && SameBut(mid.tables, now.tables, mid.uses, s, m) &&
      Lookup(now.tables, s, m) == None
    requires now.free == [Lookup(mid.tables, s, m).frame] + mid.free &&
      now.data == mid.data - {Lookup(mid.tables, s, m).frame}
    requires now.uses == mid.uses - {Lookup(mid.tables, s, m).frame}
    ensures Freed(was, now, s, lo, m + 1)
  {
    UnmapsMore(was.tables, mid.tables, now.tables, was.uses, mid.uses, s, lo, m);
    FramesMore(was.tables, was.data, mid.data, s, lo, m, was.free);
    FramesMore(was.tables, was.uses, mid.uses, s, lo, m, was.free);
  }

  /** Nothing is mapped from m up to m'. */
  lemma FreedSkip(was: Was, now: Was, s: nat, lo: nat, m: nat, m': nat)
    requires Freed(was, now, s, lo, m) && m <= m' && IsDir(was.uses, s)
    requires forall pn: nat :: m <= pn < m' && lo <= pn ==> Lookup(was.tables, s, pn) == None
    ensures Freed(was, now, s, lo, m')
  {
    FramesNone(was.tables, s, lo, m, m');
  }

  function Most(x: nat, y: nat): (m: nat) {
    if x < y then y else x
  }

  /** The page number from which deallocuvm, started at a, looks at every page: while it finds no page
      table it goes on by a table's worth of pages, and so passes over the first pages of the next
      table unless a is the first of one. */
  function Landing(ts: set<nat>, a: nat): (land: nat)
    ensures land >= a
    decreases NPAGES - a
  {
    if a >= NPAGES || a % NPTENTRIES == 0 || a / NPTENTRIES in ts then a else Landing(ts, a + NPTENTRIES)
  }

  /** Where it is after one turn. */
  lemma LandingNext(ts: set<nat>, land: nat, a: nat, next: nat)
    requires a < NPAGES && Landing(ts, a) == Most(land, a) && a <= Most(land, NPAGES)
    requires next == a + if a / NPTENTRIES in ts then 1 else NPTENTRIES
    ensures Landing(ts, next) == Most(land, next) && next <= Most(land, NPAGES)
    ensures a / NPTENTRIES in ts ==> land <= a
    ensures a / NPTENTRIES !in ts ==> if a % NPTENTRIES == 0 then land <= a else next <= land
  {
    if a / NPTENTRIES in ts && next < NPAGES && next % NPTENTRIES != 0 {
      assert next / NPTENTRIES == a / NPTENTRIES;
    }
  }

  /** A page table that is not there maps nothing. */
  lemma NoTable(tables: Tables, s: nat, a: nat)
    requires a % NPTENTRIES == 0 && a / NPTENTRIES !in TablesOf(tables, s)
    ensures forall pn: nat :: a <= pn < a + NPTENTRIES ==> Lookup(tables, s, pn) == None
  {
    forall pn: nat | a <= pn < a + NPTENTRIES ensures Lookup(tables, s, pn) == None {
      assert pn / NPTENTRIES == a / NPTENTRIES;
    }
  }

  /** What one turn of deallocuvm did: a page unmapped, or a table's worth of pages with none mapped
      passed over, or pages before the landing. */
  lemma Skipped(was: Was, mid: Was, now: Was, s: nat, a: nat, land: nat, hi: nat, next: nat, freed: bool)
    requires Freed(was, mid, s, land, a) && IsDir(was.uses, s) && SameDirs(was.uses, mid.uses) && a < hi && a < NPAGES
    requires TablesOf(mid.tables, s) == TablesOf(was.tables, s)
    requires next == a + if a / NPTENTRIES in TablesOf(mid.tables, s) then 1 else NPTENTRIES
    requires a / NPTENTRIES in TablesOf(mid.tables, s) ==> land <= a
    requires a / NPTENTRIES !in TablesOf(mid.tables, s) ==> if a % NPTENTRIES == 0 then land <= a else next <= land
    requires freed <==> Lookup(mid.tables, s, a).Pte?
    requires !freed ==> now == mid
    requires freed ==> SameBut(mid.tables, now.tables, mid.uses, s, a) && Lookup(now.tables, s, a) == None
    requires freed ==> now.free == [Lookup(mid.tables, s, a).frame] + mid.free
    requires freed ==>
      now.data == mid.data - {Lookup(mid.tables, s, a).frame} && now.uses == mid.uses - {Lookup(mid.tables, s, a).frame}
    ensures Freed(was, now, s, land, Least(next, hi))
  {
    if freed {
      FreedMore(was, mid, now, s, land, a);
    } else if a / NPTENTRIES in TablesOf(mid.tables, s) {
      assert Lookup(was.tables, s, a) == None;
      FreedSkip(was, mid, s, land, a, a + 1);
    } else {
      if a % NPTENTRIES == 0 {
        NoTable(was.tables, s, a);
      }
      FreedSkip(was, mid, s, land, a, Least(next, hi));
    }
  }

  lemma Cleared(tables: Tables, uses: Uses, free: seq<nat>, s: nat, pn: nat)
    requires Wf(tables, uses) && Pool(free, uses) && IsDir(uses, s) && Lookup(tables, s, pn).Pte?
    ensures var f := Lookup(tables, s, pn).frame;
      var tables' := SetEntry(tables, s, pn, None);
      && Wf(tables', uses - {f}) && Pool([f] + free, uses - {f}) && SameDirs(uses, uses - {f})
      && SameBut(tables, tables', uses, s, pn) && Lookup(tables', s, pn) == None
  {
    ClearWf(tables, uses, s, pn);
    LookupIn(tables, uses, s, pn);
    var tables' := SetEntry(tables, s, pn, None);
    SetEntryLookup(tables, uses, s, pn, None, s, pn);
    forall s': nat, pn': nat | IsDir(uses, s') && !(s' == s && pn' == pn)
      ensures Lookup(tables', s', pn') == Lookup(tables, s', pn') {
      SetEntryLookup(tables, uses, s, pn, None, s', pn');
    }
  }

  ghost predicate AllUnused(free: seq<nat>, uses: Uses, lo: nat, hi: nat) {
    forall f: nat :: lo <= f <= hi ==> Unused(free, uses, f)
  }

  lemma UnusedStill(free0: seq<nat>, free: seq<nat>, uses0: Uses, uses: Uses, f: nat)
    requires Unused(free0, uses0, f) && SubPool(free0, free) && Grew(uses0, uses, free0, 0)
    ensures Unused(free, uses, f)
  {
  }

  lemma EnteredUses(uses0: Uses, uses: Uses, free0: seq<nat>, data: map<nat, Data>, s: nat, pn: nat, f: nat)
    requires Grew(uses0, uses, free0, 0) && KeepsUses(uses0, uses) && HasData(uses, data) && f in data &&
      f !in uses && 0 !in uses
    requires OnlyNew(uses0, uses, s)
    ensures Grew(uses0, uses[f := Page(s, pn)], free0, f) && KeepsUses(uses0, uses[f := Page(s, pn)]) &&
      HasData(uses[f := Page(s, pn)], data)
    ensures OnlyNew(uses0, uses[f := Page(s, pn)], s)
  {
    forall g | g in uses[f := Page(s, pn)] ensures g in uses0 || g in free0 || g == f {
      assert g == f || g in uses;
    }
  }

  /** Entering an unused frame, after the walk that made its page table. */
  lemma Entered(tables0: Tables, uses0: Uses, tables: Tables, uses: Uses, free: seq<nat>, s: nat, pn: nat, f: nat,
      flags: nat)
    requires Wf(tables, uses) && Pool(free, uses) && IsDir(uses, s) && HasTable(tables, s, pn) &&
      Lookup(tables, s, pn) == None && Unused(free, uses, f)
    requires SameMaps(tables0, tables, uses0) && SameDirs(uses0, uses)
    ensures Wf(SetEntry(tables, s, pn, Pte(f, flags)), uses[f := Page(s, pn)]) && Pool(free, uses[f := Page(s, pn)])
    ensures SameBut(tables0, SetEntry(tables, s, pn, Pte(f, flags)), uses0, s, pn) &&
      SameDirs(uses0, uses[f := Page(s, pn)])
    ensures Lookup(SetEntry(tables, s, pn, Pte(f, flags)), s, pn) == Pte(f, flags)
  {
    EnterWf(tables, uses, s, pn, f, flags);
    var tables' := SetEntry(tables, s, pn, Pte(f, flags));
    SetEntryLookup(tables, uses, s, pn, Pte(f, flags), s, pn);
    forall s': nat, pn': nat | IsDir(uses0, s') && !(s' == s && pn' == pn)
      ensures Lookup(tables', s', pn') == Lookup(tables0, s', pn') {
      SetEntryLookup(tables, uses, s, pn, Pte(f, flags), s', pn');
    }
  }

  ghost predicate SameOutside(tables: Tables, tables': Tables, uses: Uses, s: nat, lo: nat, hi: nat) {
    forall s': nat, pn: nat :: IsDir(uses, s') && !(s' == s && lo <= pn < hi) ==>
      Lookup(tables', s', pn) == Lookup(tables, s', pn)
  }

  ghost predicate InOrder(tables: Tables, s: nat, lo: nat, hi: nat, f0: nat, flags: nat) {
    forall pn: nat :: lo <= pn < hi ==> Lookup(tables, s, pn) == Pte(f0 + (pn - lo), flags)
  }

  /** What mappages is to map: pages first .. last to frames from f0 on. */
  datatype Range = Range(first: nat, last: nat, f0: nat, flags: nat)

  ghost predicate Waiting(w: Was, run: Range, pn: nat)
    requires run.first <= pn
  {
    Unused(w.free, w.uses, run.f0 + (pn - run.first)) && run.f0 + (pn - run.first) in w.data
  }

  /** The frames for the pages from a on are there and in no use. */
  ghost predicate StillToMap(w: Was, run: Range, a: nat) {
    forall pn: nat :: a <= pn <= run.last && run.first <= pn ==> Waiting(w, run, pn)
  }

  /** The states with the pages below a mapped, since `was`. */
  ghost function MappedTo(was: Was, s: nat, run: Range, a: nat): iset<Was> {
    iset w: Was | Good(w) && IsDir(was.uses, s) && SameDirs(was.uses, w.uses) && SubPool(was.free, w.free)
      && SameOutside(was.tables, w.tables, was.uses, s, run.first, a)
      && InOrder(w.tables, s, run.first, a, run.f0, run.flags) && StillToMap(w, run, a)
  }

  lemma NoneMapped(was: Was, s: nat, run: Range)
    requires Good(was) && IsDir(was.uses, s) && run.first <= run.last
    requires AllUnused(was.free, was.uses, run.f0, run.f0 + (run.last - run.first))
    requires forall f: nat :: run.f0 <= f <= run.f0 + (run.last - run.first) ==> f in was.data
    ensures was in MappedTo(was, s, run, run.first)
  {
  }

  lemma MappedReady(was: Was, now: Was, s: nat, run: Range, a: nat, f: nat)
    requires now in MappedTo(was, s, run, a) && run.first <= a <= run.last && f == run.f0 + (a - run.first)
    ensures Good(now) && IsDir(now.uses, s) && Unused(now.free, now.uses, f) && f in now.data
    ensures Lookup(now.tables, s, a) == Lookup(was.tables, s, a)
  {
    assert Waiting(now, run, a);
  }

  lemma StillWaiting(mid: Was, now: Was, run: Range, a: nat, mapped: bool)
    requires StillToMap(mid, run, a) && run.first <= a && now.data == mid.data && SubPool(mid.free, now.free)
    requires Grew(mid.uses, now.uses, mid.free, if mapped then run.f0 + (a - run.first) else 0)
    ensures StillToMap(now, run, if mapped then a + 1 else a)
  {
    forall pn: nat | (if mapped then a + 1 else a) <= pn <= run.last ensures Waiting(now, run, pn) {
      assert Waiting(mid, run, pn);
    }
  }

  /** One turn of mappages, after the pages lo .. a - 1. */
  lemma MapTurn(tables: Tables, tables1: Tables, tables2: Tables, uses: Uses, uses1: Uses, s: nat, lo: nat, a: nat,
      f0: nat, flags: nat, mapped: bool)
    requires SameOutside(tables, tables1, uses, s, lo, a) && InOrder(tables1, s, lo, a, f0, flags)
    requires SameBut(tables1, tables2, uses1, s, a) && SameDirs(uses, uses1) && lo <= a && IsDir(uses, s)
    requires Lookup(tables2, s, a) == if mapped then Pte(f0 + (a - lo), flags) else Lookup(tables1, s, a)
    ensures SameOutside(tables, tables2, uses, s, lo, if mapped then a + 1 else a)
    ensures InOrder(tables2, s, lo, if mapped then a + 1 else a, f0, flags)
    ensures Lookup(tables1, s, a) == Lookup(tables, s, a)
  {
    assert IsDir(uses1, s);
    forall s': nat, pn: nat | IsDir(uses, s') && !(s' == s && lo <= pn < (if mapped then a + 1 else a))
      ensures Lookup(tables2, s', pn) == Lookup(tables, s', pn)
    {
      assert IsDir(uses1, s');
    }
  }

  lemma MappedMore(was: Was, mid: Was, now: Was, s: nat, run: Range, a: nat, f: nat, flags: nat, mapped: bool)
    requires mid in MappedTo(was, s, run, a) && run.first <= a <= run.last && Good(now) && now.data == mid.data
    requires SameDirs(mid.uses, now.uses) && SubPool(mid.free, now.free) &&
      SameBut(mid.tables, now.tables, mid.uses, s, a)
    requires f == run.f0 + (a - run.first) && flags == run.flags
    requires Lookup(now.tables, s, a) == if mapped then Pte(f, flags) else Lookup(mid.tables, s, a)
    requires Grew(mid.uses, now.uses, mid.free, if mapped then f else 0)
    ensures now in MappedTo(was, s, run, if mapped then a + 1 else a)
  {
    SubPoolMore(was.free, mid.free, now.free);
    MapTurn(was.tables, mid.tables, now.tables, was.uses, mid.uses, s, run.first, a, run.f0, run.flags, mapped);
    StillWaiting(mid, now, run, a, mapped);
  }

  lemma MappedFacts(was: Was, now: Was, s: nat, run: Range, a: nat)
    requires now in MappedTo(was, s, run, a)
    ensures Good(now) && SameDirs(was.uses, now.uses) && SubPool(was.free, now.free)
    ensures SameOutside(was.tables, now.tables, was.uses, s, run.first, a)
    ensures InOrder(now.tables, s, run.first, a, run.f0, run.flags)
  {
  }

  class Memory {
    var free: seq<nat>             // kmem.freelist
    var tables: Tables
    var data: map<nat, Data>
    ghost var uses: Uses

    constructor (frames: seq<nat>)
      requires Distinct(frames) && forall i :: 0 <= i < |frames| ==> frames[i] > 0
      ensures Valid() && free == frames && uses == map[]
    {
      free, tables, data := frames, map[], map[];
      uses := map[];
    }

    ghost predicate Valid()
      reads this
    {
      Wf(tables, uses) && Pool(free, uses) && HasData(uses, data)
    }

    ghost function Now(): (w: Was)
      reads this
    {
      Was(tables, uses, free, data)
    }

    /** kalloc */
    method Kalloc() returns (f: nat)
      modifies this`free
      ensures old(free) == [] ==> f == 0 && free == []
      ensures old(free) != [] ==> f == old(free)[0] && free == old(free)[1..]
    {
      if free == [] {
        return 0;
      }
      f := free[0];
      free := free[1..];
    }

    /** kfree: the frame goes to the head of the list, its contents are lost. */
    method Kfree(f: nat)
      modifies this`free, this`data
      ensures free == [f] + old(free) && data == old(data) - {f}
    {
      data := data - {f};
      free := [f] + free;
    }

    /** walkpgdir: finds the page table of pn, and makes one if asked to; no mapping changes. */
    method Walk(s: nat, pn: nat, alloc: bool) returns (found: bool)
      requires Valid() && IsDir(uses, s) && pn < NPAGES
      modifies this`free, this`tables, this`uses
      ensures Valid() && IsDir(uses, s) && SameMaps(old(tables), tables, old(uses)) && SameDirs(old(uses), uses)
      ensures found <==> HasTable(tables, s, pn)
      ensures !found ==> !alloc || old(free) == []
      ensures NewTables(old(tables), tables, s, pn, alloc && found)
      ensures |old(free)| - |free| == if alloc && found && !old(HasTable(tables, s, pn)) then 1 else 0
      ensures Accounted(old(free), free, uses, s, 0)
      ensures old(HasTable(tables, s, pn)) || !alloc ==> free == old(free) && tables == old(tables) && uses == old(uses)
      ensures SubPool(old(free), free) && Grew(old(uses), uses, old(free), 0) && KeepsUses(old(uses), uses) &&
        OnlyNew(old(uses), uses, s)
    {
      var i := pn / NPTENTRIES;
      assert s in tables;
      if tables[s][i].Pte? {
        return true;
      }
      if !alloc {
        return false;
      }
      ghost var free0 := free;
      var f := Kalloc();
      if f == 0 {
        return false;
      }
      assert f == free0[0] && f !in uses;
      AddTableWf(tables, uses, s, i, f);
      forall s': nat, pn': nat | IsDir(uses, s')
        ensures Lookup(AddTable(tables, s, i, f), s', pn') == Lookup(tables, s', pn') {
        AddTableSame(tables, uses, s, i, f, s', pn');
      }
      tables := AddTable(tables, s, i, f);
      uses := uses[f := Table(s, i)];
      found := true;
    }

    /** One turn of mappages. */
    method MapPage(s: nat, pn: nat, f: nat, flags: nat) returns (r: Mapping)
      requires Valid() && IsDir(uses, s) && pn < NPAGES && Unused(free, uses, f) && f in data
      modifies this`free, this`tables, this`uses
      ensures Valid() && SameDirs(old(uses), uses) && SubPool(old(free), free)
      ensures SameBut(old(tables), tables, old(uses), s, pn)
      ensures Lookup(tables, s, pn) == if r == Mapped then Pte(f, flags) else old(Lookup(tables, s, pn))
      ensures r == Remap <==> old(Lookup(tables, s, pn)).Pte?
      ensures r == NoMemory <==> !old(HasTable(tables, s, pn)) && old(free) == []
      ensures NewTables(old(tables), tables, s, pn, r != NoMemory)
      ensures |old(free)| - |free| == if r != NoMemory && !old(HasTable(tables, s, pn)) then 1 else 0
      ensures Accounted(old(free), free, uses, s, 0) && (r == Mapped ==> OfSpace(uses, f, s))
      ensures Grew(old(uses), uses, old(free), if r == Mapped then f else 0) && KeepsUses(old(uses), uses) &&
        OnlyNew(old(uses), uses, s)
    {
      var found := Walk(s, pn, true);
      if !found {
        return NoMemory;
      }
      if Lookup(tables, s, pn).Pte? {
        return Remap;
      }
      UnusedStill(old(free), free, old(uses), uses, f);
      Entered(old(tables), old(uses), tables, uses, free, s, pn, f, flags);
      EnteredUses(old(uses), uses, old(free), data, s, pn, f);
      SameTables(tables, uses, s, pn, Pte(f, flags));
      tables := SetEntry(tables, s, pn, Pte(f, flags));
      uses := uses[f := Page(s, pn)];
      r := Mapped;
    }

    /** mappages: maps its own pages to consecutive frames and changes no other page. */
    method MapPages(s: nat, va: nat, size: nat, f0: nat, flags: nat) returns (r: Mapping, ghost upto: nat)
      requires Valid() && IsDir(uses, s) && size > 0 && (va + size - 1) / PGSIZE < NPAGES
      requires AllUnused(free, uses, f0, f0 + (va + size - 1) / PGSIZE - va / PGSIZE)
      requires forall f: nat :: f0 <= f <= f0 + (va + size - 1) / PGSIZE - va / PGSIZE ==> f in data
      modifies this`free, this`tables, this`uses
      ensures Valid() && SameDirs(old(uses), uses) && SubPool(old(free), free)
      ensures SameOutside(old(tables), tables, old(uses), s, va / PGSIZE, upto)
      ensures InOrder(tables, s, va / PGSIZE, upto, f0, flags)
      ensures va / PGSIZE <= upto && if r == Mapped then upto == (va + size - 1) / PGSIZE + 1
                                     else upto <= (va + size - 1) / PGSIZE
      ensures r == NoMemory ==> free == []
      ensures r == Remap ==> old(Lookup(tables, s, upto)).Pte?
    {
      r, upto := MapRange(s, va / PGSIZE, (va + size - 1) / PGSIZE, f0, flags);
    }

    /** The loop of mappages. */
    method MapRange(s: nat, first: nat, last: nat, f0: nat, flags: nat) returns (r: Mapping, ghost upto: nat)
      requires Valid() && IsDir(uses, s) && first <= last < NPAGES && AllUnused(free, uses, f0, f0 + last - first)
      requires forall f: nat :: f0 <= f <= f0 + last - first ==> f in data
      modifies this`free, this`tables, this`uses
      ensures Valid() && SameDirs(old(uses), uses) && SubPool(old(free), free)
      ensures SameOutside(old(tables), tables, old(uses), s, first, upto) && InOrder(tables, s, first, upto, f0, flags)
      ensures first <= upto && if r == Mapped then upto == last + 1 else upto <= last
      ensures r == NoMemory ==> free == []
      ensures r == Remap ==> old(Lookup(tables, s, upto)).Pte?
    {
      ghost var was, run := Now(), Range(first, last, f0, flags);
      NoneMapped(was, s, run);
      var a, pa := first, f0;
      upto := a;
      r := MapStep(s, a, pa, flags, was, run);
      while r == Mapped && a != last
        invariant first <= a <= last && pa == f0 + (a - first) && upto == a
        invariant Now() in MappedTo(was, s, run, if r == Mapped then a + 1 else a)
        invariant r == NoMemory ==> free == []
        invariant r == Remap ==> Lookup(was.tables, s, a).Pte?
        decreases last - a
      {
        a, pa := a + 1, pa + 1;
        upto := a;
        r := MapStep(s, a, pa, flags, was, run);
      }
      if r == Mapped {
        upto := a + 1;
      }
      MappedFacts(was, Now(), s, run, upto);
    }

    /** What the loop needs to know of one turn. */
    method MapOne(s: nat, a: nat, f: nat, flags: nat, ghost mid: Was) returns (r: Mapping)
      requires Good(mid) && mid == Now() && IsDir(uses, s) && a < NPAGES && Unused(free, uses, f) && f in data
      modifies this`free, this`tables, this`uses
      ensures Good(Now()) && SameDirs(mid.uses, uses) && SubPool(mid.free, free) && data == mid.data
      ensures SameBut(mid.tables, tables, mid.uses, s, a) &&
        Grew(mid.uses, uses, mid.free, if r == Mapped then f else 0)
      ensures Lookup(tables, s, a) == if r == Mapped then Pte(f, flags) else Lookup(mid.tables, s, a)
      ensures r == Remap ==> Lookup(mid.tables, s, a).Pte?
      ensures r == NoMemory ==> free == []
    {
      r := MapPage(s, a, f, flags);
    }

    /** One turn of the loop of mappages. */
    method MapStep(s: nat, a: nat, pa: nat, flags: nat, ghost was: Was, ghost run: Range) returns (r: Mapping)
      requires Now() in MappedTo(was, s, run, a) && run.first <= a <= run.last < NPAGES
      requires pa == run.f0 + (a - run.first) && flags == run.flags
      modifies this`free, this`tables, this`uses
      ensures Now() in MappedTo(was, s, run, if r == Mapped then a + 1 else a)
      ensures r == NoMemory ==> free == []
      ensures r == Remap ==> Lookup(was.tables, s, a).Pte?
    {
      ghost var mid := Now();
      MappedReady(was, mid, s, run, a, pa);
      r := MapOne(s, a, pa, flags, mid);
      MappedMore(was, mid, Now(), s, run, a, pa, flags, r == Mapped);
    }

    /** One turn of deallocuvm: a mapped page is unmapped and its frame freed. */
    method UnmapPage(s: nat, pn: nat)
      requires Valid() && IsDir(uses, s) && Lookup(tables, s, pn).Pte?
      modifies this`free, this`tables, this`data, this`uses
      ensures Valid() && SameDirs(old(uses), uses) && SameBut(old(tables), tables, old(uses), s, pn) &&
        Lookup(tables, s, pn) == None
      ensures free == [old(Lookup(tables, s, pn)).frame] + old(free) &&
        data == old(data) - {old(Lookup(tables, s, pn)).frame}
      ensures uses == old(uses) - {old(Lookup(tables, s, pn)).frame}
      ensures TablesOf(tables, s) == TablesOf(old(tables), s)
    {
      var f := Lookup(tables, s, pn).frame;
      Cleared(tables, uses, free, s, pn);
      SameTables(tables, uses, s, pn, None);
      Kfree(f);
      tables := SetEntry(tables, s, pn, None);
      uses := uses - {f};
    }

    /** One turn of deallocuvm's loop: where there is no page table it skips a table's worth of pages. */
    method Dealloc(s: nat, a: nat) returns (next: nat, freed: bool)
      requires Valid() && IsDir(uses, s) && a < NPAGES
      modifies this`free, this`tables, this`data, this`uses
      ensures Valid() && SameDirs(old(uses), uses)
      ensures freed <==> old(Lookup(tables, s, a)).Pte?
      ensures a < next && (freed ==> next == a + 1)
      ensures !freed ==> free == old(free) && tables == old(tables) && data == old(data)
      ensures freed ==> SameBut(old(tables), tables, old(uses), s, a) && Lookup(tables, s, a) == None
      ensures freed ==>
        free == [old(Lookup(tables, s, a)).frame] + old(free) && data == old(data) - {old(Lookup(tables, s, a)).frame}
      ensures uses == if freed then old(uses) - {old(Lookup(tables, s, a)).frame} else old(uses)
      ensures TablesOf(tables, s) == TablesOf(old(tables), s)
      ensures next == a + if old(HasTable(tables, s, a)) then 1 else NPTENTRIES
    {
      var found := Walk(s, a, false);
      freed := false;
      next := a;
      if !found {
        next := a + (NPTENTRIES - 1);
      } else if Lookup(tables, s, a).Pte? {
        UnmapPage(s, a);
        freed := true;
      }
      next := next + 1;
    }

    /** The same turn, with the pages land .. a - 1, up to hi, unmapped so far. */
    method DeallocTurn(s: nat, a: nat, ghost was: Was, ghost land: nat, ghost hi: nat) returns (next: nat)
      requires Valid() && IsDir(uses, s) && a < NPAGES && a < hi && a <= Most(land, NPAGES)
      requires IsDir(was.uses, s) && SameDirs(was.uses, uses) && Freed(was, Now(), s, land, a)
      requires TablesOf(tables, s) == TablesOf(was.tables, s) && Landing(TablesOf(tables, s), a) == Most(land, a)
      modifies this`free, this`tables, this`data, this`uses
      ensures Valid() && SameDirs(was.uses, uses) && a < next <= Most(land, NPAGES)
      ensures Freed(was, Now(), s, land, Least(next, hi))
      ensures TablesOf(tables, s) == TablesOf(was.tables, s) && Landing(TablesOf(tables, s), next) == Most(land, next)
    {
      ghost var mid := Now();
      var freed;
      next, freed := Dealloc(s, a);
      assert HasTable(mid.tables, s, a) <==> a / NPTENTRIES in TablesOf(mid.tables, s);
      LandingNext(TablesOf(tables, s), land, a, next);
      Skipped(was, mid, Now(), s, a, land, hi, next, freed);
    }

    /** deallocuvm: the pages from newsz to oldsz are unmapped and each of their frames is freed once,
        but for those before its landing.  There is no test against the end of user space, so it may
        stray to the backpointers and take one for a page table. */
    method DeallocUvm(s: nat, oldsz: nat, newsz: nat) returns (r: nat, strays: bool)
      requires Valid() && IsDir(uses, s)
      modifies this`free, this`tables, this`data, this`uses
      ensures strays <==>
        newsz < oldsz && Most(Landing(TablesOf(old(tables), s), PagesOf(newsz)), NPAGES) < PagesOf(oldsz)
      ensures !strays ==> r == if newsz >= oldsz then oldsz else newsz
      ensures Valid() && SameDirs(old(uses), uses)
      ensures newsz >= oldsz ==> free == old(free) && tables == old(tables) && data == old(data)
      ensures newsz < oldsz && !strays ==>
        Freed(old(Now()), Now(), s, Landing(TablesOf(old(tables), s), PagesOf(newsz)), PagesOf(oldsz))
    {
      strays := false;
      if newsz >= oldsz {
        return oldsz, false;
      }
      var a := PagesOf(newsz);
      r := newsz;
      ghost var was, hi := Now(), PagesOf(oldsz);
      ghost var land := Landing(TablesOf(tables, s), a);
      assert Frames(tables, s, land, a) == [];
      while a < PagesOf(oldsz)
        invariant Valid() && IsDir(uses, s) && SameDirs(was.uses, uses) && Freed(was, Now(), s, land, Least(a, hi))
        invariant TablesOf(tables, s) == TablesOf(was.tables, s) && Landing(TablesOf(tables, s), a) == Most(land, a)
        invariant a <= Most(land, NPAGES)
        decreases PagesOf(oldsz) - a
      {
        if a >= NPAGES {
          return r, true;
        }
        a := DeallocTurn(s, a, was, land, hi);
      }
    }

    /** setupkvm: a new space without user pages.  kalloc's results are not tested, so with fewer
        than three free frames it stores through a null pointer. */
    method SetupKvm() returns (d: nat, nullStore: bool)
      requires Valid()
      modifies this`free, this`tables, this`uses
      ensures nullStore <==> |old(free)| < 3
      ensures !nullStore ==>
        Valid() && d == old(free)[2] && d !in old(uses) && free == old(free)[3..] && uses == old(uses)[d := Directory]
      ensures !nullStore ==>
        Unmapped(tables, d) && SameMaps(old(tables), tables, old(uses)) && TablesOf(tables, d) == Below(0)
      ensures !nullStore ==>
        Entry(tables, d, 511) == Pte(old(free)[0], 1) && Entry(tables, d, 510) == Pte(old(free)[1], 1)
    {
      var pml4 := Kalloc();
      var pdpt := Kalloc();
      d := Kalloc();
      if pml4 == 0 || pdpt == 0 || d == 0 {
        return 0, true;
      }
      assert d == old(free)[2] && free == old(free)[3..];
      NewSpaceWf(tables, uses, d, NewDir(pml4, pdpt));
      tables := tables[d := NewDir(pml4, pdpt)];
      uses := uses[d := Directory];
      nullStore := false;
    }

    /** freevm's loop over the directory. */
    method FreeTables(s: nat) returns (gone: set<nat>)
      requires Valid() && IsDir(uses, s)
      modifies this`free
      ensures Distinct(free)
      ensures forall f: nat :: f in free <==> f in old(free) || f in gone
      ensures forall f: nat :: f in gone <==> TableOf(uses, f, s, NUSER)
    {
      gone := {};
      var i := 0;
      while i < NPDENTRIES - 2
        invariant 0 <= i <= NUSER && Distinct(free)
        invariant forall f: nat :: f in free <==> f in old(free) || f in gone
        invariant forall f: nat :: f in gone <==> TableOf(uses, f, s, i)
      {
        TableNext(tables, uses, s, i);
        if tables[s][i].Pte? {
          ghost var free1 := free;
          var f := tables[s][i].frame;
          free := [f] + free;
          gone := gone + {f};
          assert forall g: nat :: g in free <==> g == f || g in free1;
        }
        i := i + 1;
      }
    }

    /** The end of freevm: page tables and directory of a space without pages. */
    method DropSpace(s: nat)
      requires Valid() && IsDir(uses, s) && Unmapped(tables, s)
      modifies this`free, this`tables, this`uses
      ensures Valid() && uses == Without(old(uses), s)
      ensures SameElsewhere(old(tables), tables, old(uses), s)
      ensures forall f: nat :: f in free <==> f in old(free) || f == s || TableOf(old(uses), f, s, NUSER)
    {
      var gone := FreeTables(s);
      Dropped(tables, uses, s, gone);
      PoolDropped(old(free), free, uses, s, gone);
      ghost var free1 := free;
      tables := tables - (gone + {s});
      uses := Without(uses, s);
      free := [s] + free;
      assert forall f: nat :: f in free <==> f == s || f in free1;
    }

    /** freevm: all frames of the space, but for its two upper-level pages, are free again,
        each once, and no other space changes. */
    method FreeVm(s: nat)
      requires Valid() && IsDir(uses, s) && Vacant(tables, s, UPAGES)
      modifies this`free, this`tables, this`data, this`uses
      ensures Valid() && SpaceFreed(old(Now()), Now(), s)
    {
      EmptySpace(s);
      ghost var mid := Now();
      DropSpace(s);
      FreedSpace(old(Now()), mid, Now(), s, UPAGES);
    }

    /** deallocuvm of the whole space. */
    method EmptySpace(s: nat)
      requires Valid() && IsDir(uses, s) && Vacant(tables, s, UPAGES)
      modifies this`free, this`tables, this`data, this`uses
      ensures Valid() && IsDir(uses, s) && SameDirs(old(uses), uses) && Unmapped(tables, s) &&
        Freed(old(Now()), Now(), s, 0, UPAGES)
    {
      WholeSpace();
      var r, strays := DeallocUvm(s, 0x3fa00000, 0);
      AllUnmapped(old(tables), tables, old(uses), s);
    }

    /** A new frame with the contents of frame f, as kalloc and memmove make it. */
    method CopyFrame(f: nat) returns (mem: nat)
      requires Valid() && f in uses && f in data
      modifies this`free, this`data
      ensures Valid() && SubPool(old(free), free) && KeepsData(old(data), data, old(free))
      ensures mem == 0 <==> old(free) == []
      ensures mem != 0 ==> |free| == |old(free)| - 1
      ensures mem != 0 ==> mem in old(free) && Unused(free, uses, mem) && mem in data && data[mem] == old(data)[f]
    {
      mem := Kalloc();
      if mem != 0 {
        TookHead(old(free), uses);
        data := data[mem := data[f]];
      }
    }

    /** One turn of copyuvm: page pn of d becomes a copy of page pn of s; a frame that could not
        be mapped is lost. */
    method CopyPage(s: nat, d: nat, pn: nat) returns (ok: bool, ghost lost: nat)
      requires Valid() && IsDir(uses, s) && IsDir(uses, d) && s != d && pn < NPAGES
      requires Lookup(tables, s, pn).Pte? && Lookup(tables, d, pn) == None
      modifies this`free, this`tables, this`data, this`uses
      ensures Valid() && Turned(old(Now()), Now(), s, d, pn, ok) && Accounted(old(free), free, uses, d, lost)
      ensures ok <==> |old(free)| >= Takes(old(tables), d, pn)
      ensures ok ==> |free| == |old(free)| - Takes(old(tables), d, pn) && NewTables(old(tables), tables, d, pn, true)
      ensures !ok ==> free == [] && lost == (if old(free) == [] then 0 else old(free)[0]) && lost !in uses
      ensures ok ==> lost == 0
    {
      var e := Lookup(tables, s, pn);
      LookupIn(tables, uses, s, pn);
      ghost var free0 := free;
      var mem := CopyFrame(e.frame);
      if mem == 0 {
        return false, 0;
      }
      ghost var mid := Now();
      ok := EnterCopy(d, pn, mem, e.flags, free0);
      lost := if ok then 0 else mem;
      PageTurned(old(Now()), mid, Now(), s, d, pn, e, mem, ok);
    }

    /** The mapping of a copied frame. */
    method EnterCopy(d: nat, pn: nat, mem: nat, flags: nat, ghost free0: seq<nat>) returns (ok: bool)
      requires Valid() && IsDir(uses, d) && pn < NPAGES && Unused(free, uses, mem) && mem in data &&
        Lookup(tables, d, pn) == None
      requires SubPool(free0, free) && |free0| == |free| + 1 && free0[0] == mem
      modifies this`free, this`tables, this`uses
      ensures Valid() && SameDirs(old(uses), uses) && SubPool(free0, free) &&
        SameBut(old(tables), tables, old(uses), d, pn)
      ensures Lookup(tables, d, pn) == if ok then Pte(mem, flags) else None
      ensures Grew(old(uses), uses, old(free), if ok then mem else 0) && KeepsUses(old(uses), uses) &&
        OnlyNew(old(uses), uses, d)
      ensures Accounted(free0, free, uses, d, if ok then 0 else mem)
      ensures ok <==> |free0| >= Takes(old(tables), d, pn)
      ensures ok ==> |free| == |free0| - Takes(old(tables), d, pn) && NewTables(old(tables), tables, d, pn, true)
      ensures !ok ==> free == [] && mem !in uses
    {
      ghost var free1, left, takes := free, |free0|, Takes(tables, d, pn);
      var r := MapPage(d, pn, mem, flags);
      SubPoolMore(free0, free1, free);
      HeadAccounted(free0, free1, free, uses, d, mem, r == Mapped);
      if r != Mapped {
        assert left == 1 && takes == 2;
        return false;
      }
      assert |free| == left - takes && left >= takes;
      return true;
    }

    /** The loop of copyuvm, which panics at a page of s that is not there. */
    method CopyPages(s: nat, d: nat, npages: nat, ghost n: nat, ghost was: Was) returns (ok: bool, panics: bool, i: nat,
        ghost lost: nat)
      requires was in Sharing(s, n) && Now() in Copying(was, Now(), s, d, 0)
      modifies this`free, this`tables, this`data, this`uses
      ensures Now() in CopyLoop(was, old(Now()), s, d, i, n, ok, lost) && i <= n
      ensures panics ==> ok && i == n < npages
      ensures !panics ==> i <= npages && (ok <==> i == npages)
    {
      ok, panics, i, lost := true, false, 0, 0;
      while ok && i < npages
        invariant i <= npages && i <= n && (!ok ==> i < npages) &&
          Now() in CopyLoop(was, old(Now()), s, d, i, n, ok, lost)
        decreases npages - i, ok
      {
        SourcePage(was, old(Now()), Now(), s, d, i, n);
        if Lookup(tables, s, i) == None {
          panics := true;
          return;
        }
        ok, i, lost := CopyTurn(s, d, i, n, was, old(Now()));
      }
    }

    /** One turn of the loop, with i pages copied since `was`. */
    method CopyTurn(s: nat, d: nat, i: nat, ghost n: nat, ghost was: Was, ghost mid: Was)
      returns (ok: bool, i': nat, ghost lost: nat)
      requires was in Sharing(s, n) && i < n && Now() in CopyLoop(was, mid, s, d, i, n, true, 0)
      modifies this`free, this`tables, this`data, this`uses
      ensures Now() in CopyLoop(was, mid, s, d, i', n, ok, lost) && i' == if ok then i + 1 else i
    {
      ghost var now := Now();
      CopyReady(was, mid, now, s, d, i, n);
      ok, lost := CopyPage(s, d, i);
      i' := if ok then i + 1 else i;
      CopyTurned(was, mid, now, Now(), s, d, i, n, ok, lost);
    }

    /** copyuvm: panics exactly when sz is more than s has mapped and the frames last that far, and
        otherwise succeeds exactly when there are enough frames.  The copy has the same contents and
        flags in frames of its own, taken from the free list; the parent, and every other space, is
        unchanged.  On failure all frames are free again but for the two upper-level pages and a
        frame whose mapping failed. */
    method CopyUvm(s: nat, sz: nat, ghost n: nat) returns (d: nat, nullStore: bool, panics: bool)
      requires Valid() && IsDir(uses, s) && FirstGap(tables, s, n) && n <= UPAGES
      modifies this`free, this`tables, this`data, this`uses
      ensures nullStore <==> |old(free)| < 3
      ensures panics <==> PagesOf(sz) > n && |old(free)| >= 3 + FramesFor(n)
      ensures !nullStore && !panics ==>
        Valid() && SameMaps(old(tables), tables, old(uses)) && KeepsUses(old(uses), uses)
      ensures !nullStore && !panics ==> (d != 0 <==> |old(free)| >= 3 + FramesFor(PagesOf(sz)))
      ensures !nullStore && !panics && d != 0 ==>
        !IsDir(old(uses), d) && IsDir(uses, d) && Copied(old(Now()), Now(), s, d, PagesOf(sz))
      ensures !nullStore && !panics && d != 0 ==> |free| == |old(free)| - 3 - FramesFor(PagesOf(sz))
      ensures !nullStore && !panics && d == 0 ==> forall f :: f in uses ==> f in old(uses)
      ensures !nullStore && !panics && d == 0 ==>
        Regained(old(free), free, LosesLast(|old(free)| - 3, PagesOf(sz)))
    {
      ghost var was := Now();
      panics := false;
      d, nullStore := SetupKvm();
      if nullStore {
        return;
      }
      ghost var mid := Now();
      StartsCopying(was, mid, s, d, n);
      var ok; ghost var lost;
      ok, panics, lost := CopyInto(s, d, PagesOf(sz), n, was);
      if panics {
        return;
      }
      if !ok {
        BackInPool(was.free, free, d, lost, LosesLast(|was.free| - 3, PagesOf(sz)));
        d := 0;
      }
    }

    /** The pages of s are copied to the new space d, or d is given up. */
    method CopyInto(s: nat, d: nat, npages: nat, ghost n: nat, ghost was: Was)
      returns (ok: bool, panics: bool, ghost lost: nat)
      requires was in Sharing(s, n) && !IsDir(was.uses, d) && Now() in Copying(was, Now(), s, d, 0)
      modifies this`free, this`tables, this`data, this`uses
      ensures panics <==> npages > n && |old(free)| >= FramesFor(n)
      ensures !panics ==> Valid() && SameMaps(was.tables, tables, was.uses) && KeepsUses(was.uses, uses)
      ensures !panics ==> (ok <==> |old(free)| >= FramesFor(npages))
      ensures !panics && ok ==>
        IsDir(uses, d) && Copied(was, Now(), s, d, npages) && |free| == |old(free)| - FramesFor(npages)
      ensures !panics && !ok ==> forall f :: f in uses ==> f in was.uses
      ensures !panics && !ok ==> forall f: nat :: f in free <==> (f in old(free) || f == d) && f != lost
      ensures !panics && !ok ==> lost == if LosesLast(|old(free)|, npages) then old(free)[|old(free)| - 1] else 0
    {
      var done;
      ghost var mid := Now();
      ok, panics, done, lost := CopyPages(s, d, npages, n, was);
      if ok {
        CopyKept(was, mid, Now(), s, d, done);
        return;
      }
      GiveUp(s, d, done, npages, n, was, mid, lost);
    }

    /** The way out of copyuvm. */
    method GiveUp(s: nat, d: nat, done: nat, npages: nat, ghost n: nat, ghost was: Was, ghost mid: Was, ghost lost: nat)
      requires Good(was) && !IsDir(was.uses, d) && done < npages && done < n <= UPAGES &&
        Now() in GaveUp(was, mid, s, d, done, lost)
      modifies this`free, this`tables, this`data, this`uses
      ensures Valid() && Returned(was, mid, Now(), d, npages, lost) && |mid.free| < FramesFor(n)
    {
      ghost var now := Now();
      StopKept(was, mid, now, s, d, done, lost);
      FreeVm(d);
      AllReturned(was, mid, now, Now(), s, d, done, npages, lost);
      WhichLost(|mid.free|, n, done);
    }
  }

  // ---- copyuvm, from state to state

  /** The case at its smallest: three frames for the directories and one for a page. */
  lemma FourFrames()
    ensures LosesLast(4 - 3, 1) && FramesFor(1) == 2
  {
    assert FramesFor(0) + 1 == 1 < FramesFor(0 + 1);
  }

  lemma {:induction false} FramesForPages(n: nat)
    ensures FramesFor(n) == n + (n + NPTENTRIES - 1) / NPTENTRIES
  {
    if n > 0 {
      FramesForPages(n - 1);
    }
  }

  /** The case at its smallest: two free frames. */
  method TwoFrames() returns (nullStore: bool)
    ensures nullStore
  {
    var mem := new Memory([1, 2]);
    var d;
    d, nullStore := mem.SetupKvm();
  }

  /** deallocuvm unmaps all it should exactly if no page that it passes over is mapped. */
  lemma UnmapsExactly(was: Was, now: Was, s: nat, lo: nat, land: nat, hi: nat)
    requires Freed(was, now, s, land, hi) && lo <= land && IsDir(was.uses, s)
    ensures Unmaps(was.tables, now.tables, was.uses, s, lo, hi) <==>
      forall pn: nat :: lo <= pn < land && pn < hi ==> Lookup(was.tables, s, pn) == None
  {
    if Unmaps(was.tables, now.tables, was.uses, s, lo, hi) {
      forall pn: nat | lo <= pn < land && pn < hi ensures Lookup(was.tables, s, pn) == None {
        assert Lookup(now.tables, s, pn) == None;
      }
    }
  }

  /** It passes over none from the first page of a page table on, or where there is one: so from every
      page up to the first that is missing. */
  lemma LandsAtOnce(tables: Tables, s: nat, a: nat, n: nat)
    requires FirstGap(tables, s, n) && a <= n
    ensures n <= NPAGES && Landing(TablesOf(tables, s), a) == a
  {
    assert n > NPAGES ==> Lookup(tables, s, NPAGES).Pte?;
    if 0 < a <= n && a % NPTENTRIES != 0 {
      assert Lookup(tables, s, a - 1).Pte? && (a - 1) / NPTENTRIES == a / NPTENTRIES;
    }
  }

  /** A case: with no page table for the pages below 512, from page 1 it goes to page 513. */
  lemma PassesOver()
    ensures Landing({1}, 1) == 513
  {
    assert Landing({1}, 1 + NPTENTRIES) == 513;
  }
}
