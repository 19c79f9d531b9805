/** Two-level page tables and the frames they use (kernel/vm.c, kernel/kalloc.c).  Addresses
    are page numbers; a frame is a page of physical memory by its number. */
module PageMap {

  const NPDENTRIES: nat := 512
  const NPTENTRIES: nat := 512
  const NUSER: nat := 510          // the last two directory entries are backpointers
  const NPAGES: nat := 261120      // NUSER * NPTENTRIES

  datatype Pte = None | Pte(frame: nat, flags: nat)

  /** What a frame is used for: a page directory, the page table of a directory entry, or
      the page at a page number. */
  datatype Use = Directory | Table(s: nat, i: nat) | Page(s: nat, pn: nat)

  type Tables = map<nat, seq<Pte>>

  type Uses = map<nat, Use>

  /** Entry i of a table; None for what is not there. */
  function Entry(tables: Tables, f: nat, i: nat): (e: Pte) {
    if f in tables && i < |tables[f]| then tables[f][i] else None
  }

  /** What page number pn of the space with directory s maps to. */
  function Lookup(tables: Tables, s: nat, pn: nat): (e: Pte) {
    if pn < NPAGES && Entry(tables, s, pn / NPTENTRIES).Pte?
    then Entry(tables, Entry(tables, s, pn / NPTENTRIES).frame, pn % NPTENTRIES)
    else None
  }

  function PageAt(s: nat, i: nat, j: nat): (u: Use) {
    Page(s, i * NPTENTRIES + j)
  }

  predicate UsedAs(uses: Uses, f: nat, u: Use) {
    f in uses && uses[f] == u
  }

  ghost predicate EntriesOk(tables: Tables, uses: Uses, f: nat, s: nat, i: nat) {
    forall j: nat :: j < NPTENTRIES && Entry(tables, f, j).Pte? ==>
      UsedAs(uses, Entry(tables, f, j).frame, PageAt(s, i, j))
  }

  predicate IsDir(uses: Uses, s: nat) {
    s in uses && uses[s] == Directory
  }

  /** A frame is where its use says, and what it points to is used as it says. */
  ghost predicate UseOk(tables: Tables, uses: Uses, f: nat, u: Use) {
    match u
    case Directory => forall i :: 0 <= i < NUSER && Entry(tables, f, i).Pte? ==>
      UsedAs(uses, Entry(tables, f, i).frame, Table(f, i))
    case Table(s, i) =>
      && IsDir(uses, s) && i < NUSER && Entry(tables, s, i).Pte? && Entry(tables, s, i).frame == f
      && EntriesOk(tables, uses, f, s, i)
    case Page(s, pn) =>
      IsDir(uses, s) && pn < NPAGES && Lookup(tables, s, pn).Pte? && Lookup(tables, s, pn).frame == f
  }

  /** Every frame in use has one use, and the tables say the same. */
  ghost predicate Wf(tables: Tables, uses: Uses) {
    && (forall f :: f in tables <==> f in uses && !uses[f].Page?)
    && (forall f :: f in tables ==> |tables[f]| == NPTENTRIES)
    && (forall f :: f in uses ==> UseOk(tables, uses, f, uses[f]))
  }

  /** The spaces of `uses` map as before, but for page pn of s. */
  ghost predicate SameBut(tables: Tables, tables': Tables, uses: Uses, s: nat, pn: nat) {
    forall s': nat, pn': nat :: IsDir(uses, s') && !(s' == s && pn' == pn) ==>
      Lookup(tables', s', pn') == Lookup(tables, s', pn')
  }

  ghost predicate SameMaps(tables: Tables, tables': Tables, uses: Uses) {
    forall s: nat, pn: nat :: IsDir(uses, s) ==> Lookup(tables', s, pn) == Lookup(tables, s, pn)
  }

  ghost predicate Unmapped(tables: Tables, s: nat) {
    forall pn: nat :: Lookup(tables, s, pn) == None
  }

  function Empty(): (es: seq<Pte>)
    ensures |es| == NPTENTRIES && forall i :: 0 <= i < NPTENTRIES ==> es[i] == None
  {
    seq(NPTENTRIES, _ => None)
  }

  // ---- A new page table

  function AddTable(tables: Tables, s: nat, i: nat, f: nat): (r: Tables)
    requires s in tables && i < |tables[s]|
  {
    tables[f := Empty()][s := tables[s][i := Pte(f, 7)]]
  }

  /** What a page maps to is used as that page. */
  lemma LookupIn(tables: Tables, uses: Uses, s: nat, pn: nat)
    requires Wf(tables, uses) && Lookup(tables, s, pn).Pte? && IsDir(uses, s)
    ensures UsedAs(uses, Lookup(tables, s, pn).frame, Page(s, pn))
  {
    var i, j := pn / NPTENTRIES, pn % NPTENTRIES;
    assert pn == i * NPTENTRIES + j;
    var t := Entry(tables, s, i).frame;
    assert UseOk(tables, uses, s, Directory);
    assert UsedAs(uses, t, Table(s, i));
    assert UseOk(tables, uses, t, Table(s, i));
  }

  lemma AddTableSame(tables: Tables, uses: Uses, s: nat, i: nat, f: nat, s': nat, pn: nat)
    requires Wf(tables, uses) && IsDir(uses, s) && i < NUSER && Entry(tables, s, i) == None && f !in uses
    requires IsDir(uses, s')
    ensures s in tables && Lookup(AddTable(tables, s, i, f), s', pn) == Lookup(tables, s', pn)
  {
    var tables' := AddTable(tables, s, i, f);
    if pn < NPAGES {
      var k := pn / NPTENTRIES;
      assert UseOk(tables, uses, s', Directory);
      if Entry(tables, s', k).Pte? {
        assert UsedAs(uses, Entry(tables, s', k).frame, Table(s', k));
      }
    }
  }

  lemma AddTableWf(tables: Tables, uses: Uses, s: nat, i: nat, f: nat)
    requires Wf(tables, uses) && IsDir(uses, s) && i < NUSER && Entry(tables, s, i) == None && f !in uses
    ensures s in tables && Wf(AddTable(tables, s, i, f), uses[f := Table(s, i)])
  {
    var tables', uses' := AddTable(tables, s, i, f), uses[f := Table(s, i)];
    forall g | g in uses' ensures UseOk(tables', uses', g, uses'[g]) {
      if g == f {
        assert forall j: nat :: j < NPTENTRIES ==> Entry(tables', f, j) == None;
      } else if uses[g].Page? {
        assert UseOk(tables, uses, g, uses[g]);
        AddTableSame(tables, uses, s, i, f, uses[g].s, uses[g].pn);
      } else {
        assert UseOk(tables, uses, g, uses[g]);
        assert uses[g].Table? ==> forall j: nat :: Entry(tables', g, j) == Entry(tables, g, j);
      }
    }
  }

  // ---- Setting and clearing an entry

  /** The tables with the entry of page pn replaced. */
  function SetEntry(tables: Tables, s: nat, pn: nat, e: Pte): (r: Tables) {
    var t := Entry(tables, s, pn / NPTENTRIES);
    if t.Pte? && t.frame in tables && pn % NPTENTRIES < |tables[t.frame]|
    then tables[t.frame := tables[t.frame][pn % NPTENTRIES := e]]
    else tables
  }

  ghost predicate HasTable(tables: Tables, s: nat, pn: nat) {
    pn < NPAGES && Entry(tables, s, pn / NPTENTRIES).Pte?
  }

  /** Replacing the entry of a page changes that page alone. */
  lemma SetEntryLookup(tables: Tables, uses: Uses, s: nat, pn: nat, e: Pte, s': nat, pn': nat)
    requires Wf(tables, uses) && IsDir(uses, s) && HasTable(tables, s, pn) && IsDir(uses, s')
    ensures Lookup(SetEntry(tables, s, pn, e), s', pn') == if s' == s && pn' == pn then e else Lookup(tables, s', pn')
  {
    var i := pn / NPTENTRIES;
    var t := Entry(tables, s, i).frame;
    assert UseOk(tables, uses, s, Directory) && UsedAs(uses, t, Table(s, i));
    if pn' < NPAGES {
      var i' := pn' / NPTENTRIES;
      assert UseOk(tables, uses, s', Directory);
      if Entry(tables, s', i').Pte? {
        assert UsedAs(uses, Entry(tables, s', i').frame, Table(s', i'));
        assert pn == i * NPTENTRIES + pn % NPTENTRIES && pn' == i' * NPTENTRIES + pn' % NPTENTRIES;
      }
    }
  }

  /** mappages enters a frame that was in no use. */
  lemma EnterWf(tables: Tables, uses: Uses, s: nat, pn: nat, f: nat, flags: nat)
    requires Wf(tables, uses) && IsDir(uses, s) && HasTable(tables, s, pn) && Lookup(tables, s, pn) == None &&
      f !in uses
    ensures Wf(SetEntry(tables, s, pn, Pte(f, flags)), uses[f := Page(s, pn)])
  {
    var tables', uses' := SetEntry(tables, s, pn, Pte(f, flags)), uses[f := Page(s, pn)];
    var i := pn / NPTENTRIES;
    var t := Entry(tables, s, i).frame;
    assert UseOk(tables, uses, s, Directory) && UsedAs(uses, t, Table(s, i));
    assert pn == i * NPTENTRIES + pn % NPTENTRIES;
    forall g | g in uses' ensures UseOk(tables', uses', g, uses'[g]) {
      if g == f {
        SetEntryLookup(tables, uses, s, pn, Pte(f, flags), s, pn);
      } else if uses[g].Page? {
        assert UseOk(tables, uses, g, uses[g]);
        SetEntryLookup(tables, uses, s, pn, Pte(f, flags), uses[g].s, uses[g].pn);
      } else {
        assert UseOk(tables, uses, g, uses[g]);
        assert forall j: nat :: Entry(tables', g, j) == if g == t &&
          j == pn % NPTENTRIES then Pte(f, flags) else Entry(tables, g, j);
      }
    }
  }

  /** No other table entry names the frame of a page. */
  lemma ClearOthers(tables: Tables, uses: Uses, s: nat, pn: nat, g: nat)
    requires Wf(tables, uses) && IsDir(uses, s) && Lookup(tables, s, pn).Pte? && g in uses && !uses[g].Page?
    requires var f := Lookup(tables, s, pn).frame; UsedAs(uses, f, Page(s, pn))
    ensures forall j: nat ::
      (j < NPTENTRIES && Entry(tables, g, j).Pte? && (uses[g].Table? || j < NUSER) &&
       Entry(tables, g, j).frame == Lookup(tables, s, pn).frame) ==>
      g == Entry(tables, s, pn / NPTENTRIES).frame && j == pn % NPTENTRIES
  {
    var f := Lookup(tables, s, pn).frame;
    assert UseOk(tables, uses, g, uses[g]);
    assert UseOk(tables, uses, s, Directory);
    var t := Entry(tables, s, pn / NPTENTRIES).frame;
    assert UsedAs(uses, t, Table(s, pn / NPTENTRIES));
    forall j: nat | j < NPTENTRIES && Entry(tables, g, j).Pte? && Entry(tables, g, j).frame == f &&
      (uses[g].Table? || j < NUSER)
      ensures g == t && j == pn % NPTENTRIES
    {
      if uses[g].Table? {
        assert UsedAs(uses, f, PageAt(uses[g].s, uses[g].i, j));
        assert pn == uses[g].i * NPTENTRIES + j;
      }
    }
  }

  lemma ClearEntries(tables: Tables, uses: Uses, s: nat, pn: nat, g: nat)
    requires Wf(tables, uses) && Entry(tables, s, pn / NPTENTRIES).Pte? && g in tables
    requires UsedAs(uses, Entry(tables, s, pn / NPTENTRIES).frame, Table(s, pn / NPTENTRIES))
    ensures forall j: nat {:trigger Entry(SetEntry(tables, s, pn, None), g, j)} ::
      Entry(SetEntry(tables, s, pn, None), g, j) ==
      if g == Entry(tables, s, pn / NPTENTRIES).frame && j == pn % NPTENTRIES then None else Entry(tables, g, j)
  {
  }

  lemma ClearUse(tables: Tables, uses: Uses, s: nat, pn: nat, g: nat)
    requires Wf(tables, uses) && IsDir(uses, s) && Lookup(tables, s, pn).Pte? && g in uses &&
      g != Lookup(tables, s, pn).frame
    requires UsedAs(uses, Lookup(tables, s, pn).frame, Page(s, pn))
    ensures UseOk(SetEntry(tables, s, pn, None), uses - {Lookup(tables, s, pn).frame}, g, uses[g])
  {
    var t := Entry(tables, s, pn / NPTENTRIES).frame;
    assert UseOk(tables, uses, s, Directory) && UsedAs(uses, t, Table(s, pn / NPTENTRIES));
    assert UseOk(tables, uses, g, uses[g]);
    if uses[g].Page? {
      SetEntryLookup(tables, uses, s, pn, None, uses[g].s, uses[g].pn);
    } else {
      ClearOthers(tables, uses, s, pn, g);
      ClearEntries(tables, uses, s, pn, g);
    }
  }

  /** deallocuvm clears an entry and its frame goes out of use. */
  lemma ClearWf(tables: Tables, uses: Uses, s: nat, pn: nat)
    requires Wf(tables, uses) && IsDir(uses, s) && Lookup(tables, s, pn).Pte?
    ensures Wf(SetEntry(tables, s, pn, None), uses - {Lookup(tables, s, pn).frame})
  {
    var f := Lookup(tables, s, pn).frame;
    LookupIn(tables, uses, s, pn);
    var tables', uses' := SetEntry(tables, s, pn, None), uses - {f};
    forall g | g in uses' ensures UseOk(tables', uses', g, uses'[g]) {
      ClearUse(tables, uses, s, pn, g);
    }
  }

  // ---- New and dropped spaces

  function NewDir(upper: nat, lower: nat): (es: seq<Pte>)
    ensures |es| == NPDENTRIES && forall i :: 0 <= i < NUSER ==> es[i] == None
  {
    Empty()[511 := Pte(upper, 1)][510 := Pte(lower, 1)]
  }

  /** setupkvm: a directory without user pages. */
  lemma NewSpaceWf(tables: Tables, uses: Uses, d: nat, es: seq<Pte>)
    requires Wf(tables, uses) && d !in uses && |es| == NPDENTRIES && forall i :: 0 <= i < NUSER ==> es[i] == None
    ensures Wf(tables[d := es], uses[d := Directory])
    ensures Unmapped(tables[d := es], d) && SameMaps(tables, tables[d := es], uses)
  {
    var tables', uses' := tables[d := es], uses[d := Directory];
    forall s: nat, pn: nat | IsDir(uses, s) ensures Lookup(tables', s, pn) == Lookup(tables, s, pn) {
      assert UseOk(tables, uses, s, Directory);
      if pn < NPAGES && Entry(tables, s, pn / NPTENTRIES).Pte? {
        assert UsedAs(uses, Entry(tables, s, pn / NPTENTRIES).frame, Table(s, pn / NPTENTRIES));
      }
    }
    forall g | g in uses' ensures UseOk(tables', uses', g, uses'[g]) {
      if g != d {
        assert UseOk(tables, uses, g, uses[g]);
        assert forall j: nat :: Entry(tables', g, j) == Entry(tables, g, j);
      }
    }
  }

  predicate Belongs(u: Use, f: nat, s: nat) {
    f == s || (u.Table? && u.s == s)
  }

  /** The frames that are not the directory s or one of its tables. */
  function Without(uses: Uses, s: nat): (r: Uses) {
    map f | f in uses && !Belongs(uses[f], f, s) :: uses[f]
  }

  function Keep(tables: Tables, uses: Uses): (r: Tables) {
    map f | f in tables && f in uses :: tables[f]
  }

  lemma DropUse(tables: Tables, uses: Uses, s: nat, g: nat)
    requires Wf(tables, uses) && IsDir(uses, s) && Unmapped(tables, s) && g in Without(uses, s)
    requires UseOk(tables, uses, g, uses[g])
    requires forall s': nat, pn: nat :: IsDir(uses, s') && s' != s ==>
      Lookup(Keep(tables, Without(uses, s)), s', pn) == Lookup(tables, s', pn)
    ensures UseOk(Keep(tables, Without(uses, s)), Without(uses, s), g, uses[g])
  {
    var tables' := Keep(tables, Without(uses, s));
    assert !uses[g].Page? ==> forall j: nat :: Entry(tables', g, j) == Entry(tables, g, j);
    if uses[g].Page? {
      assert uses[g].s != s;
    }
  }

  /** freevm: a space without pages can be dropped, and no other space changes. */
  lemma DropWf(tables: Tables, uses: Uses, s: nat)
    requires Wf(tables, uses) && IsDir(uses, s) && Unmapped(tables, s)
    ensures Wf(Keep(tables, Without(uses, s)), Without(uses, s))
    ensures forall s': nat, pn: nat :: IsDir(uses, s') && s' != s ==>
      Lookup(Keep(tables, Without(uses, s)), s', pn) == Lookup(tables, s', pn)
  {
    var uses' := Without(uses, s);
    var tables' := Keep(tables, uses');
    forall s': nat, pn: nat | IsDir(uses, s') && s' != s ensures Lookup(tables', s', pn) == Lookup(tables, s', pn) {
      assert UseOk(tables, uses, s', Directory);
      if pn < NPAGES && Entry(tables, s', pn / NPTENTRIES).Pte? {
        assert UsedAs(uses, Entry(tables, s', pn / NPTENTRIES).frame, Table(s', pn / NPTENTRIES));
      }
    }
    forall g | g in uses' ensures UseOk(tables', uses', g, uses'[g]) {
      assert UseOk(tables, uses, g, uses[g]);
      DropUse(tables, uses, s, g);
    }
  }
}
