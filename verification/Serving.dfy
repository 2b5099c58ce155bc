/** When the shared stores answer for a table, and what an upload leaves alone. */
module Serving {
  import Numerals
  import opened Wrappers
  import opened Keys
  import opened Scheme
  import opened Cells
  import opened Tables
  import opened MultiMaps
  import opened DataMapper
  import opened Catalogs
  import opened Service

  // ----- agreement of a multimap with a plaintext table -----

  ghost predicate RowsIn(s: Scheme, mm: MultiMap, t: Table)
    requires WellFormed(t.table, t.columnsType)
  {
    forall r: nat {:trigger Indexed(t.name, r)} ::
      if r < |t.table|
      then Indexed(t.name, r) in mm
           && RowEncodes(s, t.columnsType, t.table[r], mm[Indexed(t.name, r)], |t.table[0]|)
      else Get(mm, Indexed(t.name, r)) == []
  }

  /** Every row's list starts with the stored forms of its cells, whatever follows them. */
  ghost predicate RowsBegin(s: Scheme, mm: MultiMap, t: Table)
    requires WellFormed(t.table, t.columnsType)
  {
    var stored := Position(t.columnsType, |t.table[0]|);
    forall r: nat {:trigger Indexed(t.name, r)} :: r < |t.table| ==>
      && Indexed(t.name, r) in mm && stored <= |mm[Indexed(t.name, r)]|
      && RowEncodes(s, t.columnsType, t.table[r], mm[Indexed(t.name, r)][..stored], |t.table[0]|)
  }

  lemma RowsInBegin(s: Scheme, mm: MultiMap, t: Table)
    requires WellFormed(t.table, t.columnsType) && RowsIn(s, mm, t)
    ensures RowsBegin(s, mm, t)
  {
    hide Indexed, Encodes;
    var stored := Position(t.columnsType, |t.table[0]|);
    forall r: nat | r < |t.table|
      ensures Indexed(t.name, r) in mm && stored <= |mm[Indexed(t.name, r)]|
      ensures RowEncodes(s, t.columnsType, t.table[r], mm[Indexed(t.name, r)][..stored], |t.table[0]|)
    {
      assert Indexed(t.name, r) in mm;
      assert mm[Indexed(t.name, r)][..stored] == mm[Indexed(t.name, r)];
    }
  }

  ghost predicate ColsIn(s: Scheme, mm: MultiMap, t: Table)
    requires WellFormed(t.table, t.columnsType)
  {
    forall c: nat {:trigger Indexed(t.name, c)} ::
      if c < |t.table[0]|
      then Indexed(t.name, c) in mm
           && ColEncodes(s, t.columnsType[c], t.table, c, mm[Indexed(t.name, c)], |t.table|)
      else Get(mm, Indexed(t.name, c)) == []
  }

  ghost predicate ValuesIn(s: Scheme, mm: MultiMap, t: Table)
    requires WellFormed(t.table, t.columnsType)
  {
    forall c: nat, v {:trigger ValueKey(t.name, c, v)} ::
      Get(mm, ValueKey(t.name, c, v))
      == if c < |t.table[0]| then RowTags(s, t.name, Matches(t.table, c, v, |t.table|)) else []
  }

  /** Every lookup of a key of this table finds what its plaintext says. */
  ghost predicate Serves(s: Scheme, cat: Catalog, t: Table)
    requires WellFormed(t.table, t.columnsType)
  {
    && RowsIn(s, Lookup(cat, ROW_TABLE), t)
    && ColsIn(s, Lookup(cat, COLUMN_TABLE), t)
    && ValuesIn(s, Lookup(cat, VALUE_TABLE), t)
  }

  /** The rows of the second table that join with row `r` of the first. */
  function Partners(t1: Table, j1: nat, t2: Table, j2: nat, r: nat): seq<nat>
    requires HasColumn(t1.table, j1) && HasColumn(t2.table, j2)
  {
    if r < |t1.table| then Matches(t2.table, j2, t1.table[r][j1], |t2.table|) else []
  }

  ghost predicate JoinIn(s: Scheme, mm: MultiMap, t1: Table, j1: nat, t2: Table, j2: nat)
    requires HasColumn(t1.table, j1) && HasColumn(t2.table, j2)
  {
    forall r: nat {:trigger Indexed(t1.name, r)} ::
      Get(mm, Indexed(t1.name, r)) == RowTags(s, t2.name, Partners(t1, j1, t2, j2, r))
  }

  /** An index of a table serves it while it stands alone. */
  lemma IndexesServe(s: Scheme, t: Table, r: MultiMap, v: MultiMap, c: MultiMap)
    requires WellFormed(t.table, t.columnsType) && AreIndexes(s, t, r, v, c)
    ensures RowsIn(s, r, t) && ValuesIn(s, v, t) && ColsIn(s, c, t)
  {
    hide Indexed, ValueKey, RowEncodes, ColEncodes, RowTags, Matches, Total, Area;
    forall i: nat
      ensures i >= |t.table| ==> Indexed(t.name, i) !in r
      ensures i >= |t.table[0]| ==> Indexed(t.name, i) !in c
    {
      forall j: nat | Indexed(t.name, j) == Indexed(t.name, i) ensures j == i {
        IndexedInjective(t.name, j, t.name, i);
      }
    }
  }

  lemma JoinIndexServes(s: Scheme, t1: Table, j1: nat, t2: Table, j2: nat, j: MultiMap)
    requires HasColumn(t1.table, j1) && HasColumn(t2.table, j2)
    requires IsJoinIndex(s, j, t1.name, t1.table, j1, t2.name, t2.table, j2)
    ensures JoinIn(s, j, t1, j1, t2, j2)
  {
    hide Indexed, Matches;
  }

  /** A table that is served can be stored, and its lists lie in tables that were created. */
  lemma ServedIsStored(s: Scheme, cat: Catalog, t: Table)
    requires WellFormed(t.table, t.columnsType) && Serves(s, cat, t)
    ensures Storable(s, t.table, t.columnsType) && ROW_TABLE in cat
    ensures |t.table[0]| > 0 ==> VALUE_TABLE in cat && COLUMN_TABLE in cat
  {
    hide Indexed, ValueKey, Matches, Numerals.Stoi, ColEncodes;
    assert Indexed(t.name, 0) in Lookup(cat, ROW_TABLE);
    forall r: nat, c: nat | r < |t.table| && c < |t.table[0]|
      ensures Fault(s, t.columnsType[c], t.table[r][c]) == None
    {
      assert Indexed(t.name, r) in Lookup(cat, ROW_TABLE);
    }
    if |t.table[0]| > 0 {
      assert Indexed(t.name, 0) in Lookup(cat, COLUMN_TABLE);
      var v := t.table[0][0];
      MatchesExact(t.table, 0, v, |t.table|);
      assert 0 in Matches(t.table, 0, v, |t.table|);
      assert Get(Lookup(cat, VALUE_TABLE), ValueKey(t.name, 0, v)) != [];
    }
  }

  // ----- what one upload leaves alone -----

  /** The lists under all row, column and value keys of a name are the same in both catalogs. */
  ghost predicate SameLists(cat: Catalog, next: Catalog, n: string) {
    && (forall i: nat {:trigger Indexed(n, i)} ::
          && SameList(Lookup(cat, ROW_TABLE), Lookup(next, ROW_TABLE), Indexed(n, i))
          && SameList(Lookup(cat, COLUMN_TABLE), Lookup(next, COLUMN_TABLE), Indexed(n, i)))
    && (forall c: nat, v {:trigger ValueKey(n, c, v)} ::
          SameList(Lookup(cat, VALUE_TABLE), Lookup(next, VALUE_TABLE), ValueKey(n, c, v)))
  }

  ghost predicate SameList(a: MultiMap, b: MultiMap, key: string) {
    Get(a, key) == Get(b, key) && (key in a <==> key in b)
  }

  lemma SameRowsServe(s: Scheme, a: MultiMap, b: MultiMap, t: Table)
    requires WellFormed(t.table, t.columnsType) && forall r: nat :: SameList(a, b, Indexed(t.name, r))
    ensures RowsIn(s, a, t) <==> RowsIn(s, b, t)
  {
    hide Indexed, RowEncodes;
    assert forall r: nat :: SameList(a, b, Indexed(t.name, r));
  }

  lemma SameColsServe(s: Scheme, a: MultiMap, b: MultiMap, t: Table)
    requires WellFormed(t.table, t.columnsType) && forall c: nat :: SameList(a, b, Indexed(t.name, c))
    ensures ColsIn(s, a, t) <==> ColsIn(s, b, t)
  {
    hide Indexed, ColEncodes;
    assert forall c: nat :: SameList(a, b, Indexed(t.name, c));
  }

  lemma SameListsServe(s: Scheme, cat: Catalog, next: Catalog, t: Table)
    requires WellFormed(t.table, t.columnsType) && SameLists(cat, next, t.name)
    ensures Serves(s, cat, t) <==> Serves(s, next, t)
  {
    hide Indexed, ValueKey, RowsIn, ColsIn, RowTags, Matches, WellFormed;
    SameRowsServe(s, Lookup(cat, ROW_TABLE), Lookup(next, ROW_TABLE), t);
    SameColsServe(s, Lookup(cat, COLUMN_TABLE), Lookup(next, COLUMN_TABLE), t);
    assert forall c: nat, v ::
      SameList(Lookup(cat, VALUE_TABLE), Lookup(next, VALUE_TABLE), ValueKey(t.name, c, v));
  }

  /** The indexes that one upload merged into the three stores. */
  lemma UploadParts(s: Scheme, cat: Catalog, t: Table, mid: Catalog) returns (r: MultiMap, v: MultiMap, c: MultiMap)
    requires WellFormed(t.table, t.columnsType) && Uploaded(s, cat, t, mid)
    ensures AreIndexes(s, t, r, v, c)
    ensures Lookup(mid, ROW_TABLE) == Overlay(Lookup(cat, ROW_TABLE), r)
    ensures Lookup(mid, VALUE_TABLE) == Overlay(Lookup(cat, VALUE_TABLE), v)
    ensures Lookup(mid, COLUMN_TABLE) == Overlay(Lookup(cat, COLUMN_TABLE), c)
    ensures mid.Keys == cat.Keys + {ROW_TABLE, VALUE_TABLE, COLUMN_TABLE}
  {
    hide AreIndexes, Overlay;
    r, v, c :|
      && AreIndexes(s, t, r, v, c)
      && mid == Merge(Merge(Merge(cat, ROW_TABLE, r), VALUE_TABLE, v), COLUMN_TABLE, c);
  }

  lemma IndexKeysElsewhere(s: Scheme, t: Table, r: MultiMap, v: MultiMap, c: MultiMap, n: string, i: nat)
    requires WellFormed(t.table, t.columnsType) && AreIndexes(s, t, r, v, c) && t.name != n
    ensures Indexed(n, i) !in r && Indexed(n, i) !in c
  {
    hide Indexed, ValueKey, RowEncodes, ColEncodes, IsValueIndex, Total, Area;
    forall j: nat ensures Indexed(t.name, j) != Indexed(n, i) {
      if Indexed(t.name, j) == Indexed(n, i) {
        IndexedInjective(t.name, j, n, i);
      }
    }
  }

  lemma ValueKeysElsewhere(s: Scheme, t: Table, r: MultiMap, v: MultiMap, c: MultiMap, n: string, d: nat, w: string)
    requires WellFormed(t.table, t.columnsType) && AreIndexes(s, t, r, v, c) && Apart(t.name, n)
    ensures ValueKey(n, d, w) !in v
  {
    hide ValueKey, Apart, IsRowIndex, IsColIndex, RowTags, Matches, Total, Area;
    ValueKeysClashIff(t.name, n);
  }

  lemma UploadKeeps(s: Scheme, cat: Catalog, t: Table, next: Catalog, n: string)
    requires WellFormed(t.table, t.columnsType) && Uploaded(s, cat, t, next) && Apart(t.name, n)
    ensures SameLists(cat, next, n)
  {
    hide AreIndexes, Uploaded, Indexed, ValueKey, Shadows, Overlay;
    var r, v, c := UploadParts(s, cat, t, next);
    forall i: nat
      ensures SameList(Lookup(cat, ROW_TABLE), Lookup(next, ROW_TABLE), Indexed(n, i))
      ensures SameList(Lookup(cat, COLUMN_TABLE), Lookup(next, COLUMN_TABLE), Indexed(n, i))
    {
      IndexKeysElsewhere(s, t, r, v, c, n, i);
      OverlayElsewhere(Lookup(cat, ROW_TABLE), r, Indexed(n, i));
      OverlayElsewhere(Lookup(cat, COLUMN_TABLE), c, Indexed(n, i));
    }
    forall d: nat, w ensures SameList(Lookup(cat, VALUE_TABLE), Lookup(next, VALUE_TABLE), ValueKey(n, d, w)) {
      ValueKeysElsewhere(s, t, r, v, c, n, d, w);
      OverlayElsewhere(Lookup(cat, VALUE_TABLE), v, ValueKey(n, d, w));
    }
  }

  // ----- one step -----

  lemma StepBasics(s: Scheme, st: State, ev: Event, next: State)
    requires Step(s, st, ev, next)
    ensures WellFormed(ev.t.table, ev.t.columnsType) && JoinReady(next.tables)
    ensures next.tables == st.tables[ev.t.name := ev.t]
    ensures !Storable(s, ev.t.table, ev.t.columnsType) ==> next.catalog == st.catalog
  {
  }

  lemma JoinKeepsOthers(s: Scheme, tables: map<string, Table>, cat: Catalog, next: Catalog, name: string)
    requires JoinReady(tables) && JoinChecked(s, tables, cat, next) && name in {ROW_TABLE, VALUE_TABLE, COLUMN_TABLE}
    ensures Lookup(next, name) == Lookup(cat, name) && (name in next <==> name in cat)
  {
    hide IsJoinIndex, Overlay, JoinName;
    if PairPresent(tables) {
      JoinNameIsOther(tables[COURSES].name, 0, tables[STUDENTS].name, 2);
    }
  }

  lemma StepMiddle(s: Scheme, st: State, ev: Event, next: State) returns (mid: Catalog)
    requires Step(s, st, ev, next) && Storable(s, ev.t.table, ev.t.columnsType)
    ensures Uploaded(s, st.catalog, ev.t, mid) && JoinReady(next.tables)
    ensures if ev.ByTable? then JoinChecked(s, next.tables, mid, next.catalog) else next.catalog == mid
    ensures forall n :: n in {ROW_TABLE, VALUE_TABLE, COLUMN_TABLE} ==>
              Lookup(next.catalog, n) == Lookup(mid, n) && (n in next.catalog <==> n in mid)
  {
    hide Uploaded, JoinChecked, Storable, HasColumn;
    mid :| Uploaded(s, st.catalog, ev.t, mid)
           && if ev.ByTable? then JoinChecked(s, next.tables, mid, next.catalog) else next.catalog == mid;
    if ev.ByTable? {
      JoinKeepsOthers(s, next.tables, mid, next.catalog, ROW_TABLE);
      JoinKeepsOthers(s, next.tables, mid, next.catalog, VALUE_TABLE);
      JoinKeepsOthers(s, next.tables, mid, next.catalog, COLUMN_TABLE);
    }
  }

  /** An upload, whether it succeeds or not and whether it refreshes the join or not, changes no list
      under a name that is apart from its own. */
  lemma StepKeeps(s: Scheme, st: State, ev: Event, next: State, n: string)
    requires Step(s, st, ev, next) && Apart(ev.t.name, n)
    ensures SameLists(st.catalog, next.catalog, n)
  {
    hide Uploaded, Storable, WellFormed, Apart, Step, Indexed, ValueKey;
    StepBasics(s, st, ev, next);
    if Storable(s, ev.t.table, ev.t.columnsType) {
      var mid := StepMiddle(s, st, ev, next);
      UploadKeeps(s, st.catalog, ev.t, mid, n);
    }
  }
}
