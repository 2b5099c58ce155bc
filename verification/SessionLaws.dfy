/** What a session of the main program does to the catalog, and exactly when its query is right. */
module SessionLaws {
  import opened Wrappers
  import opened Numerals
  import opened Keys
  import opened Scheme
  import opened Tables
  import opened MultiMaps
  import opened Stores
  import opened DataMapper
  import opened Catalogs
  import opened Executor
  import opened Planner
  import opened Service
  import opened Serving
  import opened CrossProducts
  import opened Queries
  import opened Reuploads
  import opened Leftovers
  import opened Deletions
  import opened Runs
  import opened Joins

  // ----- what the session does to the catalog -----

  /** The catalog after courses and students were uploaded by table, one after the other, by a client that
      had no tables before. */
  ghost predicate SessionUploads(s: Scheme, cat: Catalog, t1: Table, t2: Table, next: Catalog)
    requires WellFormed(t1.table, t1.columnsType) && WellFormed(t2.table, t2.columnsType)
    requires HasColumn(t1.table, 0) && HasColumn(t2.table, 2)
  {
    exists a, b :: Uploaded(s, cat, t1, a) && Uploaded(s, a, t2, b) && Joined(s, b, t1, 0, t2, 2, next)
  }

  lemma SecondStep(s: Scheme, cat: Catalog, t1: Table, t2: Table, st1: State, st2: State)
    requires WellFormed(t1.table, t1.columnsType) && WellFormed(t2.table, t2.columnsType)
    requires HasColumn(t1.table, 0) && HasColumn(t2.table, 2) && t1.name == COURSES && t2.name == STUDENTS
    requires Uploaded(s, cat, t1, st1.catalog) && st1.tables == map[COURSES := t1]
    requires Step(s, st1, ByTable(t2), st2)
    ensures if Storable(s, t2.table, t2.columnsType) then SessionUploads(s, cat, t1, t2, st2.catalog)
            else st2.catalog == st1.catalog
  {
    hide Uploaded, Joined, Storable, WellFormed, HasColumn, Step;
    StepBasics(s, st1, ByTable(t2), st2);
    if Storable(s, t2.table, t2.columnsType) {
      var mid := StepMiddle(s, st1, ByTable(t2), st2);
      assert Joined(s, mid, t1, 0, t2, 2, st2.catalog);
    }
  }

  lemma FirstStep(s: Scheme, cat: Catalog, t1: Table, st1: State)
    requires WellFormed(t1.table, t1.columnsType) && t1.name == COURSES
    requires Step(s, State(map[], cat), ByTable(t1), st1)
    ensures st1.tables == map[COURSES := t1]
    ensures if Storable(s, t1.table, t1.columnsType) then Uploaded(s, cat, t1, st1.catalog) else st1.catalog == cat
  {
    hide Uploaded, Joined, Storable, WellFormed, HasColumn;
  }

  lemma NamesOfPair()
    ensures Apart(COURSES, STUDENTS) && Apart(STUDENTS, COURSES)
  {
    hide Apart;
    CommaFreeNamesApart(COURSES, STUDENTS);
    CommaFreeNamesApart(STUDENTS, COURSES);
  }

  lemma SessionParts(s: Scheme, cat: Catalog, t1: Table, t2: Table, next: Catalog)
    returns (a: Catalog, b: Catalog, j: MultiMap)
    requires WellFormed(t1.table, t1.columnsType) && WellFormed(t2.table, t2.columnsType)
    requires HasColumn(t1.table, 0) && HasColumn(t2.table, 2) && t1.name == COURSES && t2.name == STUDENTS
    requires SessionUploads(s, cat, t1, t2, next)
    ensures Uploaded(s, cat, t1, a) && Uploaded(s, a, t2, b) && Joined(s, b, t1, 0, t2, 2, next)
    ensures SameLists(cat, a, STUDENTS) && SameLists(a, next, COURSES)
    ensures forall n :: n in {ROW_TABLE, VALUE_TABLE, COLUMN_TABLE} ==> Lookup(next, n) == Lookup(b, n)
    ensures JoinIn(s, j, t1, 0, t2, 2) && Total(j) == |JoinPairs(t1.table, 0, t2.table, 2)|
    ensures PairName() in next && Lookup(next, PairName()) == Overlay(Lookup(cat, PairName()), j)
  {
    hide Uploaded, Joined, WellFormed, HasColumn, Apart, JoinIn, Overlay, Indexed, ValueKey, Lookup, JoinPairs,
      JoinName, Total;
    a, b :| Uploaded(s, cat, t1, a) && Uploaded(s, a, t2, b) && Joined(s, b, t1, 0, t2, 2, next);
    NamesOfPair();
    UploadKeeps(s, cat, t1, a, STUDENTS);
    UploadKeeps(s, a, t2, b, COURSES);
    MiddleKeepsJoin(s, cat, t1, a);
    MiddleKeepsJoin(s, a, t2, b);
    j := JoinedParts(s, b, t1, t2, next);
    JoinedKeeps(s, b, t1, t2, next);
  }

  lemma JoinedKeeps(s: Scheme, cat: Catalog, t1: Table, t2: Table, next: Catalog)
    requires HasColumn(t1.table, 0) && HasColumn(t2.table, 2) && Joined(s, cat, t1, 0, t2, 2, next)
    ensures forall n :: n in {ROW_TABLE, VALUE_TABLE, COLUMN_TABLE} ==> Lookup(next, n) == Lookup(cat, n)
  {
    hide HasColumn, IsJoinIndex, Overlay, JoinName, JoinPairs, Total;
    JoinNameIsOther(t1.name, 0, t2.name, 2);
  }

  lemma SameAsStores(s: Scheme, b: Catalog, next: Catalog, t: Table)
    requires WellFormed(t.table, t.columnsType)
    requires forall n :: n in {ROW_TABLE, VALUE_TABLE, COLUMN_TABLE} ==> Lookup(next, n) == Lookup(b, n)
    ensures Serves(s, next, t) <==> Serves(s, b, t)
  {
    hide RowsIn, ColsIn, ValuesIn, Lookup;
  }

  /** What is right after the session: each table when no list under its keys was longer before, and
      likewise the join. */
  lemma SessionServesIff(s: Scheme, cat: Catalog, t1: Table, t2: Table, next: Catalog)
    requires WellFormed(t1.table, t1.columnsType) && WellFormed(t2.table, t2.columnsType)
    requires HasColumn(t1.table, 0) && HasColumn(t2.table, 2) && t1.name == COURSES && t2.name == STUDENTS
    requires SessionUploads(s, cat, t1, t2, next)
    ensures Serves(s, next, t1) <==> NothingLonger(cat, t1)
    ensures Serves(s, next, t2) <==> NothingLonger(cat, t2)
    ensures PairName() in next
    ensures JoinIn(s, Lookup(next, PairName()), t1, 0, t2, 2) <==>
            JoinNotLonger(Lookup(cat, PairName()), t1, 0, t2, 2)
  {
    hide SessionUploads, Uploaded, Joined, WellFormed, HasColumn, JoinIn, JoinNotLonger, Overlay, Lookup, Serves,
      NothingLonger, SameLists, PairName, JoinPairs, Total;
    var a, b, j := SessionParts(s, cat, t1, t2, next);
    UploadServesIff(s, cat, t1, a);
    SameListsServe(s, a, next, t1);
    UploadServesIff(s, a, t2, b);
    SameListsLengths(cat, a, t2);
    SameAsStores(s, b, next, t2);
    JoinOverIff(s, Lookup(cat, PairName()), t1, 0, t2, 2, j);
  }

  /** After a session with tables from whose end rows were deleted since an earlier session, the database
      still serves the tables and the join of the earlier one. */
  lemma SessionKeepsDeleted(s: Scheme, cat: Catalog, u1: Table, u2: Table, t1: Table, t2: Table, next: Catalog)
    requires WellFormed(t1.table, t1.columnsType) && WellFormed(t2.table, t2.columnsType)
    requires HasColumn(t1.table, 0) && HasColumn(t2.table, 2) && t1.name == COURSES && t2.name == STUDENTS
    requires WellFormed(u1.table, u1.columnsType) && WellFormed(u2.table, u2.columnsType)
    requires HasColumn(u1.table, 0) && HasColumn(u2.table, 2) && CutDown(u1, t1) && CutDown(u2, t2)
    requires Serves(s, cat, u1) && Serves(s, cat, u2) && JoinIn(s, Lookup(cat, PairName()), u1, 0, u2, 2)
    requires SessionUploads(s, cat, t1, t2, next)
    ensures Serves(s, next, u1) && Serves(s, next, u2) && PairName() in next
    ensures JoinIn(s, Lookup(next, PairName()), u1, 0, u2, 2)
  {
    hide SessionUploads, Uploaded, Joined, WellFormed, HasColumn, JoinIn, Overlay, Lookup, Serves, SameLists, PairName,
      JoinPairs, Total;
    var a, b, j := SessionParts(s, cat, t1, t2, next);
    DeletedRowsStay(s, cat, u1, t1, a);
    SameListsServe(s, a, next, u1);
    SameListsServe(s, cat, a, u2);
    DeletedRowsStay(s, a, u2, t2, b);
    SameAsStores(s, b, next, u2);
    DeletedPartnersStay(s, Lookup(cat, PairName()), u1, u2, t1, t2, 0, 2, j);
  }

  /** So the join query of such a session finds the answer over the earlier tables, deleted rows included. */
  lemma SecondSessionFinds(s: Scheme, cat: Catalog, u1: Table, u2: Table, t1: Table, t2: Table, next: Catalog,
                           tables: StoredTables, c: nat, v: string, p: nat)
    requires Assumptions(s) && Represents(s, next, tables)
    requires WellFormed(t1.table, t1.columnsType) && WellFormed(t2.table, t2.columnsType)
    requires HasColumn(t1.table, 0) && HasColumn(t2.table, 2) && t1.name == COURSES && t2.name == STUDENTS
    requires WellFormed(u1.table, u1.columnsType) && WellFormed(u2.table, u2.columnsType)
    requires HasColumn(u1.table, 0) && HasColumn(u2.table, 2) && CutDown(u1, t1) && CutDown(u2, t2)
    requires Serves(s, cat, u1) && Serves(s, cat, u2) && JoinIn(s, Lookup(cat, PairName()), u1, 0, u2, 2)
    requires SessionUploads(s, cat, t1, t2, next)
    requires c < |u1.table[0]| && Tag(s, ValueKey(COURSES, c, v)) in s.tags && EntryInScope(s, u2, p)
    ensures LabelsDistinct(s)
    ensures FindsEntry(s, RunPlans(s, tables, JoinPlan(s, COURSES, c, v, 0, STUDENTS, 2, p), None), u2, p,
                       PlainJoin(u1.table, c, v, 0, u2.table, 2))
  {
    hide Assumptions, Represents, SessionUploads, HasColumn, JoinIn, Lookup, Serves, JoinName, Tag, ValueKey,
      FindsEntry,
      RunPlans, JoinPlan, PlainJoin, EntryInScope, LabelsDistinct;
    SessionKeepsDeleted(s, cat, u1, u2, t1, t2, next);
    JoinQuery(s, next, tables, u1, c, v, 0, u2, 2, p);
  }

  // ----- when the answer is right -----

  /** Where the session's lists lie: on top of those that stood in the database. */
  lemma SessionOnTop(s: Scheme, cat: Catalog, t1: Table, t2: Table, next: Catalog) returns (a: Catalog)
    requires WellFormed(t1.table, t1.columnsType) && WellFormed(t2.table, t2.columnsType)
    requires HasColumn(t1.table, 0) && HasColumn(t2.table, 2) && t1.name == COURSES && t2.name == STUDENTS
    requires SessionUploads(s, cat, t1, t2, next)
    ensures OnTop(s, cat, next, t1) && OnTop(s, a, next, t2) && SameLists(cat, a, STUDENTS)
    ensures PairName() in next
    ensures JoinOnTop(s, Lookup(cat, PairName()), Lookup(next, PairName()), t1, 0, t2, 2)
  {
    hide SessionUploads, Uploaded, Joined, HasColumn, JoinIn, Overlay, Lookup, SameLists, PairName, JoinPairs,
      Total, OnTop, JoinOnTop;
    var b, j;
    a, b, j := SessionParts(s, cat, t1, t2, next);
    UploadOnTop(s, cat, t1, a);
    UploadOnTop(s, a, t2, b);
    OnTopStores(s, a, b, t2);
    SameTables(s, b, t1, t2, next);
    OnTopKept(s, cat, a, next, t1);
    OnTopSame(s, a, b, next, t2);
    JoinOver(s, Lookup(cat, PairName()), t1, 0, t2, 2, j);
  }

  lemma SameTables(s: Scheme, cat: Catalog, t1: Table, t2: Table, next: Catalog)
    requires HasColumn(t1.table, 0) && HasColumn(t2.table, 2) && Joined(s, cat, t1, 0, t2, 2, next)
    ensures forall n :: n in {ROW_TABLE, VALUE_TABLE, COLUMN_TABLE} ==>
              Lookup(next, n) == Lookup(cat, n) && (n in next <==> n in cat)
  {
    hide HasColumn, IsJoinIndex, Overlay, JoinName, JoinPairs, Total;
    JoinNameIsOther(t1.name, 0, t2.name, 2);
  }

  /** Over any database the join query of the session finds the plaintext answer exactly when nothing that
      is left of what stood there leads it to an entry. */
  lemma SessionFindsIff(s: Scheme, cat: Catalog, t1: Table, t2: Table, next: Catalog, tables: StoredTables, c: nat,
                        v: string, p: nat)
    requires Assumptions(s) && Represents(s, next, tables)
    requires WellFormed(t1.table, t1.columnsType) && WellFormed(t2.table, t2.columnsType)
    requires HasColumn(t1.table, 0) && HasColumn(t2.table, 2) && t1.name == COURSES && t2.name == STUDENTS
    requires SessionUploads(s, cat, t1, t2, next) && Tag(s, ValueKey(COURSES, c, v)) in s.tags
    requires c < |t1.table[0]| && p < Position(t2.columnsType, |t2.table[0]|)
    ensures LabelsDistinct(s)
    ensures var col := ColumnAt(t2.columnsType, |t2.table[0]|, p);
            var found := RunPlans(s, tables, JoinPlan(s, COURSES, c, v, 0, STUDENTS, 2, p), None);
            var answer := PlainJoin(t1.table, c, v, 0, t2.table, 2);
            && (found.Some? && !Finds(s, found, t2, col, answer) ==> |found.value| > |answer|)
            && (Finds(s, found, t2, col, answer) <==>
                JoinClear(s, tables, cat, Lookup(cat, PairName()), t1, c, v, 0, t2, 2, p))
  {
    hide Assumptions, Represents, SessionUploads, Tag, ValueKey, OnTop, JoinOnTop, SameLists, LabelsDistinct, Finds,
      RunPlans, JoinPlan, PlainJoin, JoinClear, Position, ColumnAt, Lookup, JoinName;
    var a := SessionOnTop(s, cat, t1, t2, next);
    OnTopStores(s, a, next, t2);
    JoinQueryOverIff(s, cat, next, tables, Lookup(cat, PairName()), t1, c, v, 0, t2, 2, p);
  }

  /** What an earlier session left: its two tables and their join are served. */
  ghost predicate LeftBy(s: Scheme, cat: Catalog, u1: Table, u2: Table) {
    && WellFormed(u1.table, u1.columnsType) && WellFormed(u2.table, u2.columnsType)
    && HasColumn(u1.table, 0) && HasColumn(u2.table, 2) && u1.name == COURSES && u2.name == STUDENTS
    && Serves(s, cat, u1) && Serves(s, cat, u2) && JoinIn(s, Lookup(cat, PairName()), u1, 0, u2, 2)
  }

  lemma LeftByTables(s: Scheme, cat: Catalog, u1: Table, u2: Table)
    requires LeftBy(s, cat, u1, u2)
    ensures WellFormed(u1.table, u1.columnsType) && WellFormed(u2.table, u2.columnsType)
    ensures HasColumn(u1.table, 0) && HasColumn(u2.table, 2) && u1.name == COURSES && u2.name == STUDENTS
    ensures Serves(s, cat, u1) && Serves(s, cat, u2) && JoinIn(s, Lookup(cat, PairName()), u1, 0, u2, 2)
  {
  }

  /** Nothing of the earlier tables is in the way of the query: no selected row has lost a partner, and an
      older row behind the selected ones has no partner, neither then nor now. */
  ghost predicate NothingLeft(u1: Table, u2: Table, t1: Table, t2: Table, c: nat, v: string)
    requires WellFormed(u1.table, u1.columnsType) && WellFormed(t1.table, t1.columnsType)
    requires HasColumn(u1.table, 0) && HasColumn(u2.table, 2) && HasColumn(t1.table, 0) && HasColumn(t2.table, 2)
  {
    && (forall i :: 0 <= i < |RowsWith(t1, c, v)| ==>
          var r := RowsWith(t1, c, v)[i];
          |Partners(u1, 0, u2, 2, r)| <= |Partners(t1, 0, t2, 2, r)|)
    && (forall i :: 0 <= i < |OldRows(u1, t1, c, v)| ==>
          var r := OldRows(u1, t1, c, v)[i];
          Partners(u1, 0, u2, 2, r) == [] == Partners(t1, 0, t2, 2, r))
  }

  /** The rows of students that the join list of row `r` names after the session. */
  function BothPartners(u1: Table, u2: Table, t1: Table, t2: Table, r: nat): seq<nat>
    requires HasColumn(u1.table, 0) && HasColumn(u2.table, 2) && HasColumn(t1.table, 0) && HasColumn(t2.table, 2)
  {
    Partners(t1, 0, t2, 2, r) + OldPartners(u1, u2, t1, t2, r)
  }

  function OldPartners(u1: Table, u2: Table, t1: Table, t2: Table, r: nat): seq<nat>
    requires HasColumn(u1.table, 0) && HasColumn(u2.table, 2) && HasColumn(t1.table, 0) && HasColumn(t2.table, 2)
  {
    Beyond(Partners(u1, 0, u2, 2, r), |Partners(t1, 0, t2, 2, r)|)
  }

  lemma OldPartnersLeft(s: Scheme, mm: MultiMap, u1: Table, u2: Table, t1: Table, t2: Table, r: nat)
    requires HasColumn(u1.table, 0) && HasColumn(u2.table, 2) && HasColumn(t1.table, 0) && HasColumn(t2.table, 2)
    requires u1.name == t1.name && u2.name == t2.name && JoinIn(s, mm, u1, 0, u2, 2)
    ensures LeftPartners(mm, t1, 0, t2, 2, r) == RowTags(s, t2.name, OldPartners(u1, u2, t1, t2, r))
    ensures Below(Partners(t1, 0, t2, 2, r), |t2.table|) && Below(OldPartners(u1, u2, t1, t2, r), |u2.table|)
  {
    hide Indexed, Tag, Matches;
    PartnersBelow(t1, t2, r);
    PartnersBelow(u1, u2, r);
    assert Get(mm, Indexed(t1.name, r)) == RowTags(s, t2.name, Partners(u1, 0, u2, 2, r));
    BeyondRowTags(s, t2.name, Partners(u1, 0, u2, 2, r), |Partners(t1, 0, t2, 2, r)|);
  }

  lemma PartnersBelow(t1: Table, t2: Table, r: nat)
    requires HasColumn(t1.table, 0) && HasColumn(t2.table, 2)
    ensures Below(Partners(t1, 0, t2, 2, r), |t2.table|)
  {
    if r < |t1.table| {
      MatchesBelow(t2.table, 2, t1.table[r][0], |t2.table|);
    }
  }

  /** Every row of either version of the students is stored and has the entry asked for. */
  lemma StudentsReach(s: Scheme, cat: Catalog, u2: Table, t2: Table, a: Catalog, next: Catalog, tables: StoredTables,
                      p: nat, r: nat)
    requires WellFormed(u2.table, u2.columnsType) && WellFormed(t2.table, t2.columnsType)
    requires u2.name == t2.name == STUDENTS && Serves(s, cat, u2) && SameLists(cat, a, STUDENTS)
    requires OnTop(s, a, next, t2) && Represents(s, next, tables) && (r < |u2.table| || r < |t2.table|)
    requires p < Position(u2.columnsType, |u2.table[0]|) && p < Position(t2.columnsType, |t2.table[0]|)
    ensures Tag(s, Indexed(STUDENTS, r)) in s.tags && RowSize(next, STUDENTS, r) > p && ROW_TABLE in next
  {
    hide Represents, Indexed, Tag, OnTop, RowsIn, ColsIn, ValuesIn, SameLists, Position, Lookup;
    OnTopStores(s, a, next, t2);
    if r < |t2.table| {
      ServedRow(s, next, tables, t2, r);
    } else {
      SameListsServe(s, cat, a, u2);
      OldRowStays(s, a, u2, next, tables, t2, r);
    }
  }

  lemma SelectedClearIff(s: Scheme, cat: Catalog, u1: Table, u2: Table, t1: Table, t2: Table, a: Catalog, next: Catalog,
                         tables: StoredTables, p: nat, rs: seq<nat>)
    requires Assumptions(s) && Represents(s, next, tables) && LeftBy(s, cat, u1, u2)
    requires WellFormed(t2.table, t2.columnsType) && HasColumn(t1.table, 0) && HasColumn(t2.table, 2)
    requires t1.name == COURSES && t2.name == STUDENTS && SameLists(cat, a, STUDENTS) && OnTop(s, a, next, t2)
    requires p < Position(u2.columnsType, |u2.table[0]|) && p < Position(t2.columnsType, |t2.table[0]|)
    ensures PartnersClear(s, tables, Lookup(cat, PairName()), t1, 0, t2, 2, p, rs) <==>
            forall i :: 0 <= i < |rs| ==> |Partners(u1, 0, u2, 2, rs[i])| <= |Partners(t1, 0, t2, 2, rs[i])|
  {
    hide Assumptions, Represents, Tag, Indexed, OnTop, SameLists, Serves, JoinIn, Lookup, PairName, FieldsOf, Dec,
      Position, Partners, LeftPartners, RowSize, RowTags;
    LeftByTables(s, cat, u1, u2);
    OnTopStores(s, a, next, t2);
    EntryInLimit(s, next, tables, t2, p);
    forall i | 0 <= i < |rs|
      ensures FieldsOf(s, tables, LeftPartners(Lookup(cat, PairName()), t1, 0, t2, 2, rs[i]), Dec(p)) == Some([])
              <==> |Partners(u1, 0, u2, 2, rs[i])| <= |Partners(t1, 0, t2, 2, rs[i])|
    {
      OldPartnersLeft(s, Lookup(cat, PairName()), u1, u2, t1, t2, rs[i]);
      var left := OldPartners(u1, u2, t1, t2, rs[i]);
      forall k | 0 <= k < |left|
        ensures Tag(s, Indexed(STUDENTS, left[k])) in s.tags && RowSize(next, STUDENTS, left[k]) > p
      {
        StudentsReach(s, cat, u2, t2, a, next, tables, p, left[k]);
      }
      FieldsMissingIff(s, next, tables, STUDENTS, left, p);
      assert left != [] ==> RowSize(next, STUDENTS, left[0]) > p;
    }
  }

  lemma OldRowsClearIff(s: Scheme, cat: Catalog, u1: Table, u2: Table, t1: Table, t2: Table, a: Catalog, next: Catalog,
                        tables: StoredTables, p: nat, rs: seq<nat>)
    requires Assumptions(s) && LabelsDistinct(s) && Represents(s, next, tables) && LeftBy(s, cat, u1, u2)
    requires WellFormed(t2.table, t2.columnsType) && HasColumn(t1.table, 0) && HasColumn(t2.table, 2)
    requires t1.name == COURSES && t2.name == STUDENTS && SameLists(cat, a, STUDENTS) && OnTop(s, a, next, t2)
    requires PairName() in next && JoinOnTop(s, Lookup(cat, PairName()), Lookup(next, PairName()), t1, 0, t2, 2)
    requires p < Position(u2.columnsType, |u2.table[0]|) && p < Position(t2.columnsType, |t2.table[0]|)
    requires forall i :: 0 <= i < |rs| ==> Tag(s, Indexed(COURSES, rs[i])) in s.tags
    ensures Follow(s, tables, PairName(), RowTags(s, COURSES, rs), Dec(p)) == Some([]) <==>
            forall i :: 0 <= i < |rs| ==> Partners(u1, 0, u2, 2, rs[i]) == [] == Partners(t1, 0, t2, 2, rs[i])
  {
    hide Assumptions, LabelsDistinct, Represents, Tag, Indexed, OnTop, SameLists, Serves, JoinIn, PairName, Follow, Dec,
      Position, RowSize, RowTags, Partners, LeftPartners, HasColumn;
    LeftByTables(s, cat, u1, u2);
    OnTopStores(s, a, next, t2);
    EntryInLimit(s, next, tables, t2, p);
    var partners := (r: nat) =>
      if HasColumn(u1.table, 0) && HasColumn(u2.table, 2) && HasColumn(t1.table, 0) && HasColumn(t2.table, 2)
      then BothPartners(u1, u2, t1, t2, r) else [];
    forall i | 0 <= i < |rs|
      ensures Get(next[PairName()], Indexed(COURSES, rs[i])) == RowTags(s, STUDENTS, partners(rs[i]))
      ensures forall k :: 0 <= k < |partners(rs[i])| ==> Tag(s, Indexed(STUDENTS, partners(rs[i])[k])) in s.tags
      ensures TooShort(next, STUDENTS, partners(rs[i]), p)
              <==> Partners(u1, 0, u2, 2, rs[i]) == [] == Partners(t1, 0, t2, 2, rs[i])
    {
      var r := rs[i];
      OldPartnersLeft(s, Lookup(cat, PairName()), u1, u2, t1, t2, r);
      RowTagsConcat(s, STUDENTS, Partners(t1, 0, t2, 2, r), OldPartners(u1, u2, t1, t2, r));
      var both := partners(r);
      forall k | 0 <= k < |both|
        ensures Tag(s, Indexed(STUDENTS, both[k])) in s.tags && RowSize(next, STUDENTS, both[k]) > p
      {
        StudentsReach(s, cat, u2, t2, a, next, tables, p, both[k]);
      }
      assert both != [] ==> RowSize(next, STUDENTS, both[0]) > p;
    }
    FollowMissingIff(s, next, tables, PairName(), COURSES, STUDENTS, partners, rs, p);
  }

  /** After a session over what an earlier one left, whatever was changed in the two tables, the join query
      finds the plaintext answer exactly when no selected row has lost a partner and no older row behind
      the selected ones has or had one. */
  lemma SecondSessionIff(s: Scheme, cat: Catalog, u1: Table, u2: Table, t1: Table, t2: Table, next: Catalog,
                         tables: StoredTables, c: nat, v: string, p: nat)
    requires Assumptions(s) && Represents(s, next, tables) && LeftBy(s, cat, u1, u2)
    requires WellFormed(u1.table, u1.columnsType) && HasColumn(u1.table, 0) && HasColumn(u2.table, 2)
    requires WellFormed(u2.table, u2.columnsType) && p < Position(u2.columnsType, |u2.table[0]|)
    requires WellFormed(t1.table, t1.columnsType) && WellFormed(t2.table, t2.columnsType)
    requires HasColumn(t1.table, 0) && HasColumn(t2.table, 2) && t1.name == COURSES && t2.name == STUDENTS
    requires SessionUploads(s, cat, t1, t2, next) && Tag(s, ValueKey(COURSES, c, v)) in s.tags
    requires c < |t1.table[0]| && p < Position(t2.columnsType, |t2.table[0]|)
    ensures LabelsDistinct(s)
    ensures JoinClear(s, tables, cat, Lookup(cat, PairName()), t1, c, v, 0, t2, 2, p) <==>
            NothingLeft(u1, u2, t1, t2, c, v)
    ensures Finds(s, RunPlans(s, tables, JoinPlan(s, COURSES, c, v, 0, STUDENTS, 2, p), None), t2,
                  ColumnAt(t2.columnsType, |t2.table[0]|, p), PlainJoin(t1.table, c, v, 0, t2.table, 2))
            <==> NothingLeft(u1, u2, t1, t2, c, v)
  {
    hide Assumptions, Represents, LeftBy, SessionUploads, Tag, ValueKey, Indexed, OnTop, JoinOnTop, SameLists, Finds,
      LabelsDistinct, RunPlans, JoinPlan, PlainJoin, PartnersClear, Follow, Position, ColumnAt, Lookup, JoinName,
      LeftRows, RowsWith, OldRows, Partners, Dec, RowTags, HasColumn, Serves;
    LabelsAreDistinctNow(s);
    SessionFindsIff(s, cat, t1, t2, next, tables, c, v, p);
    LeftByTables(s, cat, u1, u2);
    var a := SessionOnTop(s, cat, t1, t2, next);
    SelectedClearIff(s, cat, u1, u2, t1, t2, a, next, tables, p, RowsWith(t1, c, v));
    var rs := OldRows(u1, t1, c, v);
    OldCoursesInScope(s, cat, u1, next, tables, t1, c, v);
    OldRowsClearIff(s, cat, u1, u2, t1, t2, a, next, tables, p, rs);
  }

  lemma OldCoursesInScope(s: Scheme, cat: Catalog, u: Table, next: Catalog, tables: StoredTables, t: Table, c: nat,
                          v: string)
    requires WellFormed(u.table, u.columnsType) && WellFormed(t.table, t.columnsType) && u.name == t.name
    requires Serves(s, cat, u) && OnTop(s, cat, next, t) && Represents(s, next, tables)
    ensures LeftRows(cat, t, c, v) == RowTags(s, t.name, OldRows(u, t, c, v))
    ensures forall i :: 0 <= i < |OldRows(u, t, c, v)| ==> Tag(s, Indexed(t.name, OldRows(u, t, c, v)[i])) in s.tags
  {
    hide Represents, RowsIn, ColsIn, ValuesIn, OnTop, OldRows, LeftRows, Tag, Indexed, RowTags;
    LeftRowsOfTable(s, cat, u, t, c, v);
    var rs := OldRows(u, t, c, v);
    forall i | 0 <= i < |rs| ensures Tag(s, Indexed(t.name, rs[i])) in s.tags {
      OldRowStays(s, cat, u, next, tables, t, rs[i]);
    }
  }

  /** What the database held before stands in the way of nothing that the session uploads. */
  ghost predicate NothingInTheWay(cat: Catalog, t1: Table, t2: Table)
    requires WellFormed(t1.table, t1.columnsType) && WellFormed(t2.table, t2.columnsType)
    requires HasColumn(t1.table, 0) && HasColumn(t2.table, 2)
  {
    NothingLonger(cat, t1) && NothingLonger(cat, t2) && JoinNotLonger(Lookup(cat, PairName()), t1, 0, t2, 2)
  }

  /** Over a database in which nothing stands in the way, the join query of the session finds the plaintext
      answer. */
  lemma SessionFinds(s: Scheme, cat: Catalog, t1: Table, t2: Table, next: Catalog, tables: StoredTables, c: nat,
                     v: string, p: nat)
    requires Assumptions(s) && Represents(s, next, tables)
    requires WellFormed(t1.table, t1.columnsType) && WellFormed(t2.table, t2.columnsType)
    requires HasColumn(t1.table, 0) && HasColumn(t2.table, 2) && t1.name == COURSES && t2.name == STUDENTS
    requires SessionUploads(s, cat, t1, t2, next) && NothingInTheWay(cat, t1, t2)
    requires c < |t1.table[0]| && Tag(s, ValueKey(COURSES, c, v)) in s.tags && EntryInScope(s, t2, p)
    ensures LabelsDistinct(s)
    ensures FindsEntry(s, RunPlans(s, tables, JoinPlan(s, COURSES, c, v, 0, STUDENTS, 2, p), None), t2, p,
                       PlainJoin(t1.table, c, v, 0, t2.table, 2))
  {
    hide Assumptions, LabelsDistinct, Represents, SessionUploads, JoinIn, JoinNotLonger, NothingLonger,
      Lookup, Serves, JoinName, Tag, ValueKey, FindsEntry, RunPlans, JoinPlan, PlainJoin, EntryInScope;
    SessionServesIff(s, cat, t1, t2, next);
    JoinQuery(s, next, tables, t1, c, v, 0, t2, 2, p);
  }
}
