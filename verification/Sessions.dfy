/** The session of the client's main program, over whatever earlier sessions left in the database. */
module Sessions {
  import opened Wrappers
  import opened Keys
  import opened Scheme
  import opened Tables
  import opened MultiMaps
  import opened Stores
  import opened DataMapper
  import opened Catalogs
  import opened Executor
  import opened Planner
  import opened Service
  import opened Serving
  import opened CrossProducts
  import opened Queries
  import opened Reuploads
  import opened Leftovers
  import opened Deletions
  import opened Runs
  import opened Joins
  import opened Answering
  import opened SessionLaws

  // ----- room -----

  ghost predicate KeysInScope(s: Scheme, t: Table)
    requires WellFormed(t.table, t.columnsType)
  {
    && (forall r: nat :: r < |t.table| || r < |t.table[0]| ==> Tag(s, Indexed(t.name, r)) in s.tags)
    && (forall r: nat, c: nat :: r < |t.table| && c < |t.table[0]| ==>
          Tag(s, ValueKey(t.name, c, t.table[r][c])) in s.tags)
  }

  /** The scope covers both tables and their join beside what is stored, and the key of the query. */
  ghost predicate SessionFits(s: Scheme, cat: Catalog, t1: Table, t2: Table, c: nat, v: string)
    requires WellFormed(t1.table, t1.columnsType) && WellFormed(t2.table, t2.columnsType)
    requires HasColumn(t1.table, 0) && HasColumn(t2.table, 2)
  {
    && KeysInScope(s, t1) && KeysInScope(s, t2)
    && (forall n :: n in {ROW_TABLE, VALUE_TABLE, COLUMN_TABLE} ==>
          Total(Lookup(cat, n)) + Area(|t1.table|, |t1.table[0]|) + Area(|t2.table|, |t2.table[0]|) <= s.limit)
    && Total(Lookup(cat, JoinName(t1.name, 0, t2.name, 2))) + |JoinPairs(t1.table, 0, t2.table, 2)| <= s.limit
    && Tag(s, ValueKey(t1.name, c, v)) in s.tags
  }

  lemma TableFits(s: Scheme, cat: Catalog, t: Table)
    requires WellFormed(t.table, t.columnsType) && KeysInScope(s, t)
    requires forall n :: n in {ROW_TABLE, VALUE_TABLE, COLUMN_TABLE} ==>
               Total(Lookup(cat, n)) + Area(|t.table|, |t.table[0]|) <= s.limit
    ensures Admits(s, cat, t.name, t.table, t.columnsType)
  {
    hide Tag, Indexed, ValueKey, Area, Total, Lookup;
  }

  /** An upload adds at most as many entries to each store as the table has cells. */
  lemma UploadTotals(s: Scheme, cat: Catalog, t: Table, next: Catalog, n: string)
    requires WellFormed(t.table, t.columnsType) && Uploaded(s, cat, t, next)
    requires n in {ROW_TABLE, VALUE_TABLE, COLUMN_TABLE}
    ensures Total(Lookup(next, n)) <= Total(Lookup(cat, n)) + Area(|t.table|, |t.table[0]|)
  {
    hide Uploaded, Area, Total, Lookup, Overlay, IsRowIndex, IsColIndex, IsValueIndex;
    var r, v, c := UploadParts(s, cat, t, next);
    AreaMonotone(|t.table|, Position(t.columnsType, |t.table[0]|), |t.table[0]|);
    OverlayTotal(Lookup(cat, ROW_TABLE), r);
    OverlayTotal(Lookup(cat, VALUE_TABLE), v);
    OverlayTotal(Lookup(cat, COLUMN_TABLE), c);
  }

  lemma SecondFits(s: Scheme, cat: Catalog, t1: Table, mid: Catalog, t2: Table, c: nat, v: string)
    requires WellFormed(t1.table, t1.columnsType) && WellFormed(t2.table, t2.columnsType)
    requires HasColumn(t1.table, 0) && HasColumn(t2.table, 2) && SessionFits(s, cat, t1, t2, c, v)
    requires Uploaded(s, cat, t1, mid)
    ensures Admits(s, mid, t2.name, t2.table, t2.columnsType)
    ensures AdmitsJoin(s, mid, t1.name, t1.table, 0, t2.name, t2.table, 2)
  {
    hide Tag, Indexed, ValueKey, Area, Uploaded, Total, JoinName, JoinPairs, Lookup, Admits, WellFormed;
    UploadTotals(s, cat, t1, mid, ROW_TABLE);
    UploadTotals(s, cat, t1, mid, VALUE_TABLE);
    UploadTotals(s, cat, t1, mid, COLUMN_TABLE);
    TableFits(s, mid, t2);
    JoinNameIsOther(t1.name, 0, t2.name, 2);
    UploadKeepsOthers(s, cat, t1, mid, JoinName(t1.name, 0, t2.name, 2));
  }

  // ----- the session -----

  /** Entry `p` belongs to a column of text. */
  predicate TextEntry(t: Table, p: nat)
    requires WellFormed(t.table, t.columnsType)
  {
    p < Position(t.columnsType, |t.table[0]|) && t.columnsType[ColumnAt(t.columnsType, |t.table[0]|, p)] == "string"
  }

  /** The answer shows the plaintext join. */
  ghost predicate ShowsJoin(s: Scheme, res: Option<Result<seq<seq<string>>>>, t1: Table, c: nat, v: string, t2: Table,
      p: nat)
    requires WellFormed(t1.table, t1.columnsType) && WellFormed(t2.table, t2.columnsType) && TextEntry(t2, p)
    requires HasColumn(t1.table, 0) && HasColumn(t2.table, 2) && c < |t1.table[0]|
  {
    ShowsAnswer(s, res, t2, ColumnAt(t2.columnsType, |t2.table[0]|, p), PlainJoin(t1.table, c, v, 0, t2.table, 2))
  }

  /** If an earlier session left its tables, the answer shows the plaintext join exactly when nothing of them
      is in its way. */
  ghost predicate RightAfter(s: Scheme, cat: Catalog, t1: Table, c: nat, v: string, t2: Table, p: nat,
      res: Option<Result<seq<seq<string>>>>)
    requires WellFormed(t1.table, t1.columnsType) && WellFormed(t2.table, t2.columnsType) && TextEntry(t2, p)
    requires HasColumn(t1.table, 0) && HasColumn(t2.table, 2) && c < |t1.table[0]|
  {
    forall u1, u2 {:trigger LeftBy(s, cat, u1, u2)} ::
      LeftBy(s, cat, u1, u2) && p < Position(u2.columnsType, |u2.table[0]|) ==>
        (ShowsJoin(s, res, t1, c, v, t2, p) <==> NothingLeft(u1, u2, t1, t2, c, v))
  }

  lemma SessionShownIff(s: Scheme, cat: Catalog, t1: Table, t2: Table, next: Catalog, tables: StoredTables, c: nat,
                        v: string, p: nat, res: Option<Result<seq<seq<string>>>>)
    requires Assumptions(s) && LabelsDistinct(s) && Represents(s, next, tables)
    requires WellFormed(t1.table, t1.columnsType) && WellFormed(t2.table, t2.columnsType) && TextEntry(t2, p)
    requires HasColumn(t1.table, 0) && HasColumn(t2.table, 2) && t1.name == COURSES && t2.name == STUDENTS
    requires SessionUploads(s, cat, t1, t2, next)
    requires c < |t1.table[0]| && Tag(s, ValueKey(COURSES, c, v)) in s.tags
    requires RepliesTo(s, tables, JoinPlan(s, COURSES, c, v, 0, STUDENTS, 2, p), res)
    ensures ShowsJoin(s, res, t1, c, v, t2, p) <==>
            JoinClear(s, tables, cat, Lookup(cat, PairName()), t1, c, v, 0, t2, 2, p)
    ensures RightAfter(s, cat, t1, c, v, t2, p, res)
  {
    hide Assumptions, LabelsDistinct, Represents, SessionUploads, Tag, ValueKey, RunPlans, JoinPlan, PlainJoin,
      ShowsAnswer, Replies, Homomorphic, Finds, JoinClear, Lookup, Position, ColumnAt, Serves, JoinIn, NothingLeft;
    LabelsAreDistinctNow(s);
    SessionFindsIff(s, cat, t1, t2, next, tables, c, v, p);
    ShownIffFound(s, RunPlans(s, tables, JoinPlan(s, COURSES, c, v, 0, STUDENTS, 2, p), None), res, t2,
                  ColumnAt(t2.columnsType, |t2.table[0]|, p), PlainJoin(t1.table, c, v, 0, t2.table, 2));
    forall u1, u2 | LeftBy(s, cat, u1, u2) && p < Position(u2.columnsType, |u2.table[0]|)
      ensures ShowsJoin(s, res, t1, c, v, t2, p) <==> NothingLeft(u1, u2, t1, t2, c, v)
    {
      SecondSessionIff(s, cat, u1, u2, t1, t2, next, tables, c, v, p);
    }
  }

  lemma SessionAnswer(s: Scheme, cat: Catalog, t1: Table, t2: Table, next: Catalog, tables: StoredTables, c: nat,
                      v: string, p: nat, res: Option<Result<seq<seq<string>>>>)
    requires Assumptions(s) && LabelsDistinct(s) && Represents(s, next, tables)
    requires WellFormed(t1.table, t1.columnsType) && WellFormed(t2.table, t2.columnsType)
    requires HasColumn(t1.table, 0) && HasColumn(t2.table, 2) && t1.name == COURSES && t2.name == STUDENTS
    requires SessionUploads(s, cat, t1, t2, next) && NothingInTheWay(cat, t1, t2)
    requires c < |t1.table[0]| && Tag(s, ValueKey(COURSES, c, v)) in s.tags && EntryInScope(s, t2, p)
    requires RepliesTo(s, tables, JoinPlan(s, COURSES, c, v, 0, STUDENTS, 2, p), res)
    ensures ShowsEntry(s, "string", res, t2, p, PlainJoin(t1.table, c, v, 0, t2.table, 2))
  {
    hide Assumptions, LabelsDistinct, Represents, SessionUploads, NothingInTheWay, Tag, ValueKey, FindsEntry, RunPlans,
      JoinPlan, PlainJoin, EntryInScope, ShowsEntry, Replies, Homomorphic;
    LabelsAreDistinctNow(s);
    SessionFinds(s, cat, t1, t2, next, tables, c, v, p);
    EntryIsShown(s, "string", RunPlans(s, tables, JoinPlan(s, COURSES, c, v, 0, STUDENTS, 2, p), None), res, t2, p,
                 PlainJoin(t1.table, c, v, 0, t2.table, 2));
  }

  /** The query names these columns, and its value is none that the parser changes. */
  predicate JoinAsked(t1: Table, c: nat, v: string, t2: Table, p: nat) {
    Named(t1, 0) && Named(t1, c) && Named(t2, 2) && Named(t2, p) && Undotted(v) && '\'' !in v
  }

  /** Asking a service that remembers both tables for their join. */
  method AskForJoin(service: EncryptService, t1: Table, c: nat, v: string, t2: Table, p: nat)
    returns (res: Option<Result<seq<seq<string>>>>)
    requires service.Valid() && JoinAsked(t1, c, v, t2, p)
    requires Remembers(service.tableMap, t1) && Remembers(service.tableMap, t2)
    requires t1.name == COURSES && t2.name == STUDENTS
    modifies service`currentPlan
    ensures LabelsDistinct(service.s)
    ensures RepliesTo(service.s, service.db.tables, JoinPlan(service.s, COURSES, c, v, 0, STUDENTS, 2, p), res)
  {
    hide PlanOf, Named, Undotted, JoinPlan, RepliesTo;
    JoinIsPlanned(service.s, service.tableMap, t1, c, v, 0, t2, 2, p);
    res := service.ExecuteSql(AskJoin(t1, c, v, 0, t2, 2, p));
  }

  /** The uploads of a session: a new service over the database, then the courses, then the students. */
  method UploadPair(s: Scheme, db: Database, ghost cat: Catalog, table1: Table, table2: Table, ghost c: nat,
      ghost v: string)
    returns (service: EncryptService, fault: Option<Error>)
    requires Assumptions(s) && Represents(s, cat, db.tables)
    requires table1.name == COURSES && table2.name == STUDENTS
    requires WellFormed(table1.table, table1.columnsType) && WellFormed(table2.table, table2.columnsType)
    requires HasColumn(table1.table, 0) && HasColumn(table2.table, 2) && SessionFits(s, cat, table1, table2, c, v)
    modifies db
    ensures fresh(service) && service.Valid() && service.s == s && service.db == db
    ensures fault.None? <==> Storable(s, table1.table, table1.columnsType)
                             && Storable(s, table2.table, table2.columnsType)
    ensures fault.Some? ==> if Storable(s, table1.table, table1.columnsType)
                            then Uploaded(s, cat, table1, service.catalog) else service.catalog == cat
    ensures fault.None? ==>
              && SessionUploads(s, cat, table1, table2, service.catalog)
              && Remembers(service.tableMap, table1) && Remembers(service.tableMap, table2)
  {
    hide Assumptions, LabelsDistinct, EntriesDistinct, Homomorphic, Represents, Storable, KeysInScope, Step, Admits,
      AdmitsJoin, WellFormed, Uploaded, Area, SessionUploads, HasColumn, JoinPairs, Total, Lookup, Tag, ValueKey;
    service := new EncryptService(s, db, cat);
    FirstFits(s, cat, table1, table2, c, v);
    fault := service.UploadTableIntoSql(table1);
    ghost var st1 := service.Now();
    FirstStep(s, cat, table1, st1);
    if fault.Some? {
      return;
    }
    SecondFits(s, cat, table1, st1.catalog, table2, c, v);
    fault := service.UploadTableIntoSql(table2);
    SecondStep(s, cat, table1, table2, st1, service.Now());
    assert COURSES in service.tableMap - {STUDENTS};
  }

  /** `testSql` of the main program, over a database that may hold earlier tables: upload the courses, then
      the students, and ask, by the names of the columns, for the students' column `p` joined with the
      courses whose column `c` is `v`. */
  method TestSql(s: Scheme, db: Database, ghost cat: Catalog, table1: Table, table2: Table, c: nat, v: string, p: nat)
    returns (fault: Option<Error>, res: Option<Result<seq<seq<string>>>>, ghost next: Catalog)
    requires Assumptions(s) && Represents(s, cat, db.tables)
    requires table1.name == COURSES && table2.name == STUDENTS
    requires WellFormed(table1.table, table1.columnsType) && WellFormed(table2.table, table2.columnsType)
    requires HasColumn(table1.table, 0) && HasColumn(table2.table, 2) && SessionFits(s, cat, table1, table2, c, v)
    requires c < |table1.table[0]| && EntryInScope(s, table2, p) && JoinAsked(table1, c, v, table2, p)
    modifies db
    ensures LabelsDistinct(s)
    ensures fault.None? <==> Storable(s, table1.table, table1.columnsType)
                             && Storable(s, table2.table, table2.columnsType)
    ensures Represents(s, next, db.tables)
    ensures fault.Some? ==>
              if Storable(s, table1.table, table1.columnsType) then Uploaded(s, cat, table1, next) else next == cat
    ensures fault.None? ==>
              && SessionUploads(s, cat, table1, table2, next)
              && RepliesTo(s, db.tables, JoinPlan(s, COURSES, c, v, 0, STUDENTS, 2, p), res)
    ensures fault.None? && TextEntry(table2, p) ==>
              (ShowsJoin(s, res, table1, c, v, table2, p) <==>
               JoinClear(s, db.tables, cat, Lookup(cat, PairName()), table1, c, v, 0, table2, 2, p))
    ensures fault.None? && TextEntry(table2, p) ==> RightAfter(s, cat, table1, c, v, table2, p, res)
    ensures fault.None? && NothingInTheWay(cat, table1, table2) ==>
              ShowsEntry(s, "string", res, table2, p, PlainJoin(table1.table, c, v, 0, table2.table, 2))
  {
    hide Assumptions, LabelsDistinct, EntriesDistinct, Homomorphic, Represents, Storable, Tag, ValueKey, KeysInScope,
      WellFormed, RunPlans, Uploaded, Area, SessionUploads, NothingInTheWay, ShowsEntry, PlainJoin, EntryInScope,
      HasColumn, JoinPairs, Total, TextEntry, ShowsJoin, RightAfter, JoinClear, Lookup, JoinAsked, JoinPlan, RepliesTo;
    LabelsAreDistinctNow(s);
    var service;
    service, fault := UploadPair(s, db, cat, table1, table2, c, v);
    next := service.catalog;
    if fault.Some? {
      return fault, None, next;
    }
    res := AskForJoin(service, table1, c, v, table2, p);
    if TextEntry(table2, p) {
      SessionShownIff(s, cat, table1, table2, next, db.tables, c, v, p, res);
    }
    if NothingInTheWay(cat, table1, table2) {
      SessionAnswer(s, cat, table1, table2, next, db.tables, c, v, p, res);
    }
  }

  lemma FirstFits(s: Scheme, cat: Catalog, t1: Table, t2: Table, c: nat, v: string)
    requires WellFormed(t1.table, t1.columnsType) && WellFormed(t2.table, t2.columnsType)
    requires HasColumn(t1.table, 0) && HasColumn(t2.table, 2) && SessionFits(s, cat, t1, t2, c, v)
    ensures Admits(s, cat, t1.name, t1.table, t1.columnsType)
  {
    hide KeysInScope, Area, Total, Lookup, Admits, JoinPairs, JoinName;
    TableFits(s, cat, t1);
  }

  /** The scope covers two sessions over an empty database, the second one with no more students. */
  ghost predicate TwoSessionsFit(s: Scheme, t1: Table, t2: Table, c: nat, v: string)
    requires WellFormed(t1.table, t1.columnsType) && WellFormed(t2.table, t2.columnsType)
    requires HasColumn(t1.table, 0) && HasColumn(t2.table, 2)
  {
    && KeysInScope(s, t1) && KeysInScope(s, t2)
    && 2 * (Area(|t1.table|, |t1.table[0]|) + Area(|t2.table|, |t2.table[0]|)) <= s.limit
    && 2 * |JoinPairs(t1.table, 0, t2.table, 2)| <= s.limit
    && Tag(s, ValueKey(t1.name, c, v)) in s.tags
  }

  lemma FirstSessionFits(s: Scheme, t1: Table, t2: Table, c: nat, v: string)
    requires WellFormed(t1.table, t1.columnsType) && WellFormed(t2.table, t2.columnsType)
    requires HasColumn(t1.table, 0) && HasColumn(t2.table, 2) && TwoSessionsFit(s, t1, t2, c, v)
    ensures SessionFits(s, map[], t1, t2, c, v)
  {
    hide KeysInScope, Area, Total, JoinPairs, JoinName, Tag, ValueKey;
    TotalOfEmpty();
  }

  lemma FewerPairs(t1: Table, u2: Table, t2: Table)
    requires HasColumn(t1.table, 0) && HasColumn(u2.table, 2) && HasColumn(t2.table, 2) && t2.table <= u2.table
    ensures |JoinPairs(t1.table, 0, t2.table, 2)| <= |JoinPairs(t1.table, 0, u2.table, 2)|
  {
    SubsetSmaller(JoinPairs(t1.table, 0, t2.table, 2), JoinPairs(t1.table, 0, u2.table, 2));
  }

  lemma {:induction false} FewerRows(height: nat, taller: nat, width: nat)
    requires height <= taller
    ensures Area(height, width) <= Area(taller, width)
  {
    if width > 0 {
      FewerRows(height, taller, width - 1);
    }
  }

  /** Deleting rows takes no key out of scope. */
  lemma KeysOfFewerRows(s: Scheme, u: Table, t: Table)
    requires WellFormed(u.table, u.columnsType) && WellFormed(t.table, t.columnsType) && CutDown(u, t)
    requires KeysInScope(s, u)
    ensures KeysInScope(s, t)
  {
    hide Tag, Indexed, ValueKey;
    assert u.table[0] == t.table[0];
    forall r: nat, c: nat | r < |t.table| && c < |t.table[0]|
      ensures Tag(s, ValueKey(t.name, c, t.table[r][c])) in s.tags
    {
      assert t.table[r] == u.table[r];
    }
  }

  /** After one session there is room for another one with no more students. */
  lemma SecondSessionFits(s: Scheme, t1: Table, u2: Table, next: Catalog, t2: Table, c: nat, v: string)
    requires WellFormed(t1.table, t1.columnsType) && WellFormed(u2.table, u2.columnsType)
    requires HasColumn(t1.table, 0) && HasColumn(u2.table, 2) && t1.name == COURSES && u2.name == STUDENTS
    requires WellFormed(t2.table, t2.columnsType) && HasColumn(t2.table, 2) && t2.name == STUDENTS
    requires KeysInScope(s, t2) && Area(|t2.table|, |t2.table[0]|) <= Area(|u2.table|, |u2.table[0]|)
    requires |JoinPairs(t1.table, 0, t2.table, 2)| <= |JoinPairs(t1.table, 0, u2.table, 2)|
    requires TwoSessionsFit(s, t1, u2, c, v) && SessionUploads(s, map[], t1, u2, next)
    ensures SessionFits(s, next, t1, t2, c, v)
  {
    hide KeysInScope, Area, Total, JoinPairs, JoinName, Tag, ValueKey, Uploaded, Joined, SessionUploads, Lookup,
      JoinIn, HasColumn, Overlay;
    var a, b, j := SessionParts(s, map[], t1, u2, next);
    forall n | n in {ROW_TABLE, VALUE_TABLE, COLUMN_TABLE}
      ensures Total(Lookup(next, n)) <= Area(|t1.table|, |t1.table[0]|) + Area(|u2.table|, |u2.table[0]|)
    {
      UploadTotals(s, map[], t1, a, n);
      UploadTotals(s, a, u2, b, n);
      EmptyTotals(n);
    }
    EmptyTotals(PairName());
    OverlayTotal(Lookup(map[], PairName()), j);
  }

  lemma EmptyTotals(n: string)
    ensures Total(Lookup(map[], n)) == 0
  {
  }

  lemma EmptyIsInNoWay(t1: Table, t2: Table)
    requires WellFormed(t1.table, t1.columnsType) && WellFormed(t2.table, t2.columnsType)
    requires HasColumn(t1.table, 0) && HasColumn(t2.table, 2)
    ensures NothingInTheWay(map[], t1, t2)
  {
    hide NothingLonger;
    NothingAtFirst(t1.name);
    NothingAtFirst(t2.name);
    NothingIsNotLonger(map[], t1);
    NothingIsNotLonger(map[], t2);
  }

  /** The first session over an empty database shows the plaintext join. */
  method FirstSession(s: Scheme, table1: Table, table2: Table, c: nat, v: string, p: nat)
    returns (fault: Option<Error>, res: Option<Result<seq<seq<string>>>>)
    requires Assumptions(s) && table1.name == COURSES && table2.name == STUDENTS
    requires WellFormed(table1.table, table1.columnsType) && WellFormed(table2.table, table2.columnsType)
    requires HasColumn(table1.table, 0) && HasColumn(table2.table, 2) && SessionFits(s, map[], table1, table2, c, v)
    requires c < |table1.table[0]| && EntryInScope(s, table2, p) && JoinAsked(table1, c, v, table2, p)
    ensures fault.None? <==> Storable(s, table1.table, table1.columnsType)
                             && Storable(s, table2.table, table2.columnsType)
    ensures fault.None? ==>
              ShowsEntry(s, "string", res, table2, p, PlainJoin(table1.table, c, v, 0, table2.table, 2))
  {
    hide Assumptions, Storable, SessionFits, Represents, SessionUploads, NothingInTheWay, ShowsEntry, PlainJoin,
      EntryInScope, Replies, RunPlans;
    var db := new Database();
    EmptyRepresents(s);
    EmptyIsInNoWay(table1, table2);
    ghost var next;
    fault, res, next := TestSql(s, db, map[], table1, table2, c, v, p);
  }

  lemma EmptyRepresents(s: Scheme)
    ensures Represents(s, map[], map[])
  {
  }
}
