/** The client service: its state, the uploads that change it, and what each upload does to it. */
module Service {
  import opened Wrappers
  import opened Scheme
  import opened Cells
  import opened Tables
  import opened MultiMaps
  import opened Stores
  import opened DataMapper
  import opened Catalogs
  import opened Executor
  import opened Planner
  import opened Csv

  // ----- what one upload does -----

  /** The tables the client remembers, and the multimaps the database holds. */
  datatype State = State(tables: map<string, Table>, catalog: Catalog)

  /** `uploadTableIntoSql` and `uploadFileIntoSql`. */
  datatype Event = ByTable(t: Table) | ByFile(t: Table)

  /** The three indexes of a table: rows, values and columns, each with as many entries as the table has
      cells that it holds. */
  ghost predicate AreIndexes(s: Scheme, t: Table, r: MultiMap, v: MultiMap, c: MultiMap)
    requires WellFormed(t.table, t.columnsType)
  {
    && IsRowIndex(s, r, t.name, t.table, t.columnsType)
    && IsValueIndex(s, v, t.name, t.table, |t.table[0]|)
    && IsColIndex(s, c, t.name, t.table, t.columnsType)
    && Total(r) == Total(c) == Area(|t.table|, Position(t.columnsType, |t.table[0]|))
    && Total(v) == Area(|t.table|, |t.table[0]|)
  }

  /** The catalog after the three indexes of a table were merged into it. */
  ghost predicate Uploaded(s: Scheme, cat: Catalog, t: Table, next: Catalog)
    requires WellFormed(t.table, t.columnsType)
  {
    exists r, v, c ::
      && AreIndexes(s, t, r, v, c)
      && next == Merge(Merge(Merge(cat, ROW_TABLE, r), VALUE_TABLE, v), COLUMN_TABLE, c)
  }

  /** The catalog after a join index was merged into it. */
  ghost predicate Joined(s: Scheme, cat: Catalog, t1: Table, j1: nat, t2: Table, j2: nat, next: Catalog)
    requires HasColumn(t1.table, j1) && HasColumn(t2.table, j2)
  {
    exists j ::
      && IsJoinIndex(s, j, t1.name, t1.table, j1, t2.name, t2.table, j2)
      && Total(j) == |JoinPairs(t1.table, j1, t2.table, j2)|
      && next == Merge(cat, JoinName(t1.name, j1, t2.name, j2), j)
  }

  const COURSES := "courseinfo"
  const STUDENTS := "student"

  predicate PairPresent(tables: map<string, Table>) {
    STUDENTS in tables && COURSES in tables
  }

  /** When the two tables that are joined by the service are there, they have the join columns. */
  predicate JoinReady(tables: map<string, Table>) {
    PairPresent(tables) ==> HasColumn(tables[COURSES].table, 0) && HasColumn(tables[STUDENTS].table, 2)
  }

  /** There is room for the join of the pair once it is there. */
  ghost predicate JoinHasRoom(s: Scheme, cat: Catalog, tables: map<string, Table>)
    requires JoinReady(tables)
  {
    PairPresent(tables) ==>
      var t1, t2 := tables[COURSES], tables[STUDENTS];
      AdmitsJoin(s, cat, t1.name, t1.table, 0, t2.name, t2.table, 2)
  }

  /** `checkAndCreateJoinMM`. */
  ghost predicate JoinChecked(s: Scheme, tables: map<string, Table>, cat: Catalog, next: Catalog)
    requires JoinReady(tables)
  {
    if PairPresent(tables) then Joined(s, cat, tables[COURSES], 0, tables[STUDENTS], 2, next) else next == cat
  }

  /** What the source asks of a table that is uploaded. */
  predicate Accepts(tables: map<string, Table>, t: Table) {
    WellFormed(t.table, t.columnsType) && JoinReady(tables[t.name := t])
  }

  /** One upload. The table is remembered first; when a cell makes a builder throw, nothing is
      written; only an upload by table brings the join up to date. */
  ghost predicate Step(s: Scheme, st: State, ev: Event, next: State) {
    && Accepts(st.tables, ev.t)
    && next.tables == st.tables[ev.t.name := ev.t]
    && if !Storable(s, ev.t.table, ev.t.columnsType) then next.catalog == st.catalog
       else exists mid :: Uploaded(s, st.catalog, ev.t, mid)
              && if ev.ByTable? then JoinChecked(s, next.tables, mid, next.catalog) else next.catalog == mid
  }

  // ----- the methods -----

  /** Merging an index in the catalog and writing its flat form in the database. */
  method Insert(s: Scheme, db: Database, ghost cat: Catalog, name: string, mm: RowMultiMap)
    requires EntriesDistinct(s) && mm.Valid() && Represents(s, cat, db.tables)
    requires Fits(s, mm.maps) && HasRoom(s, cat, name, Total(mm.maps))
    modifies db
    ensures Represents(s, Merge(cat, name, mm.maps), db.tables)
  {
    hide EntriesDistinct, Represents, Fits, HasRoom, IsFlat, Total;
    var emm := Setup(s, mm);
    MergeRepresents(s, cat, db.tables, name, mm.maps, emm.kvMap);
    db.InsertEMM(emm, name);
  }

  /** `generateEmmIntoSql`. All three indexes are built before the first is written. */
  method GenerateEmmIntoSql(s: Scheme, db: Database, ghost cat: Catalog, t: Table)
    returns (fault: Option<Error>, ghost next: Catalog)
    requires EntriesDistinct(s) && Homomorphic(s) && Represents(s, cat, db.tables)
    requires WellFormed(t.table, t.columnsType) && Admits(s, cat, t.name, t.table, t.columnsType)
    modifies db
    ensures Represents(s, next, db.tables)
    ensures fault.None? <==> Storable(s, t.table, t.columnsType)
    ensures if fault.None? then Uploaded(s, cat, t, next) else next == cat && db.tables == old(db.tables)
    ensures fault.Some? ==> exists r: nat, c: nat :: FirstFault(s, t.table, t.columnsType, r, c, fault.value)
  {
    hide EntriesDistinct, LabelsDistinct, Homomorphic, Represents, IsRowIndex, IsValueIndex, IsColIndex, WellFormed,
      Admits, Storable, FirstFault, Total, Fits, Position, Overlay, Area;
    next := cat;
    var mmv := ValueMultiMapConstruct(s, t.name, t.table, t.columnsType);
    var mmr := RowMultiMapConstruct(s, t.name, t.table, t.columnsType);
    if mmr.Raised? {
      return Some(mmr.error), cat;
    }
    var mmc := ColMultiMapConstruct(s, t.name, t.table, t.columnsType);
    RowIndexFits(s, cat, mmr.value.maps, t.name, t.table, t.columnsType);
    ValueIndexFits(s, cat, mmv.maps, t.name, t.table, t.columnsType);
    ColIndexFits(s, cat, mmc.value.maps, t.name, t.table, t.columnsType);
    Insert(s, db, cat, ROW_TABLE, mmr.value);
    ghost var withRows := Merge(cat, ROW_TABLE, mmr.value.maps);
    Insert(s, db, withRows, VALUE_TABLE, mmv);
    ghost var withValues := Merge(withRows, VALUE_TABLE, mmv.maps);
    Insert(s, db, withValues, COLUMN_TABLE, mmc.value);
    next := Merge(withValues, COLUMN_TABLE, mmc.value.maps);
    fault := None;
  }

  /** `generateJoinEmmIntoSql`. */
  method GenerateJoinEmmIntoSql(s: Scheme, db: Database, ghost cat: Catalog, t1: Table, t2: Table, j1: nat, j2: nat)
    returns (ghost next: Catalog)
    requires EntriesDistinct(s) && Represents(s, cat, db.tables)
    requires HasColumn(t1.table, j1) && HasColumn(t2.table, j2)
    requires AdmitsJoin(s, cat, t1.name, t1.table, j1, t2.name, t2.table, j2)
    modifies db
    ensures Represents(s, next, db.tables) && Joined(s, cat, t1, j1, t2, j2, next)
  {
    hide EntriesDistinct, Represents, IsJoinIndex, Total, Overlay, JoinName, JoinPairs;
    var mmjoin := JoinMultiMapConstruct(s, t1.name, t2.name, t1.table, t2.table, j1, j2);
    JoinIndexFits(s, mmjoin.maps, t1, j1, t2, j2);
    var name := JoinName(t1.name, j1, t2.name, j2);
    Insert(s, db, cat, name, mmjoin);
    next := Merge(cat, name, mmjoin.maps);
  }

  lemma JoinIndexFits(s: Scheme, mm: MultiMap, t1: Table, j1: nat, t2: Table, j2: nat)
    requires HasColumn(t1.table, j1) && HasColumn(t2.table, j2)
    requires IsJoinIndex(s, mm, t1.name, t1.table, j1, t2.name, t2.table, j2)
    requires forall r: nat :: r < |t1.table| ==> Tag(s, Keys.Indexed(t1.name, r)) in s.tags
    requires Total(mm) <= s.limit
    ensures Fits(s, mm)
  {
    hide Tag, Keys.Indexed, Total, RowTags;
  }

  class EncryptService {
    const s: Scheme
    const db: Database
    var currentTable: map<string, Table>
    var tableMap: map<string, TableInfo>
    var currentPlan: seq<SqlPlan>
    ghost var catalog: Catalog

    ghost predicate Valid()
      reads this, db
    {
      && EntriesDistinct(s) && LabelsDistinct(s) && Homomorphic(s)
      && Represents(s, catalog, db.tables)
      && currentTable.Keys == tableMap.Keys
      && (forall n :: n in currentTable ==> currentTable[n].name == n && tableMap[n] == InfoOf(currentTable[n]))
      && JoinReady(currentTable)
    }

    ghost function Now(): State
      reads this
    {
      State(currentTable, catalog)
    }

    /** The service starts without tables, over whatever the database holds. */
    constructor (s: Scheme, db: Database, ghost cat: Catalog)
      requires Assumptions(s) && Represents(s, cat, db.tables)
      ensures Valid() && this.s == s && this.db == db && Now() == State(map[], cat)
    {
      EntriesAreDistinct(s);
      LabelsAreDistinct(s);
      this.s, this.db := s, db;
      currentTable, tableMap, currentPlan, catalog := map[], map[], [], cat;
    }

    /** Room for the table and, once both are there, for the join. */
    ghost predicate HasRoomFor(t: Table)
      reads this
      requires Accepts(currentTable, t)
    {
      Admits(s, catalog, t.name, t.table, t.columnsType) && JoinHasRoom(s, catalog, currentTable[t.name := t])
    }

    /** What the client remembers of a table for its parser, field by field. */
    ghost predicate Knows(table: Table)
      reads this
    {
      && table.name in tableMap
      && tableMap[table.name].name == table.name
      && tableMap[table.name].columns == table.columns
      && tableMap[table.name].columnsType == table.columnsType
      && tableMap[table.name].keyType == table.keyType
    }

    /** The part both ways of uploading share: remember the table, then write its indexes. */
    method Remember(table: Table) returns (fault: Option<Error>)
      requires Valid() && Accepts(currentTable, table) && Admits(s, catalog, table.name, table.table, table.columnsType)
      modifies this, db
      ensures Valid() && currentTable == old(currentTable)[table.name := table]
      ensures Knows(table) && tableMap - {table.name} == old(tableMap) - {table.name}
      ensures fault.None? <==> Storable(s, table.table, table.columnsType)
      ensures if fault.None? then Uploaded(s, old(catalog), table, catalog)
              else catalog == old(catalog) && db.tables == old(db.tables)
    {
      hide EntriesDistinct, LabelsDistinct, Homomorphic, Represents, Admits, Storable, Uploaded, WellFormed, FirstFault;
      currentTable := currentTable[table.name := table];
      tableMap := tableMap[table.name := InfoOf(table)];
      ghost var next: Catalog;
      fault, next := GenerateEmmIntoSql(s, db, catalog, table);
      catalog := next;
    }

    /** `uploadTableIntoSql`. */
    method UploadTableIntoSql(table: Table) returns (fault: Option<Error>)
      requires Valid() && Accepts(currentTable, table) && HasRoomFor(table)
      modifies this, db
      ensures Valid() && Step(s, old(Now()), ByTable(table), Now())
      ensures Knows(table) && tableMap - {table.name} == old(tableMap) - {table.name}
      ensures fault.None? <==> Storable(s, table.table, table.columnsType)
    {
      hide EntriesDistinct, LabelsDistinct, Homomorphic, Represents, Admits, Storable, Uploaded, WellFormed, Joined;
      fault := Remember(table);
      if fault.None? {
        CheckAndCreateJoinMM(old(catalog), table);
      }
    }

    /** `checkAndCreateJoinMM`. */
    method CheckAndCreateJoinMM(ghost before: Catalog, ghost latest: Table)
      requires Valid() && WellFormed(latest.table, latest.columnsType) && Uploaded(s, before, latest, catalog)
      requires JoinHasRoom(s, before, currentTable)
      modifies this`catalog, db
      ensures Valid() && JoinChecked(s, currentTable, old(catalog), catalog)
    {
      hide EntriesDistinct, LabelsDistinct, Homomorphic, Represents, Joined, WellFormed, HasRoom, Uploaded;
      if STUDENTS !in currentTable || COURSES !in currentTable {
        return;
      }
      var student := currentTable[STUDENTS];
      var courseinfo := currentTable[COURSES];
      UploadKeepsOthers(s, before, latest, catalog, JoinName(courseinfo.name, 0, student.name, 2));
      JoinNameIsOther(courseinfo.name, 0, student.name, 2);
      RoomKept(s, before, catalog, JoinName(courseinfo.name, 0, student.name, 2),
               |JoinPairs(courseinfo.table, 0, student.table, 2)|);
      catalog := GenerateJoinEmmIntoSql(s, db, catalog, courseinfo, student, 0, 2);
    }

    /** `uploadFileIntoSql`; the join is not brought up to date. */
    method UploadFileIntoSql(fileName: string, content: string) returns (fault: Option<Error>)
      requires var t := TableOfFile(fileName, content);
               Valid() && Accepts(currentTable, t) && Admits(s, catalog, t.name, t.table, t.columnsType)
      modifies this, db
      ensures Valid() && Step(s, old(Now()), ByFile(TableOfFile(fileName, content)), Now())
      ensures var t := TableOfFile(fileName, content);
              Knows(t) && tableMap - {t.name} == old(tableMap) - {t.name}
      ensures var t := TableOfFile(fileName, content);
              fault.None? <==> Storable(s, t.table, t.columnsType)
    {
      hide EntriesDistinct, LabelsDistinct, Homomorphic, Represents, Admits, Storable, Uploaded, WellFormed,
          Assembled, Lines;
      var table := FileReader(content, true);
      table := table.(name := CutAt(fileName, '.'));
      fault := Remember(table);
    }

    /** `executeSql`, behind the regular expressions of the parser. A query without a plan has no answer. The
        stored tables and the remembered ones stay as they are. */
    method ExecuteSql(q: Query) returns (out: Option<Result<seq<seq<string>>>>)
      requires Valid()
      modifies this`currentPlan
      ensures Valid()
      ensures match PlanOf(s, tableMap, q)
              case None => out == None && currentPlan == old(currentPlan)
              case Some(plans) => currentPlan == plans && RepliesTo(s, db.tables, plans, out)
    {
      hide EntriesDistinct, LabelsDistinct, Homomorphic, Represents, RunPlans, DecryptField, PlanOf;
      var plans := ParseSql(s, tableMap, q);
      if plans.None? {
        return None;
      }
      currentPlan := plans.value;
      var found := Execute(s, db.tables, currentPlan);
      if found.None? {
        return None;
      }
      var resultType := currentPlan[|currentPlan| - 1].params[0];
      var res := DecryptedResult(s, resultType, found.value);
      out := Some(res);
    }
  }

  /** What the decrypted answer is for the fields a plan found: one row for each. */
  ghost predicate Answers(s: Scheme, resultType: string, cells: seq<string>, out: Result<seq<seq<string>>>) {
    match out
    case Ok(rows) =>
      |rows| == |cells|
      && forall i :: 0 <= i < |cells| ==>
           |rows[i]| == 1 && DecryptField(s, resultType, cells[i]) == Ok(rows[i][0])
    case Raised(e) => exists i :: 0 <= i < |cells| && DecryptField(s, resultType, cells[i]) == Raised(e)
  }

  /** What `executeSql` returns: nothing when the plan failed, and else the decrypted answer. */
  ghost predicate Replies(s: Scheme, resultType: string, found: Option<seq<string>>,
      out: Option<Result<seq<seq<string>>>>)
  {
    (out.Some? <==> found.Some?) && (out.Some? ==> Answers(s, resultType, found.value, out.value))
  }

  /** The reply to a plan: what it finds, decrypted by the type that its result step asks for. */
  ghost predicate RepliesTo(s: Scheme, tables: StoredTables, plans: seq<SqlPlan>,
      out: Option<Result<seq<seq<string>>>>)
    requires LabelsDistinct(s) && HasResult(plans)
  {
    Replies(s, ResultType(plans), RunPlans(s, tables, plans, None), out)
  }

  /** The table of an uploaded file. Its name is the file name up to the first dot, or all of it when it
      has none: the index -1 that stands for a missing dot is taken as the largest length. */
  function TableOfFile(fileName: string, content: string): Table {
    Assembled(Lines(content), true).(name := CutAt(fileName, '.'))
  }

  lemma UploadKeepsOthers(s: Scheme, cat: Catalog, t: Table, next: Catalog, name: string)
    requires WellFormed(t.table, t.columnsType) && Uploaded(s, cat, t, next)
    ensures name !in {ROW_TABLE, VALUE_TABLE, COLUMN_TABLE} ==>
              Lookup(next, name) == Lookup(cat, name) && (name in next <==> name in cat)
  {
    hide AreIndexes, Overlay;
  }

  lemma RoomKept(s: Scheme, cat: Catalog, next: Catalog, name: string, entries: nat)
    requires Lookup(next, name) == Lookup(cat, name)
    ensures HasRoom(s, cat, name, entries) <==> HasRoom(s, next, name, entries)
  {
  }
}
