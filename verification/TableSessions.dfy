/** Sessions with one table: it is uploaded over whatever the database holds, and asked by the names of its
    columns. */
module TableSessions {
  import opened Wrappers
  import opened Numerals
  import opened Keys
  import opened Scheme
  import opened Cells
  import opened Tables
  import opened MultiMaps
  import opened Stores
  import opened Catalogs
  import opened Sums
  import opened Executor
  import opened Planner
  import opened Service
  import opened Queries
  import opened Leftovers
  import opened Runs
  import opened Answering
  import opened Histories

  // ----- the upload -----

  lemma OneTableIsNoPair(t: Table)
    ensures !PairPresent(map[t.name := t])
  {
  }

  lemma OneStep(s: Scheme, cat: Catalog, t: Table, next: State)
    requires WellFormed(t.table, t.columnsType) && Step(s, State(map[], cat), ByTable(t), next)
    ensures if Storable(s, t.table, t.columnsType) then Uploaded(s, cat, t, next.catalog) else next.catalog == cat
  {
    hide Uploaded, Storable, WellFormed, Joined;
    OneTableIsNoPair(t);
  }

  /** A new service over the database, and its first upload. */
  method UploadOne(s: Scheme, db: Database, ghost cat: Catalog, t: Table)
    returns (service: EncryptService, fault: Option<Error>)
    requires Assumptions(s) && Represents(s, cat, db.tables)
    requires WellFormed(t.table, t.columnsType) && Admits(s, cat, t.name, t.table, t.columnsType)
    modifies db
    ensures fresh(service) && service.Valid() && service.s == s && service.db == db
    ensures fault.None? <==> Storable(s, t.table, t.columnsType)
    ensures if fault.None? then Uploaded(s, cat, t, service.catalog) else service.catalog == cat
    ensures Remembers(service.tableMap, t)
  {
    hide Assumptions, LabelsDistinct, EntriesDistinct, Homomorphic, Represents, Storable, Step, Admits, WellFormed,
      Uploaded, PairPresent;
    OneTableIsNoPair(t);
    service := new EncryptService(s, db, cat);
    assert map[][t.name := t] == map[t.name := t];
    fault := service.UploadTableIntoSql(t);
    OneStep(s, cat, t, service.Now());
  }

  // ----- select -----

  /** What the query means: column `p` of the rows whose column `c` is `v`. */
  function PlainSelect(t: Table, c: nat, v: string, p: nat): (answer: seq<seq<string>>)
    requires WellFormed(t.table, t.columnsType) && p < |t.table[0]|
    ensures |answer| == |RowsWith(t, c, v)|
  {
    RowsWithBelow(t, c, v);
    var rs := RowsWith(t, c, v);
    seq(|rs|, i requires 0 <= i < |rs| => [t.table[rs[i]][p]])
  }

  /** Entry `p` of a stored row belongs to column `p`. */
  predicate OwnEntry(t: Table, p: nat)
    requires WellFormed(t.table, t.columnsType)
  {
    p < Position(t.columnsType, |t.table[0]|) && ColumnAt(t.columnsType, |t.table[0]|, p) == p
  }

  /** The cells that the query selects come back as they were entered. */
  predicate SelectedFaithful(s: Scheme, t: Table, c: nat, v: string, p: nat)
    requires WellFormed(t.table, t.columnsType) && p < |t.table[0]|
  {
    forall i :: 0 <= i < |PlainSelect(t, c, v, p)| ==> Faithful(s, t.columnsType[p], PlainSelect(t, c, v, p)[i][0])
  }

  /** An answer of empty texts, or none. */
  predicate OnlyEmptyTexts(out: Option<Result<seq<seq<string>>>>) {
    out.Some? ==> out.value.Ok? && forall i :: 0 <= i < |out.value.value| ==> out.value.value[i] == [""]
  }

  lemma OtherTypesShowEmptyTexts(s: Scheme, resultType: string, found: Option<seq<string>>,
      out: Option<Result<seq<seq<string>>>>)
    requires Replies(s, resultType, found, out) && !Supported(resultType)
    ensures OnlyEmptyTexts(out)
  {
    hide DecryptField;
    if found.Some? {
      forall i | 0 <= i < |found.value| ensures DecryptField(s, resultType, found.value[i]) == Ok("") {
        OtherTypesShowNothing(s, resultType, found.value[i]);
      }
      assert out.value.Ok?;
      forall i | 0 <= i < |out.value.value| ensures out.value.value[i] == [""] {
        assert out.value.value[i] == [out.value.value[i][0]];
      }
    }
  }

  lemma ShownIsPlainIff(s: Scheme, out: Option<Result<seq<seq<string>>>>, t: Table, c: nat, v: string, p: nat)
    requires SymmetricInverts(s) && WellFormed(t.table, t.columnsType) && p < |t.table[0]|
    requires Supported(t.columnsType[p]) && ShowsAnswer(s, out, t, p, RowsWith(t, c, v))
    ensures out == Some(Ok(PlainSelect(t, c, v, p))) <==> SelectedFaithful(s, t, c, v, p)
  {
    hide SymmetricInverts, Faithful, Shown, Fault, RowsWith;
    PlainAnswerIff(s, out.value, t, p, RowsWith(t, c, v));
    var rs, answer := RowsWith(t, c, v), PlainSelect(t, c, v, p);
    assert forall i :: 0 <= i < |rs| ==> answer[i] == [t.table[rs[i]][p]];
    if forall i :: 0 <= i < |rs| ==> out.value.value[i] == [t.table[rs[i]][p]] {
      assert out.value.value == answer;
    }
  }

  /** What the reply to the query of an uploaded table shows. */
  lemma SelectReply(s: Scheme, cat: Catalog, t: Table, next: Catalog, tables: StoredTables, c: nat, v: string, p: nat,
      res: Option<Result<seq<seq<string>>>>)
    requires Assumptions(s) && LabelsDistinct(s) && Represents(s, next, tables)
    requires WellFormed(t.table, t.columnsType) && Uploaded(s, cat, t, next)
    requires Tag(s, ValueKey(t.name, c, v)) in s.tags && OwnEntry(t, p)
    requires RepliesTo(s, tables, SelectPlan(s, t.name, c, v, p, t.columnsType[p]), res)
    ensures ShowsAnswer(s, res, t, p, RowsWith(t, c, v)) <==>
            FieldsOf(s, tables, LeftRows(cat, t, c, v), Dec(p)) == Some([])
    ensures NothingUnder(cat, t.name) ==>
              && ShowsAnswer(s, res, t, p, RowsWith(t, c, v))
              && (res == Some(Ok(PlainSelect(t, c, v, p))) <==> SelectedFaithful(s, t, c, v, p))
  {
    hide Assumptions, LabelsDistinct, Represents, Uploaded, Tag, ValueKey, RepliesTo, SelectPlan, RowsWith, FieldsOf,
      LeftRows, Position, ColumnAt, Dec, OnTop, ShowsAnswer, NothingUnder, PlainSelect, SelectedFaithful;
    UploadOnTop(s, cat, t, next);
    SelectShownIff(s, cat, next, tables, t, c, v, p, t.columnsType[p], res);
    if NothingUnder(cat, t.name) {
      NothingLeftRows(s, cat, tables, t, c, v, Dec(p));
      LabelsAreDistinctNow(s);
      ShownIsPlainIff(s, res, t, c, v, p);
    }
  }

  lemma NothingLeftRows(s: Scheme, cat: Catalog, tables: StoredTables, t: Table, c: nat, v: string, param: string)
    requires WellFormed(t.table, t.columnsType) && NothingUnder(cat, t.name)
    ensures FieldsOf(s, tables, LeftRows(cat, t, c, v), param) == Some([])
  {
    hide ValueKey, RowsWith, Field;
    assert Get(Lookup(cat, VALUE_TABLE), ValueKey(t.name, c, v)) == [];
  }

  /** Asking a service that remembers the table for a column. Further conditions do not filter the answer. */
  method AskForColumn(service: EncryptService, t: Table, c: nat, v: string, p: nat, others: seq<(string, string)>)
    returns (res: Option<Result<seq<seq<string>>>>)
    requires service.Valid() && Remembers(service.tableMap, t) && Named(t, c) && Named(t, p) && Undotted(v)
    requires !IsJoin(others)
    modifies service`currentPlan
    ensures LabelsDistinct(service.s)
    ensures RepliesTo(service.s, service.db.tables, SelectPlan(service.s, t.name, c, v, p, t.columnsType[p]), res)
    ensures !Supported(t.columnsType[p]) ==> OnlyEmptyTexts(res)
  {
    hide PlanOf, Undotted, SelectPlan, Replies, RunPlans, OnlyEmptyTexts, Parts;
    var q := AskSelect(t, c, v, p);
    SelectIsPlanned(service.s, service.tableMap, t, c, v, p);
    ColumnIsOnePart(t, c);
    RestIsIgnored(service.s, service.tableMap, q, [], others);
    assert q.projections + [] == q.projections;
    res := service.ExecuteSql(q.(conditions := q.conditions + others));
    if !Supported(t.columnsType[p]) {
      var plans := SelectPlan(service.s, t.name, c, v, p, t.columnsType[p]);
      OtherTypesShowEmptyTexts(service.s, t.columnsType[p], RunPlans(service.s, service.db.tables, plans, None), res);
    }
  }

  lemma ColumnIsOnePart(t: Table, c: nat)
    requires Named(t, c)
    ensures |Parts(t.columns[c])| == 1
  {
    UndottedIsOnePart(t.columns[c]);
  }

  /** `SELECT p FROM T WHERE c = v` and whatever further conditions of this table, asked after the upload of the
      table. The answer is decrypted by the type of the selected column, and shows the rows of the first
      condition exactly when the row tags left behind theirs lead to no entry; over a database that holds
      nothing of the name it is the plaintext answer, text for text, exactly when the selected cells are
      faithful. */
  method SelectSession(s: Scheme, db: Database, ghost cat: Catalog, t: Table, c: nat, v: string, p: nat,
      others: seq<(string, string)>)
    returns (fault: Option<Error>, res: Option<Result<seq<seq<string>>>>, ghost next: Catalog)
    requires Assumptions(s) && Represents(s, cat, db.tables)
    requires WellFormed(t.table, t.columnsType) && Admits(s, cat, t.name, t.table, t.columnsType)
    requires Named(t, c) && Named(t, p) && Undotted(v) && Tag(s, ValueKey(t.name, c, v)) in s.tags
    requires !IsJoin(others)
    modifies db
    ensures LabelsDistinct(s) && Represents(s, next, db.tables)
    ensures fault.None? <==> Storable(s, t.table, t.columnsType)
    ensures if fault.None? then Uploaded(s, cat, t, next) else next == cat
    ensures fault.None? ==> RepliesTo(s, db.tables, SelectPlan(s, t.name, c, v, p, t.columnsType[p]), res)
    ensures fault.None? && OwnEntry(t, p) ==>
              (ShowsAnswer(s, res, t, p, RowsWith(t, c, v)) <==>
               FieldsOf(s, db.tables, LeftRows(cat, t, c, v), Dec(p)) == Some([]))
    ensures fault.None? && OwnEntry(t, p) && NothingUnder(cat, t.name) ==>
              && ShowsAnswer(s, res, t, p, RowsWith(t, c, v))
              && (res == Some(Ok(PlainSelect(t, c, v, p))) <==> SelectedFaithful(s, t, c, v, p))
    ensures fault.None? && !Supported(t.columnsType[p]) ==> OnlyEmptyTexts(res)
  {
    hide Assumptions, LabelsDistinct, EntriesDistinct, Homomorphic, Represents, Storable, Admits, WellFormed, Uploaded,
      Tag, ValueKey, SelectPlan, RowsWith, FieldsOf, LeftRows, Position, ColumnAt, Dec, ShowsAnswer, RunPlans,
      NothingUnder, PlainSelect, SelectedFaithful, Undotted, OnlyEmptyTexts, RepliesTo, OwnEntry, Remembers, IsJoin;
    LabelsAreDistinctNow(s);
    var service;
    service, fault := UploadOne(s, db, cat, t);
    next := service.catalog;
    if fault.Some? {
      return fault, None, next;
    }
    res := AskForColumn(service, t, c, v, p, others);
    if OwnEntry(t, p) {
      SelectReply(s, cat, t, next, db.tables, c, v, p, res);
    }
  }

  // ----- sum -----

  /** Asking a service that remembers the table for the sum of a column. Conditions do not filter it. */
  method AskForSum(service: EncryptService, t: Table, c: nat, others: seq<(string, string)>)
    returns (res: Option<Result<seq<seq<string>>>>)
    requires service.Valid() && Remembers(service.tableMap, t) && Named(t, c) && !IsJoin(others)
    modifies service`currentPlan
    ensures LabelsDistinct(service.s)
    ensures RepliesTo(service.s, service.db.tables, SumPlan(service.s, t.name, c, t.columnsType[c]), res)
  {
    hide PlanOf, SumPlan, RepliesTo;
    var q := AskSum(t, c);
    SumIsPlanned(service.s, service.tableMap, t, c);
    RestIsIgnored(service.s, service.tableMap, q, [], others);
    assert q.projections + [] == q.projections && q.conditions + others == others;
    res := service.ExecuteSql(q.(conditions := others));
  }

  lemma SumReply(s: Scheme, cat: Catalog, t: Table, next: Catalog, tables: StoredTables, c: nat,
      res: Option<Result<seq<seq<string>>>>)
    requires Assumptions(s) && LabelsDistinct(s) && Represents(s, next, tables)
    requires WellFormed(t.table, t.columnsType) && Uploaded(s, cat, t, next)
    requires c < |t.table[0]| && t.columnsType[c] == "int" && Tag(s, Indexed(t.name, c)) in s.tags
    requires forall i :: 0 <= i < |LeftCells(cat, t, c)| ==> s.isCipher(LeftCells(cat, t, c)[i])
    requires RepliesTo(s, tables, SumPlan(s, t.name, c, t.columnsType[c]), res)
    ensures IntColumn(s, t.table, c) && 0 < s.modulus
    ensures var total := Sum(Numbers(s, t.table, c));
            && (res == Some(Ok([[Dec(total)]])) <==>
                (total + Sum(Decrypted(s, LeftCells(cat, t, c)))) % s.modulus == total)
            && (NothingUnder(cat, t.name) ==> (res == Some(Ok([[Dec(total)]])) <==> total < s.modulus))
  {
    hide Assumptions, LabelsDistinct, Represents, Uploaded, Tag, Indexed, SumPlan, LeftCells, Decrypted, Dec,
      NothingUnder, OnTop, IntColumn, Sum, RepliesTo;
    UploadOnTop(s, cat, t, next);
    SumQueryOverIff(s, cat, next, tables, t, c, res);
    if NothingUnder(cat, t.name) {
      NothingLeftCells(s, cat, t, c);
      SmallMod(Sum(Numbers(s, t.table, c)), s.modulus);
    }
  }

  /** `SELECT SUM(c) FROM T`, whatever conditions of this table stand behind it, asked after the upload of the
      table. The answer is decrypted as a number. It is the sum of the whole column exactly when the
      ciphertexts left behind it do not change that modulo the plain modulus; over a database that holds
      nothing of the name, exactly when it is below the modulus. */
  method SumSession(s: Scheme, db: Database, ghost cat: Catalog, t: Table, c: nat, others: seq<(string, string)>)
    returns (fault: Option<Error>, res: Option<Result<seq<seq<string>>>>, ghost next: Catalog)
    requires Assumptions(s) && Represents(s, cat, db.tables)
    requires WellFormed(t.table, t.columnsType) && Admits(s, cat, t.name, t.table, t.columnsType)
    requires Named(t, c) && c < |t.table[0]| && t.columnsType[c] == "int" && !IsJoin(others)
    requires forall i :: 0 <= i < |LeftCells(cat, t, c)| ==> s.isCipher(LeftCells(cat, t, c)[i])
    modifies db
    ensures Represents(s, next, db.tables) && 0 < s.modulus
    ensures fault.None? <==> Storable(s, t.table, t.columnsType)
    ensures if fault.None? then Uploaded(s, cat, t, next) && IntColumn(s, t.table, c) else next == cat
    ensures fault.None? ==>
              var total := Sum(Numbers(s, t.table, c));
              && (res == Some(Ok([[Dec(total)]])) <==>
                  (total + Sum(Decrypted(s, LeftCells(cat, t, c)))) % s.modulus == total)
              && (NothingUnder(cat, t.name) ==> (res == Some(Ok([[Dec(total)]])) <==> total < s.modulus))
  {
    hide Assumptions, LabelsDistinct, EntriesDistinct, Homomorphic, Represents, Storable, WellFormed, Uploaded, Tag,
      Indexed, SumPlan, LeftCells, Decrypted, Dec, RunPlans, NothingUnder, RepliesTo, IntColumn, Sum, Admits,
      Remembers, IsJoin;
    LabelsAreDistinctNow(s);
    ModulusPositive(s);
    KeyOfColumn(s, cat, t, c);
    var service;
    service, fault := UploadOne(s, db, cat, t);
    next := service.catalog;
    if fault.Some? {
      return fault, None, next;
    }
    res := AskForSum(service, t, c, others);
    SumReply(s, cat, t, next, db.tables, c, res);
  }

  lemma KeyOfColumn(s: Scheme, cat: Catalog, t: Table, c: nat)
    requires WellFormed(t.table, t.columnsType) && Admits(s, cat, t.name, t.table, t.columnsType) && c < |t.table[0]|
    ensures Tag(s, Indexed(t.name, c)) in s.tags
  {
    hide Tag, Indexed, ValueKey, HasRoom, Area;
  }

  lemma NothingLeftCells(s: Scheme, cat: Catalog, t: Table, c: nat)
    requires NothingUnder(cat, t.name)
    ensures Sum(Decrypted(s, LeftCells(cat, t, c))) == 0
  {
    hide Indexed, ValueKey;
    assert Get(Lookup(cat, COLUMN_TABLE), Indexed(t.name, c)) == [];
    assert Decrypted(s, []) == [];
  }
}
