/** What the query plans find, against the plaintext tables. */
module Queries {
  import opened Wrappers
  import opened Numerals
  import opened Keys
  import opened Hex
  import opened Scheme
  import opened Cells
  import opened Tables
  import opened MultiMaps
  import opened Stores
  import opened DataMapper
  import opened Catalogs
  import opened Sums
  import opened Executor
  import opened Planner
  import opened Service
  import opened Serving
  import opened CrossProducts

  // ----- walking in a represented database -----

  /** A walk in a stored table finds the list of the multimap that the table stands for, and fails when
      the table was never created. */
  lemma WalkInCatalog(s: Scheme, cat: Catalog, tables: StoredTables, name: string, key: string)
    requires Assumptions(s) && Represents(s, cat, tables) && Tag(s, key) in s.tags
    ensures LabelsDistinct(s)
    ensures WalkIn(s, tables, name, Tag(s, key)) == if name in cat then Some(Get(cat[name], key)) else None
  {
    hide IsFlat, Assumptions, Tag, Total, EntriesDistinct, LabelsDistinct;
    LabelsAreDistinctNow(s);
    if name in cat {
      StoreOf(s, cat, tables, name);
      FlatSize(s, cat[name], tables[name]);
      WalkFlat(s, cat[name], tables[name], key);
    }
  }

  lemma LabelsAreDistinctNow(s: Scheme)
    requires Assumptions(s)
    ensures LabelsDistinct(s) && EntriesDistinct(s) && Homomorphic(s) && PrfInjective(s) && SymmetricInverts(s)
  {
    hide CollisionFree, LabelsDistinct, EntriesDistinct;
    LabelsAreDistinct(s);
    EntriesAreDistinct(s);
  }

  /** Following the tags of rows through a join store. */
  lemma {:induction false} WalkAllJoined(s: Scheme, cat: Catalog, tables: StoredTables, name: string,
                                         t1: Table, j1: nat, t2: Table, j2: nat, rs: seq<nat>)
    requires Assumptions(s) && LabelsDistinct(s) && Represents(s, cat, tables)
    requires HasColumn(t1.table, j1) && HasColumn(t2.table, j2) && JoinIn(s, Lookup(cat, name), t1, j1, t2, j2)
    requires Below(rs, |t1.table|) && forall i :: 0 <= i < |rs| ==> Tag(s, Indexed(t1.name, rs[i])) in s.tags
    requires rs != [] ==> name in cat
    ensures WalkAll(s, tables, name, RowTags(s, t1.name, rs))
         == Some(RowTags(s, t2.name, JoinedRows(t1.table, j1, t2.table, j2, rs)))
  {
    hide Assumptions, LabelsDistinct, Represents, Indexed, Tag, WalkIn, JoinIn, Matches, RowTags, JoinedRows;
    if rs == [] {
      NoTags(s, t1, j1, t2, j2);
    } else {
      var front, r := rs[..|rs| - 1], rs[|rs| - 1];
      assert rs == front + [r];
      WalkAllJoined(s, cat, tables, name, t1, j1, t2, j2, front);
      WalkInCatalog(s, cat, tables, name, Indexed(t1.name, r));
      JoinList(s, Lookup(cat, name), t1, j1, t2, j2, r);
      RowTagsAppend(s, t1.name, front, r);
      JoinedRowsAppend(t1.table, j1, t2.table, j2, front, r);
      var partners := Matches(t2.table, j2, t1.table[r][j1], |t2.table|);
      RowTagsConcat(s, t2.name, JoinedRows(t1.table, j1, t2.table, j2, front), partners);
      WalkAllAppend(s, tables, name, RowTags(s, t1.name, front), Tag(s, Indexed(t1.name, r)));
    }
  }

  lemma NoTags(s: Scheme, t1: Table, j1: nat, t2: Table, j2: nat)
    requires HasColumn(t1.table, j1) && HasColumn(t2.table, j2)
    ensures RowTags(s, t1.name, []) == [] == RowTags(s, t2.name, JoinedRows(t1.table, j1, t2.table, j2, []))
  {
  }

  lemma WalkAllAppend(s: Scheme, tables: StoredTables, name: string, tags: seq<string>, tag: string)
    requires LabelsDistinct(s)
    ensures WalkAll(s, tables, name, tags + [tag])
         == Append(WalkAll(s, tables, name, tags), WalkIn(s, tables, name, tag))
  {
    hide WalkIn, LabelsDistinct;
    assert (tags + [tag])[..|tags|] == tags;
  }

  /** Following tags through a table that was never created fails, unless there are none. */
  lemma WalkAllMissing(s: Scheme, tables: StoredTables, name: string, tags: seq<string>)
    requires LabelsDistinct(s) && name !in tables && tags != []
    ensures WalkAll(s, tables, name, tags) == None
  {
    hide LabelsDistinct;
    assert WalkIn(s, tables, name, tags[|tags| - 1]) == None;
  }

  lemma JoinList(s: Scheme, mm: MultiMap, t1: Table, j1: nat, t2: Table, j2: nat, r: nat)
    requires HasColumn(t1.table, j1) && HasColumn(t2.table, j2) && JoinIn(s, mm, t1, j1, t2, j2) && r < |t1.table|
    ensures Get(mm, Indexed(t1.name, r)) == RowTags(s, t2.name, Matches(t2.table, j2, t1.table[r][j1], |t2.table|))
  {
  }

  lemma RowTagsConcat(s: Scheme, name: string, a: seq<nat>, b: seq<nat>)
    ensures RowTags(s, name, a + b) == RowTags(s, name, a) + RowTags(s, name, b)
  {
  }

  /** A row tag and a number lead to that entry of the row's list, and to nothing when it has none. */
  lemma FieldInCatalog(s: Scheme, cat: Catalog, tables: StoredTables, key: string, p: nat)
    requires Assumptions(s) && Represents(s, cat, tables) && Tag(s, key) in s.tags
    requires p <= s.limit || p < |Get(Lookup(cat, ROW_TABLE), key)|
    ensures Field(s, tables, Tag(s, key), Dec(p))
         == if ROW_TABLE !in cat then None
            else Some(if p < |Get(cat[ROW_TABLE], key)| then [Get(cat[ROW_TABLE], key)[p]] else [])
  {
    hide IsFlat, Assumptions, Total, EntriesDistinct, LabelsDistinct, Tag;
    if ROW_TABLE in cat {
      LabelsAreDistinctNow(s);
      StoreOf(s, cat, tables, ROW_TABLE);
      var mm := cat[ROW_TABLE];
      ListAtMostTotal(mm, key);
      HitIff(s, mm, tables[ROW_TABLE], key, p);
      assert EntryLabel(s, key, p) == HexOf(s.digest(Tag(s, key) + "," + Dec(p)));
    }
  }

  lemma FieldsOfAppend(s: Scheme, tables: StoredTables, tags: seq<string>, tag: string, param: string)
    ensures FieldsOf(s, tables, tags + [tag], param)
         == Append(FieldsOf(s, tables, tags, param), Field(s, tables, tag, param))
  {
    hide Field;
    assert (tags + [tag])[..|tags|] == tags;
  }

  /** The cells a plan found are stored forms of the plaintext cells of rows `rs` in column `col`. */
  ghost predicate Finds(s: Scheme, found: Option<seq<string>>, t: Table, col: nat, rs: seq<nat>)
    requires WellFormed(t.table, t.columnsType) && col < |t.table[0]|
  {
    && found.Some? && |found.value| == |rs|
    && forall i :: 0 <= i < |rs| ==>
         rs[i] < |t.table| && Encodes(s, t.columnsType[col], t.table[rs[i]][col], found.value[i])
  }

  /** What projecting rows on entry `p` finds: for each the stored form of its cell in the column that
      the entry belongs to, and nothing when there are not so many stored columns. */
  ghost predicate FindsEntry(s: Scheme, found: Option<seq<string>>, t: Table, p: nat, rs: seq<nat>)
    requires WellFormed(t.table, t.columnsType)
  {
    var width := |t.table[0]|;
    if p < Position(t.columnsType, width) then Finds(s, found, t, ColumnAt(t.columnsType, width, p), rs)
    else found == Some([])
  }

  lemma FindsAppend(s: Scheme, found: Option<seq<string>>, t: Table, col: nat, rs: seq<nat>, r: nat, cipher: string)
    requires WellFormed(t.table, t.columnsType) && col < |t.table[0]| && r < |t.table|
    requires Finds(s, found, t, col, rs) && Encodes(s, t.columnsType[col], t.table[r][col], cipher)
    ensures Finds(s, Append(found, Some([cipher])), t, col, rs + [r])
  {
    hide Encodes;
  }

  lemma RowEntry(s: Scheme, mm: MultiMap, t: Table, r: nat, col: nat)
    requires WellFormed(t.table, t.columnsType) && RowsBegin(s, mm, t)
    requires r < |t.table| && col < |t.table[0]| && Supported(t.columnsType[col])
    ensures var list := Get(mm, Indexed(t.name, r));
            Position(t.columnsType, col) < |list|
            && Encodes(s, t.columnsType[col], t.table[r][col], list[Position(t.columnsType, col)])
  {
    hide Indexed, Encodes, Position;
    assert Indexed(t.name, r) in mm;
    PositionBelow(t.columnsType, col, |t.table[0]|);
  }

  /** A row whose key is stored has its tag in scope. */
  lemma StoredRow(s: Scheme, cat: Catalog, tables: StoredTables, key: string)
    requires Represents(s, cat, tables) && key in Lookup(cat, ROW_TABLE)
    ensures Tag(s, key) in s.tags && ROW_TABLE in cat
  {
    hide IsFlat, Total, Tag;
  }

  lemma ServedRow(s: Scheme, cat: Catalog, tables: StoredTables, t: Table, r: nat)
    requires Represents(s, cat, tables) && WellFormed(t.table, t.columnsType)
    requires RowsBegin(s, Lookup(cat, ROW_TABLE), t) && r < |t.table|
    ensures Tag(s, Indexed(t.name, r)) in s.tags && ROW_TABLE in cat
    ensures Position(t.columnsType, |t.table[0]|) <= |Get(Lookup(cat, ROW_TABLE), Indexed(t.name, r))|
  {
    hide Represents, Indexed, Tag, Encodes;
    assert Indexed(t.name, r) in Lookup(cat, ROW_TABLE);
    StoredRow(s, cat, tables, Indexed(t.name, r));
  }

  /** Projecting stored rows on an entry that belongs to a column. */
  lemma {:induction false} FieldsInCatalog(s: Scheme, cat: Catalog, tables: StoredTables, t: Table, rs: seq<nat>,
      col: nat)
    requires Assumptions(s) && Represents(s, cat, tables) && WellFormed(t.table, t.columnsType)
    requires RowsBegin(s, Lookup(cat, ROW_TABLE), t) && col < |t.table[0]| && Supported(t.columnsType[col])
    requires Below(rs, |t.table|)
    ensures Finds(s, FieldsOf(s, tables, RowTags(s, t.name, rs), Dec(Position(t.columnsType, col))), t, col, rs)
  {
    hide Assumptions, Represents, Indexed, Tag, Encodes, Field, Dec, RowsBegin, RowTags, Finds, FieldsOf;
    if rs == [] {
      NoFields(s, tables, t, col, Dec(Position(t.columnsType, col)));
    } else {
      var last, p := |rs| - 1, Position(t.columnsType, col);
      var front, r := rs[..last], rs[last];
      assert rs == front + [r];
      FieldsInCatalog(s, cat, tables, t, front, col);
      ServedRow(s, cat, tables, t, r);
      RowEntry(s, Lookup(cat, ROW_TABLE), t, r, col);
      FieldInCatalog(s, cat, tables, Indexed(t.name, r), p);
      RowTagsAppend(s, t.name, front, r);
      FieldsOfAppend(s, tables, RowTags(s, t.name, front), Tag(s, Indexed(t.name, r)), Dec(p));
      FindsAppend(s, FieldsOf(s, tables, RowTags(s, t.name, front), Dec(p)), t, col, front, r,
                  Get(cat[ROW_TABLE], Indexed(t.name, r))[p]);
    }
  }

  lemma NoFields(s: Scheme, tables: StoredTables, t: Table, col: nat, param: string)
    requires WellFormed(t.table, t.columnsType) && col < |t.table[0]|
    ensures Finds(s, FieldsOf(s, tables, RowTags(s, t.name, []), param), t, col, [])
  {
  }

  /** How many entries the list of a row has. */
  function RowSize(cat: Catalog, name: string, r: nat): nat {
    |Get(Lookup(cat, ROW_TABLE), Indexed(name, r))|
  }

  /** Projecting rows finds nothing exactly when all their lists are too short. */
  lemma {:induction false} FieldsMissingIff(s: Scheme, cat: Catalog, tables: StoredTables, name: string, rs: seq<nat>,
      p: nat)
    requires Assumptions(s) && Represents(s, cat, tables) && p <= s.limit
    requires forall i :: 0 <= i < |rs| ==> Tag(s, Indexed(name, rs[i])) in s.tags
    requires rs != [] ==> ROW_TABLE in cat
    ensures FieldsOf(s, tables, RowTags(s, name, rs), Dec(p)).Some?
    ensures FieldsOf(s, tables, RowTags(s, name, rs), Dec(p)) == Some([]) <==>
            forall i :: 0 <= i < |rs| ==> RowSize(cat, name, rs[i]) <= p
  {
    hide Assumptions, Represents, Indexed, Tag, Field, Dec, RowTags;
    if rs == [] {
      assert |RowTags(s, name, rs)| == 0;
    } else {
      var front, r := rs[..|rs| - 1], rs[|rs| - 1];
      assert rs == front + [r];
      FieldsMissingIff(s, cat, tables, name, front, p);
      FieldInCatalog(s, cat, tables, Indexed(name, r), p);
      RowTagsAppend(s, name, front, r);
      FieldsOfAppend(s, tables, RowTags(s, name, front), Tag(s, Indexed(name, r)), Dec(p));
      var x := FieldsOf(s, tables, RowTags(s, name, front), Dec(p)).value;
      var y := Field(s, tables, Tag(s, Indexed(name, r)), Dec(p)).value;
      assert x + y == [] <==> x == [] && y == [];
    }
  }

  // ----- running a plan -----

  lemma JoinTableName(name1: string, j1: nat, name2: string, j2: nat)
    ensures "mmjoin_" + (name1 + "_" + Dec(j1)) + "_join_" + (name2 + "_" + Dec(j2)) == JoinName(name1, j1, name2, j2)
  {
  }

  function Then(a: Option<seq<string>>, s: Scheme, tables: StoredTables, plan: SqlPlan): Option<seq<string>>
    requires LabelsDistinct(s)
  {
    if a.None? then None else RunStep(s, tables, plan, a)
  }

  /** A plan of two steps and a result step. */
  lemma RunTwo(s: Scheme, tables: StoredTables, a: SqlPlan, b: SqlPlan, r: SqlPlan, from: Option<seq<string>>)
    requires LabelsDistinct(s) && a.planType != "result" && b.planType != "result" && r.planType == "result"
    ensures RunPlans(s, tables, [a, b, r], from) == Then(RunStep(s, tables, a, from), s, tables, b)
  {
    hide RunStep, LabelsDistinct;
    assert [a, b, r][1..] == [b, r] && [b, r][1..] == [r];
    var x := RunStep(s, tables, a, from);
    if x.Some? {
      assert RunPlans(s, tables, [a, b, r], from) == RunPlans(s, tables, [b, r], x);
      var y := RunStep(s, tables, b, x);
      assert RunPlans(s, tables, [r], y) == y;
    }
  }

  lemma RunThree(s: Scheme, tables: StoredTables, a: SqlPlan, b: SqlPlan, c: SqlPlan, r: SqlPlan)
    requires LabelsDistinct(s) && r.planType == "result"
    requires a.planType != "result" && b.planType != "result" && c.planType != "result"
    ensures RunPlans(s, tables, [a, b, c, r], None)
         == Then(Then(RunStep(s, tables, a, None), s, tables, b), s, tables, c)
  {
    hide RunStep, LabelsDistinct;
    assert [a, b, c, r][1..] == [b, c, r];
    RunTwo(s, tables, b, c, r, RunStep(s, tables, a, None));
  }

  // ----- what each step finds -----

  /** The tags that the first step of a plan finds. */
  function SigmaOf(cat: Catalog, name: string, c: nat, v: string): Option<seq<string>> {
    if VALUE_TABLE in cat then Some(Get(cat[VALUE_TABLE], ValueKey(name, c, v))) else None
  }

  lemma SigmaStep(s: Scheme, cat: Catalog, tables: StoredTables, name: string, c: nat, v: string, plan: SqlPlan)
    requires Assumptions(s) && Represents(s, cat, tables) && Tag(s, ValueKey(name, c, v)) in s.tags
    requires plan.planType in {"select", "sigma"} && plan.params == [Tag(s, ValueKey(name, c, v))]
    ensures LabelsDistinct(s)
    ensures RunStep(s, tables, plan, None) == SigmaOf(cat, name, c, v)
  {
    hide Assumptions, Represents, Tag, ValueKey, LabelsDistinct, WalkIn;
    WalkInCatalog(s, cat, tables, VALUE_TABLE, ValueKey(name, c, v));
  }

  lemma SigmaServed(s: Scheme, cat: Catalog, t: Table, c: nat, v: string)
    requires WellFormed(t.table, t.columnsType) && Serves(s, cat, t) && c < |t.table[0]|
    ensures SigmaOf(cat, t.name, c, v) == Some(RowTags(s, t.name, Matches(t.table, c, v, |t.table|)))
  {
    hide RowsIn, ColsIn, ValueKey, Matches, RowTags;
    ServedIsStored(s, cat, t);
  }

  /** The entry is one of the stored ones, or its number is a counter in scope. */
  predicate EntryInScope(s: Scheme, t: Table, p: nat)
    requires WellFormed(t.table, t.columnsType)
  {
    p < Position(t.columnsType, |t.table[0]|) || p <= s.limit
  }

  lemma ServedSize(s: Scheme, mm: MultiMap, t: Table, r: nat)
    requires WellFormed(t.table, t.columnsType) && RowsIn(s, mm, t) && r < |t.table|
    ensures |Get(mm, Indexed(t.name, r))| == Position(t.columnsType, |t.table[0]|)
  {
    hide Indexed, Encodes;
    assert Indexed(t.name, r) in mm;
  }

  lemma ProjectionStep(s: Scheme, cat: Catalog, tables: StoredTables, t: Table, p: nat, rs: seq<nat>)
    requires Assumptions(s) && LabelsDistinct(s) && Represents(s, cat, tables) && WellFormed(t.table, t.columnsType)
    requires RowsIn(s, Lookup(cat, ROW_TABLE), t) && Below(rs, |t.table|) && EntryInScope(s, t, p)
    ensures FindsEntry(s, RunStep(s, tables, SqlPlan("projection", [Dec(p)]), Some(RowTags(s, t.name, rs))), t, p, rs)
  {
    hide Assumptions, Represents, LabelsDistinct, Encodes, RowsIn, RowTags, FieldsOf, Print, Position, Tag, Indexed,
      Finds;
    RowsInBegin(s, Lookup(cat, ROW_TABLE), t);
    if p < Position(t.columnsType, |t.table[0]|) {
      FieldsInCatalog(s, cat, tables, t, rs, ColumnAt(t.columnsType, |t.table[0]|, p));
    } else {
      forall r: nat | r < |t.table|
        ensures Tag(s, Indexed(t.name, r)) in s.tags && ROW_TABLE in cat
        ensures RowSize(cat, t.name, r) <= p
      {
        ServedRow(s, cat, tables, t, r);
        ServedSize(s, Lookup(cat, ROW_TABLE), t, r);
      }
      assert rs != [] ==> rs[0] < |t.table|;
      FieldsMissingIff(s, cat, tables, t.name, rs, p);
    }
  }

  /** The tags of the rows that the second step of a join plan finds. */
  lemma JoinStep(s: Scheme, cat: Catalog, tables: StoredTables, t1: Table, j1: nat, t2: Table, j2: nat, rs: seq<nat>)
    requires Assumptions(s) && Represents(s, cat, tables) && WellFormed(t1.table, t1.columnsType)
    requires RowsIn(s, Lookup(cat, ROW_TABLE), t1) && HasColumn(t1.table, j1) && HasColumn(t2.table, j2)
    requires rs != [] ==> JoinName(t1.name, j1, t2.name, j2) in cat
    requires JoinIn(s, Lookup(cat, JoinName(t1.name, j1, t2.name, j2)), t1, j1, t2, j2)
    requires Below(rs, |t1.table|)
    ensures LabelsDistinct(s)
    ensures RunStep(s, tables, SqlPlan("join", [t2.name + "_" + Dec(j2), t1.name + "_" + Dec(j1)]),
                    Some(RowTags(s, t1.name, rs)))
         == Some(RowTags(s, t2.name, JoinedRows(t1.table, j1, t2.table, j2, rs)))
  {
    hide Assumptions, Represents, Tag, Indexed, LabelsDistinct, RowsIn, WalkAll, JoinIn, JoinName;
    LabelsAreDistinctNow(s);
    RowsInBegin(s, Lookup(cat, ROW_TABLE), t1);
    JoinTableName(t1.name, j1, t2.name, j2);
    forall i | 0 <= i < |rs| ensures Tag(s, Indexed(t1.name, rs[i])) in s.tags {
      ServedRow(s, cat, tables, t1, rs[i]);
    }
    WalkAllJoined(s, cat, tables, JoinName(t1.name, j1, t2.name, j2), t1, j1, t2, j2, rs);
  }

  /** A join table that was never created: the step fails when there is a tag to follow. */
  lemma JoinStepMissing(s: Scheme, cat: Catalog, tables: StoredTables, name1: string, j1: nat, name2: string, j2: nat,
      tags: seq<string>)
    requires LabelsDistinct(s) && Represents(s, cat, tables) && JoinName(name1, j1, name2, j2) !in cat
    ensures RunStep(s, tables, SqlPlan("join", [name2 + "_" + Dec(j2), name1 + "_" + Dec(j1)]), Some(tags))
         == if tags == [] then Some([]) else None
  {
    hide LabelsDistinct, JoinName, WalkIn;
    JoinTableName(name1, j1, name2, j2);
    if tags != [] {
      WalkAllMissing(s, tables, JoinName(name1, j1, name2, j2), tags);
    }
  }

  lemma NothingToFollow(s: Scheme, tables: StoredTables, join: SqlPlan, projection: SqlPlan)
    requires LabelsDistinct(s) && join.planType == "join" && |join.params| > 1
    requires projection.planType == "projection" && |projection.params| > 0
    ensures Then(RunStep(s, tables, join, Some([])), s, tables, projection) == Some([])
  {
    hide LabelsDistinct, WalkIn, Field;
  }

  // ----- the queries -----

  /** `SELECT p FROM T WHERE c = 'v'`: the row tags that the value walk finds lead to exactly the
      plaintext answer in the column that entry `p` belongs to. */
  lemma SelectQuery(s: Scheme, cat: Catalog, tables: StoredTables, t: Table, c: nat, v: string, p: nat,
      resultType: string)
    requires Assumptions(s) && Represents(s, cat, tables) && WellFormed(t.table, t.columnsType) && Serves(s, cat, t)
    requires c < |t.table[0]| && Tag(s, ValueKey(t.name, c, v)) in s.tags && EntryInScope(s, t, p)
    ensures LabelsDistinct(s)
    ensures FindsEntry(s, RunPlans(s, tables, SelectPlan(s, t.name, c, v, p, resultType), None), t, p,
                       Matches(t.table, c, v, |t.table|))
  {
    hide Assumptions, Represents, Tag, ValueKey, Dec, LabelsDistinct, FindsEntry, RunStep, RunPlans, RowsIn, ColsIn,
        ValuesIn, Matches, Position, SigmaOf;
    var sigma := SqlPlan("select", [Tag(s, ValueKey(t.name, c, v))]);
    MatchesBelow(t.table, c, v, |t.table|);
    SigmaStep(s, cat, tables, t.name, c, v, sigma);
    SigmaServed(s, cat, t, c, v);
    ProjectionStep(s, cat, tables, t, p, Matches(t.table, c, v, |t.table|));
    RunTwo(s, tables, sigma, SqlPlan("projection", [Dec(p)]), SqlPlan("result", [resultType]), None);
  }

  /** The first two steps of a join plan find the tags of exactly the rows that the nested loops over the
      plaintext tables select. */
  lemma JoinTags(s: Scheme, cat: Catalog, tables: StoredTables, t1: Table, c: nat, v: string, j1: nat, t2: Table,
      j2: nat)
    requires Assumptions(s) && Represents(s, cat, tables) && WellFormed(t1.table, t1.columnsType) && Serves(s, cat, t1)
    requires c < |t1.table[0]| && HasColumn(t1.table, j1) && HasColumn(t2.table, j2)
    requires JoinName(t1.name, j1, t2.name, j2) in cat
    requires JoinIn(s, Lookup(cat, JoinName(t1.name, j1, t2.name, j2)), t1, j1, t2, j2)
    requires Tag(s, ValueKey(t1.name, c, v)) in s.tags
    ensures LabelsDistinct(s)
    ensures Then(RunStep(s, tables, SqlPlan("sigma", [Tag(s, ValueKey(t1.name, c, v))]), None), s, tables,
                 SqlPlan("join", [t2.name + "_" + Dec(j2), t1.name + "_" + Dec(j1)]))
         == Some(RowTags(s, t2.name, PlainJoin(t1.table, c, v, j1, t2.table, j2)))
  {
    hide Assumptions, Represents, Tag, ValueKey, Dec, LabelsDistinct, RunStep, RowsIn, ColsIn, ValuesIn, JoinIn,
      JoinName, Matches, JoinedRows, RowTags, PlainJoin, SigmaOf;
    PlainJoinFollows(t1.table, c, v, j1, t2.table, j2);
    SigmaStep(s, cat, tables, t1.name, c, v, SqlPlan("sigma", [Tag(s, ValueKey(t1.name, c, v))]));
    SigmaServed(s, cat, t1, c, v);
    JoinStep(s, cat, tables, t1, j1, t2, j2, Matches(t1.table, c, v, |t1.table|));
  }

  /** The end-to-end theorem of the join query: walking the value store, following each row tag through
      the join store, and projecting from the row store finds stored forms of exactly the cells that the
      nested loops over the plaintext tables select, in the same order and as often. */
  lemma JoinQuery(s: Scheme, cat: Catalog, tables: StoredTables, t1: Table, c: nat, v: string, j1: nat, t2: Table,
      j2: nat, p: nat)
    requires Assumptions(s) && Represents(s, cat, tables)
    requires WellFormed(t1.table, t1.columnsType) && WellFormed(t2.table, t2.columnsType)
    requires Serves(s, cat, t1) && Serves(s, cat, t2)
    requires c < |t1.table[0]| && HasColumn(t1.table, j1) && HasColumn(t2.table, j2)
    requires JoinName(t1.name, j1, t2.name, j2) in cat
    requires JoinIn(s, Lookup(cat, JoinName(t1.name, j1, t2.name, j2)), t1, j1, t2, j2)
    requires Tag(s, ValueKey(t1.name, c, v)) in s.tags && EntryInScope(s, t2, p)
    ensures LabelsDistinct(s)
    ensures FindsEntry(s, RunPlans(s, tables, JoinPlan(s, t1.name, c, v, j1, t2.name, j2, p), None), t2, p,
                       PlainJoin(t1.table, c, v, j1, t2.table, j2))
  {
    hide Assumptions, Represents, Tag, ValueKey, Dec, LabelsDistinct, FindsEntry, RunStep, RunPlans, RowsIn, ColsIn,
        ValuesIn, JoinIn, JoinName, Matches, JoinedRows, RowTags, PlainJoin, Position;
    var sigma := SqlPlan("sigma", [Tag(s, ValueKey(t1.name, c, v))]);
    var join := SqlPlan("join", [t2.name + "_" + Dec(j2), t1.name + "_" + Dec(j1)]);
    JoinTags(s, cat, tables, t1, c, v, j1, t2, j2);
    PlainJoinFollows(t1.table, c, v, j1, t2.table, j2);
    ProjectionStep(s, cat, tables, t2, p, PlainJoin(t1.table, c, v, j1, t2.table, j2));
    RunThree(s, tables, sigma, join, SqlPlan("projection", [Dec(p)]), SqlPlan("result", ["string"]));
  }

  // ----- what the user is shown -----

  /** The answer shows the cells of rows `rs` in column `col`, one for each row of the answer. */
  ghost predicate Shows(s: Scheme, out: Result<seq<seq<string>>>, t: Table, col: nat, rs: seq<nat>)
    requires WellFormed(t.table, t.columnsType) && col < |t.table[0]| && Supported(t.columnsType[col])
  {
    && out.Ok? && |out.value| == |rs|
    && forall i :: 0 <= i < |rs| ==>
         && rs[i] < |t.table| && Fault(s, t.columnsType[col], t.table[rs[i]][col]) == None
         && |out.value[i]| == 1 && out.value[i][0] == Shown(s, t.columnsType[col], t.table[rs[i]][col])
  }

  /** Decrypting what a plan found by the type of the projected column shows the plaintext cells. */
  lemma FoundIsShown(s: Scheme, found: Option<seq<string>>, t: Table, col: nat, rs: seq<nat>,
      out: Result<seq<seq<string>>>)
    requires Homomorphic(s) && WellFormed(t.table, t.columnsType) && col < |t.table[0]| && Supported(t.columnsType[col])
    requires Finds(s, found, t, col, rs) && Answers(s, t.columnsType[col], found.value, out)
    ensures Shows(s, out, t, col, rs)
  {
    hide Homomorphic, Encodes, DecryptField, Shown, Fault;
    forall i | 0 <= i < |rs|
      ensures Fault(s, t.columnsType[col], t.table[rs[i]][col]) == None
      ensures DecryptField(s, t.columnsType[col], found.value[i])
           == Ok(Shown(s, t.columnsType[col], t.table[rs[i]][col]))
    {
      DecryptEncoded(s, t.columnsType[col], t.table[rs[i]][col], found.value[i]);
    }
  }

  // ----- the sum query -----

  predicate IntColumn(s: Scheme, rows: Rows, c: nat) {
    HasColumn(rows, c) && forall r :: 0 <= r < |rows| ==> Fault(s, "int", rows[r][c]) == None
  }

  /** The plaintext numbers of an integer column. */
  function Numbers(s: Scheme, rows: Rows, c: nat): (ns: seq<nat>)
    requires IntColumn(s, rows, c)
    ensures |ns| == |rows|
  {
    seq(|rows|, r requires 0 <= r < |rows| => NumberOf(s, rows[r][c]))
  }

  /** The stored column of a served table decrypts to its numbers. */
  lemma ColumnNumbers(s: Scheme, cat: Catalog, t: Table, c: nat)
    requires WellFormed(t.table, t.columnsType) && ColsIn(s, Lookup(cat, COLUMN_TABLE), t)
    requires c < |t.table[0]| && t.columnsType[c] == "int"
    ensures IntColumn(s, t.table, c)
    ensures var list := Get(Lookup(cat, COLUMN_TABLE), Indexed(t.name, c));
            && |list| == |t.table|
            && forall r :: 0 <= r < |list| ==> DecryptsCell(s, Numbers(s, t.table, c)[r], list[r])
  {
    hide Indexed, Fault, DecryptsCell;
    var list := Get(Lookup(cat, COLUMN_TABLE), Indexed(t.name, c));
    assert Indexed(t.name, c) in Lookup(cat, COLUMN_TABLE) && ColEncodes(s, "int", t.table, c, list, |t.table|);
    assert forall r: nat :: r < |t.table| ==> Encodes(s, "int", t.table[r][c], list[r]);
  }

  /** `SELECT SUM(c) FROM T` finds a ciphertext of the plaintext sum modulo the plain modulus. */
  lemma SumQuery(s: Scheme, cat: Catalog, tables: StoredTables, t: Table, c: nat)
    requires Assumptions(s) && Represents(s, cat, tables) && WellFormed(t.table, t.columnsType) && Serves(s, cat, t)
    requires c < |t.table[0]| && t.columnsType[c] == "int" && Tag(s, Indexed(t.name, c)) in s.tags
    ensures LabelsDistinct(s) && IntColumn(s, t.table, c) && 0 < s.modulus
    ensures var found := RunPlans(s, tables, SumPlan(s, t.name, c, "int"), None);
            && found.Some? && |found.value| == 1
            && DecryptsCell(s, Sum(Numbers(s, t.table, c)) % s.modulus, found.value[0])
  {
    hide Assumptions, Represents, Tag, Indexed, LabelsDistinct, WalkIn, RowsIn, ColsIn, ValuesIn, EncryptionInverts,
      AdditionHomomorphic, Sum, AddUp, Print, DecryptsCell, IntColumn, RunPlans;
    LabelsAreDistinctNow(s);
    var key := Indexed(t.name, c);
    WalkInCatalog(s, cat, tables, COLUMN_TABLE, key);
    ColumnNumbers(s, cat, t, c);
    var list := Get(Lookup(cat, COLUMN_TABLE), key);
    AddUpDecrypts(s, list, Numbers(s, t.table, c));
    SumStep(s, tables, Tag(s, key), list);
  }

  lemma SumStep(s: Scheme, tables: StoredTables, tag: string, list: seq<string>)
    requires LabelsDistinct(s) && WalkIn(s, tables, COLUMN_TABLE, tag) == Some(list) && list != []
    ensures RunPlans(s, tables, [SqlPlan("sum", [tag]), SqlPlan("result", ["int"])], None) == Some([AddUp(s, list)])
  {
    hide WalkIn, LabelsDistinct, AddUp;
    var sum, result := SqlPlan("sum", [tag]), SqlPlan("result", ["int"]);
    assert [sum, result][1..] == [result];
    assert RunPlans(s, tables, [result], Some([AddUp(s, list)])) == Some([AddUp(s, list)]);
  }

  /** What is shown for a ciphertext of `n` below the modulus. */
  lemma NumberShown(s: Scheme, n: nat, cipher: string, out: Result<seq<seq<string>>>)
    requires n <= INT_MAX && s.bfvDecrypt(cipher) == n && Answers(s, "int", [cipher], out)
    ensures out == Ok([[Dec(n)]])
  {
    hide Print, HexStringToInt;
    HexStringToIntOfPrint(n, true);
    assert [cipher][0] == cipher;
    assert DecryptField(s, "int", cipher) == Ok(Dec(n));
    assert out.Ok? && out.value[0] == [Dec(n)] && out.value == [out.value[0]];
  }

  /** The sum that is shown is the true sum exactly when that is below the plain modulus. */
  lemma SumShownIff(s: Scheme, cat: Catalog, tables: StoredTables, t: Table, c: nat,
      out: Option<Result<seq<seq<string>>>>)
    requires Assumptions(s) && LabelsDistinct(s) && Represents(s, cat, tables)
    requires WellFormed(t.table, t.columnsType) && Serves(s, cat, t)
    requires c < |t.table[0]| && t.columnsType[c] == "int" && Tag(s, Indexed(t.name, c)) in s.tags
    requires RepliesTo(s, tables, SumPlan(s, t.name, c, "int"), out)
    ensures IntColumn(s, t.table, c)
    ensures out == Some(Ok([[Dec(Sum(Numbers(s, t.table, c)))]])) <==> Sum(Numbers(s, t.table, c)) < s.modulus
  {
    hide Assumptions, Represents, Tag, Indexed, LabelsDistinct, Serves, RunPlans, EncryptionInverts,
        AdditionHomomorphic,
      Sum, Print, WellFormed, IntColumn, Answers;
    LabelsAreDistinctNow(s);
    SumQuery(s, cat, tables, t, c);
    var total := Sum(Numbers(s, t.table, c));
    var found := RunPlans(s, tables, SumPlan(s, t.name, c, "int"), None).value;
    assert found == [found[0]];
    SmallMod(total, s.modulus);
    NumberShown(s, total % s.modulus, found[0], out.value);
    if Dec(total % s.modulus) == Dec(total) {
      PrintInjective(total % s.modulus, total, 10, false);
    }
  }
}
