/** What queries answer after any run of uploads. */
module Answering {
  import opened Wrappers
  import opened Numerals
  import opened Keys
  import opened Scheme
  import opened Cells
  import opened Tables
  import opened MultiMaps
  import opened Stores
  import opened DataMapper
  import opened Catalogs
  import opened Executor
  import opened Planner
  import opened Service
  import opened Serving
  import opened CrossProducts
  import opened Queries
  import opened Runs
  import opened Joins

  // ----- from what a plan finds to what is shown -----

  ghost predicate ShowsAnswer(s: Scheme, out: Option<Result<seq<seq<string>>>>, t: Table, col: nat, rs: seq<nat>)
    requires WellFormed(t.table, t.columnsType) && col < |t.table[0]| && Supported(t.columnsType[col])
  {
    out.Some? && Shows(s, out.value, t, col, rs)
  }

  /** The answer to a query for entry `p` of rows `rs`: their cells in the column the entry belongs to,
      if the query decrypts by the type of that column, and no rows if there is no such entry. */
  ghost predicate ShowsEntry(s: Scheme, resultType: string, out: Option<Result<seq<seq<string>>>>, t: Table, p: nat,
      rs: seq<nat>)
    requires WellFormed(t.table, t.columnsType)
  {
    var width := |t.table[0]|;
    if p < Position(t.columnsType, width) then
      var col := ColumnAt(t.columnsType, width, p);
      t.columnsType[col] == resultType ==> ShowsAnswer(s, out, t, col, rs)
    else out == Some(Ok([]))
  }

  lemma NothingShown(s: Scheme, resultType: string, out: Option<Result<seq<seq<string>>>>)
    requires Replies(s, resultType, Some([]), out)
    ensures out == Some(Ok([]))
  {
  }

  lemma EntryIsShown(s: Scheme, resultType: string, found: Option<seq<string>>,
      out: Option<Result<seq<seq<string>>>>, t: Table, p: nat, rs: seq<nat>)
    requires Homomorphic(s) && WellFormed(t.table, t.columnsType) && FindsEntry(s, found, t, p, rs)
    requires Replies(s, resultType, found, out)
    ensures ShowsEntry(s, resultType, out, t, p, rs)
  {
    hide Homomorphic, Encodes, Answers, Shows, Position;
    var width := |t.table[0]|;
    if p < Position(t.columnsType, width) {
      var col := ColumnAt(t.columnsType, width, p);
      if t.columnsType[col] == resultType {
        FoundIsShown(s, found, t, col, rs, out.value);
      }
    } else {
      NothingShown(s, resultType, out);
    }
  }

  /** A query that fails, finds the right cells, or finds none or another number of cells shows the right
      answer exactly when it finds it. */
  lemma ShownIffFound(s: Scheme, found: Option<seq<string>>, out: Option<Result<seq<seq<string>>>>, t: Table, col: nat,
      rs: seq<nat>)
    requires Homomorphic(s) && WellFormed(t.table, t.columnsType) && col < |t.table[0]| && Supported(t.columnsType[col])
    requires Replies(s, t.columnsType[col], found, out)
    requires found.None? || found == Some([]) || Finds(s, found, t, col, rs) || |found.value| != |rs|
    ensures ShowsAnswer(s, out, t, col, rs) <==> Finds(s, found, t, col, rs)
  {
    hide Homomorphic, Encodes, Answers, Shown, Fault;
    if Finds(s, found, t, col, rs) {
      FoundIsShown(s, found, t, col, rs, out.value);
    } else if found.Some? {
      AnswerLength(s, t.columnsType[col], found.value, out.value);
    }
  }

  lemma AnswerLength(s: Scheme, resultType: string, cells: seq<string>, out: Result<seq<seq<string>>>)
    requires Answers(s, resultType, cells, out)
    ensures out.Ok? ==> |out.value| == |cells|
  {
  }

  /** A shown answer is the plaintext answer, text for text, exactly when each of its cells is faithful:
      free of the fill character and of the stale-block case if it is text, canonical if a number. */
  lemma PlainAnswerIff(s: Scheme, out: Result<seq<seq<string>>>, t: Table, col: nat, rs: seq<nat>)
    requires SymmetricInverts(s) && WellFormed(t.table, t.columnsType)
    requires col < |t.table[0]| && Supported(t.columnsType[col])
    requires Shows(s, out, t, col, rs)
    ensures (forall i :: 0 <= i < |rs| ==> out.value[i] == [t.table[rs[i]][col]]) <==>
            (forall i :: 0 <= i < |rs| ==> Faithful(s, t.columnsType[col], t.table[rs[i]][col]))
  {
    hide SymmetricInverts, Faithful, Shown, Fault;
    forall i | 0 <= i < |rs|
      ensures out.value[i] == [t.table[rs[i]][col]] <==> Faithful(s, t.columnsType[col], t.table[rs[i]][col])
    {
      ShownIff(s, t.columnsType[col], t.table[rs[i]][col]);
      assert out.value[i] == [out.value[i][0]];
    }
  }

  // ----- select -----

  lemma SigmaNothing(cat: Catalog, name: string, c: nat, v: string)
    requires NothingUnder(cat, name)
    ensures SigmaOf(cat, name, c, v) == if VALUE_TABLE in cat then Some([]) else None
  {
    hide ValueKey;
    assert Get(Lookup(cat, VALUE_TABLE), ValueKey(name, c, v)) == [];
  }

  lemma NothingToProject(s: Scheme, tables: StoredTables, projection: SqlPlan)
    requires LabelsDistinct(s) && projection.planType == "projection" && |projection.params| > 0
    ensures RunStep(s, tables, projection, Some([])) == Some([])
  {
    hide LabelsDistinct;
  }

  /** What a select query finds when nothing is stored under the name: nothing. */
  lemma UnstoredSelect(s: Scheme, cat: Catalog, tables: StoredTables, name: string, c: nat, v: string, p: nat,
      resultType: string)
    requires Assumptions(s) && LabelsDistinct(s) && Represents(s, cat, tables) && NothingUnder(cat, name)
    requires Tag(s, ValueKey(name, c, v)) in s.tags
    ensures RunPlans(s, tables, SelectPlan(s, name, c, v, p, resultType), None)
         == if VALUE_TABLE in cat then Some([]) else None
  {
    hide Assumptions, LabelsDistinct, Represents, NothingUnder, Tag, ValueKey, RunPlans, RunStep, Dec, SigmaOf;
    var sigma := SqlPlan("select", [Tag(s, ValueKey(name, c, v))]);
    var projection := SqlPlan("projection", [Dec(p)]);
    SigmaStep(s, cat, tables, name, c, v, sigma);
    SigmaNothing(cat, name, c, v);
    RunTwo(s, tables, sigma, projection, SqlPlan("result", [resultType]), None);
    NothingToProject(s, tables, projection);
  }

  /** What a sum query finds when nothing is stored under the name: no row. */
  lemma UnstoredSum(s: Scheme, cat: Catalog, tables: StoredTables, name: string, c: nat, resultType: string)
    requires Assumptions(s) && LabelsDistinct(s) && Represents(s, cat, tables) && NothingUnder(cat, name)
    requires Tag(s, Indexed(name, c)) in s.tags
    ensures RunPlans(s, tables, SumPlan(s, name, c, resultType), None)
         == if COLUMN_TABLE in cat then Some([]) else None
  {
    hide Assumptions, LabelsDistinct, Represents, Tag, Indexed, WalkIn;
    WalkInCatalog(s, cat, tables, COLUMN_TABLE, Indexed(name, c));
    assert Get(Lookup(cat, COLUMN_TABLE), Indexed(name, c)) == [];
    var plans := SumPlan(s, name, c, resultType);
    assert plans[1..] == [SqlPlan("result", [resultType])];
    assert forall from :: RunPlans(s, tables, plans[1..], from) == from;
  }

  /** When a select query on a table uploaded once, under a new name, finds the plaintext answer: exactly
      when the table could be stored, or no row is selected and some other table was stored. */
  lemma NewSelectIff(s: Scheme, states: seq<State>, events: seq<Event>, tables: StoredTables, i: nat,
                     c: nat, v: string, p: nat, resultType: string)
    requires Assumptions(s) && Run(s, states, events) && NamesApart(events) && i < |events|
    requires NothingUnder(states[0].catalog, events[i].t.name) && Represents(s, Last(states).catalog, tables)
    requires var t := events[i].t;
             && WellFormed(t.table, t.columnsType) && c < |t.table[0]| && p < Position(t.columnsType, |t.table[0]|)
             && Tag(s, ValueKey(t.name, c, v)) in s.tags
    ensures LabelsDistinct(s)
    ensures var t := events[i].t;
            var rs := Matches(t.table, c, v, |t.table|);
            var col := ColumnAt(t.columnsType, |t.table[0]|, p);
            var found := RunPlans(s, tables, SelectPlan(s, t.name, c, v, p, resultType), None);
            && (found.None? || found == Some([]) || Finds(s, found, t, col, rs))
            && (Finds(s, found, t, col, rs) <==>
                || Storable(s, t.table, t.columnsType)
                || (rs == [] && (VALUE_TABLE in states[0].catalog || AnyStored(s, events, |events|))))
  {
    hide Assumptions, LabelsDistinct, Run, NamesApart, NothingUnder, Represents, Tag, ValueKey, Serves, RunPlans,
      SelectPlan, Encodes, Matches, Position, Storable, AnyStored;
    var t := events[i].t;
    RunStates(s, states, events);
    LabelsAreDistinctNow(s);
    NewNameServesIff(s, states, events, i);
    RunCreatesIff(s, states, events, VALUE_TABLE, |events|);
    if Storable(s, t.table, t.columnsType) {
      SelectQuery(s, Last(states).catalog, tables, t, c, v, p, resultType);
    } else {
      UnstoredSelect(s, Last(states).catalog, tables, t.name, c, v, p, resultType);
    }
  }

  // ----- join -----

  /** A run under names that are apart, over a database that holds nothing of courses, students and their
      join, in which upload `a` is of courses and upload `b` of students. */
  ghost predicate NewPair(s: Scheme, states: seq<State>, events: seq<Event>, a: nat, b: nat) {
    && Run(s, states, events) && NamesApart(events) && a < |events| && b < |events|
    && events[a].t.name == COURSES && events[b].t.name == STUDENTS
    && NothingUnder(states[0].catalog, COURSES) && NothingUnder(states[0].catalog, STUDENTS)
    && PairName() !in states[0].catalog
  }

  lemma LatestOfRun(s: Scheme, states: seq<State>, events: seq<Event>, i: nat)
    requires Run(s, states, events) && NamesApart(events) && i < |events|
    ensures |states| == |events| + 1 && WellFormed(events[i].t.table, events[i].t.columnsType)
    ensures events[i].t.name in Last(states).tables && Last(states).tables[events[i].t.name] == events[i].t
  {
    hide Run, NamesApart, WellFormed, HasColumn, OthersApart;
    RunStates(s, states, events);
    NamesApartFrom(events, i);
    RunStepAt(s, states, events, i);
    RunRemembers(s, states, events, i, |events|);
  }

  lemma PairOfRun(s: Scheme, states: seq<State>, events: seq<Event>, a: nat, b: nat)
    requires NewPair(s, states, events, a, b)
    ensures |states| == |events| + 1 && a < |events| && b < |events|
    ensures PairPresent(Last(states).tables) && JoinReady(Last(states).tables)
    ensures Last(states).tables[COURSES] == events[a].t && Last(states).tables[STUDENTS] == events[b].t
    ensures WellFormed(events[a].t.table, events[a].t.columnsType) && HasColumn(events[a].t.table, 0)
    ensures WellFormed(events[b].t.table, events[b].t.columnsType) && HasColumn(events[b].t.table, 2)
  {
    hide Run, NamesApart, NothingUnder, PairName, WellFormed, HasColumn;
    LatestOfRun(s, states, events, a);
    LatestOfRun(s, states, events, b);
    RunNames(s, states, events, |events|);
    ReadyColumns(Last(states).tables);
  }

  /** The tags of rows `rs` of a table that could not be stored lead to nothing. */
  lemma UnstoredRows(s: Scheme, cat: Catalog, tables: StoredTables, name: string, rs: seq<nat>, p: nat)
    requires Assumptions(s) && LabelsDistinct(s) && Represents(s, cat, tables) && ROW_TABLE in cat
    requires NothingUnder(cat, name) && p <= s.limit
    requires forall i :: 0 <= i < |rs| ==> Tag(s, Indexed(name, rs[i])) in s.tags
    ensures RunStep(s, tables, SqlPlan("projection", [Dec(p)]), Some(RowTags(s, name, rs))) == Some([])
  {
    hide Assumptions, LabelsDistinct, Represents, Tag, Indexed, RowTags, FieldsOf, Dec, Lookup;
    FieldsMissingIff(s, cat, tables, name, rs, p);
  }

  /** What the join query finds when the courses could not be stored: nothing. */
  lemma UnstoredCourses(s: Scheme, cat: Catalog, tables: StoredTables, c: nat, v: string, p: nat)
    requires Assumptions(s) && LabelsDistinct(s) && Represents(s, cat, tables) && NothingUnder(cat, COURSES)
    requires Tag(s, ValueKey(COURSES, c, v)) in s.tags
    ensures RunPlans(s, tables, JoinPlan(s, COURSES, c, v, 0, STUDENTS, 2, p), None)
         == if VALUE_TABLE in cat then Some([]) else None
  {
    hide Assumptions, LabelsDistinct, Represents, NothingUnder, Tag, ValueKey, RunPlans, RunStep, Dec, SigmaOf;
    var sigma := SqlPlan("sigma", [Tag(s, ValueKey(COURSES, c, v))]);
    var join := SqlPlan("join", [STUDENTS + "_" + Dec(2), COURSES + "_" + Dec(0)]);
    var projection := SqlPlan("projection", [Dec(p)]);
    SigmaStep(s, cat, tables, COURSES, c, v, sigma);
    SigmaNothing(cat, COURSES, c, v);
    RunThree(s, tables, sigma, join, projection, SqlPlan("result", ["string"]));
    NothingToFollow(s, tables, join, projection);
  }

  /** What it finds when the join was never written: nothing if no row of the courses is selected, and
      otherwise it fails. */
  lemma UnwrittenJoin(s: Scheme, cat: Catalog, tables: StoredTables, t1: Table, c: nat, v: string, p: nat)
    requires Assumptions(s) && LabelsDistinct(s) && Represents(s, cat, tables) && WellFormed(t1.table, t1.columnsType)
    requires t1.name == COURSES && Serves(s, cat, t1) && c < |t1.table[0]| && PairName() !in cat
    requires Tag(s, ValueKey(COURSES, c, v)) in s.tags
    ensures RunPlans(s, tables, JoinPlan(s, COURSES, c, v, 0, STUDENTS, 2, p), None)
         == if Matches(t1.table, c, v, |t1.table|) == [] then Some([]) else None
  {
    hide Assumptions, LabelsDistinct, Represents, Serves, Tag, ValueKey, RunPlans, RunStep, Dec, SigmaOf, Matches,
      RowTags;
    var sigma := SqlPlan("sigma", [Tag(s, ValueKey(COURSES, c, v))]);
    var join := SqlPlan("join", [STUDENTS + "_" + Dec(2), COURSES + "_" + Dec(0)]);
    var projection := SqlPlan("projection", [Dec(p)]);
    var tags := RowTags(s, COURSES, Matches(t1.table, c, v, |t1.table|));
    SigmaStep(s, cat, tables, COURSES, c, v, sigma);
    SigmaServed(s, cat, t1, c, v);
    JoinStepMissing(s, cat, tables, COURSES, 0, STUDENTS, 2, tags);
    RunThree(s, tables, sigma, join, projection, SqlPlan("result", ["string"]));
    NothingToProject(s, tables, projection);
    assert |tags| == |Matches(t1.table, c, v, |t1.table|)|;
  }

  /** With the sides of the join equation exchanged it asks for a table that no upload creates, and fails once
      a row of the courses is selected. */
  lemma ExchangedJoinFails(s: Scheme, cat: Catalog, tables: StoredTables, t1: Table, c: nat, v: string, p: nat)
    requires Assumptions(s) && LabelsDistinct(s) && Represents(s, cat, tables) && WellFormed(t1.table, t1.columnsType)
    requires t1.name == COURSES && Serves(s, cat, t1) && c < |t1.table[0]|
    requires JoinName(STUDENTS, 2, COURSES, 0) !in cat && Tag(s, ValueKey(COURSES, c, v)) in s.tags
    ensures RunPlans(s, tables, ExchangedPlan(s, COURSES, c, v, 0, STUDENTS, 2, p), None)
         == if Matches(t1.table, c, v, |t1.table|) == [] then Some([]) else None
  {
    hide Assumptions, LabelsDistinct, Represents, Serves, Tag, ValueKey, RunPlans, RunStep, Dec, SigmaOf, Matches,
      RowTags, JoinName;
    var sigma := SqlPlan("sigma", [Tag(s, ValueKey(COURSES, c, v))]);
    var join := SqlPlan("join", [COURSES + "_" + Dec(0), STUDENTS + "_" + Dec(2)]);
    var projection := SqlPlan("projection", [Dec(p)]);
    var tags := RowTags(s, COURSES, Matches(t1.table, c, v, |t1.table|));
    SigmaStep(s, cat, tables, COURSES, c, v, sigma);
    SigmaServed(s, cat, t1, c, v);
    JoinStepMissing(s, cat, tables, STUDENTS, 2, COURSES, 0, tags);
    RunThree(s, tables, sigma, join, projection, SqlPlan("result", ["string"]));
    NothingToProject(s, tables, projection);
    assert |tags| == |Matches(t1.table, c, v, |t1.table|)|;
  }

  /** What it finds when the join is right but the students could not be stored: nothing. */
  lemma UnstoredStudents(s: Scheme, cat: Catalog, tables: StoredTables, t1: Table, c: nat, v: string, t2: Table, p: nat)
    requires Assumptions(s) && LabelsDistinct(s) && Represents(s, cat, tables) && WellFormed(t1.table, t1.columnsType)
    requires t1.name == COURSES && t2.name == STUDENTS && Serves(s, cat, t1) && c < |t1.table[0]|
    requires HasColumn(t1.table, 0) && HasColumn(t2.table, 2) && PairName() in cat
    requires JoinIn(s, Lookup(cat, PairName()), t1, 0, t2, 2) && NothingUnder(cat, STUDENTS) && p <= s.limit
    requires Tag(s, ValueKey(COURSES, c, v)) in s.tags
    requires forall r: nat :: r < |t2.table| ==> Tag(s, Indexed(STUDENTS, r)) in s.tags
    ensures RunPlans(s, tables, JoinPlan(s, COURSES, c, v, 0, STUDENTS, 2, p), None) == Some([])
  {
    hide Assumptions, LabelsDistinct, Represents, Serves, Tag, ValueKey, Indexed, RunPlans, RunStep, Dec, RowTags,
      JoinIn,
      JoinName, NothingUnder, PlainJoin, Matches, JoinedRows;
    var rs := PlainJoin(t1.table, c, v, 0, t2.table, 2);
    PlainJoinFollows(t1.table, c, v, 0, t2.table, 2);
    ServedIsStored(s, cat, t1);
    JoinTags(s, cat, tables, t1, c, v, 0, t2, 2);
    UnstoredRows(s, cat, tables, STUDENTS, rs, p);
    RunThree(s, tables, SqlPlan("sigma", [Tag(s, ValueKey(COURSES, c, v))]),
             SqlPlan("join", [STUDENTS + "_" + Dec(2), COURSES + "_" + Dec(0)]), SqlPlan("projection", [Dec(p)]),
             SqlPlan("result", ["string"]));
  }

  /** When the join query finds the plaintext answer after a run under new names. Some table must have been
      stored; once a stored row of courses is selected, the join must have been refreshed; and once a
      pair is selected, both tables must have been stored. */
  ghost predicate JoinAnswered(s: Scheme, states: seq<State>, events: seq<Event>, t1: Table, c: nat, v: string,
      t2: Table)
    requires |states| == |events| + 1 && HasColumn(t1.table, 0) && HasColumn(t2.table, 2) && HasColumn(t1.table, c)
    requires WellFormed(t1.table, t1.columnsType) && WellFormed(t2.table, t2.columnsType)
  {
    && (VALUE_TABLE in states[0].catalog || AnyStored(s, events, |events|))
    && (Storable(s, t1.table, t1.columnsType) && Matches(t1.table, c, v, |t1.table|) != [] ==>
          EverRefreshed(s, states, events))
    && (PlainJoin(t1.table, c, v, 0, t2.table, 2) != [] ==>
          Storable(s, t1.table, t1.columnsType) && Storable(s, t2.table, t2.columnsType))
  }

  lemma NewJoinQueryIff(s: Scheme, states: seq<State>, events: seq<Event>, tables: StoredTables, a: nat, b: nat,
                        c: nat, v: string, p: nat)
    requires Assumptions(s) && NewPair(s, states, events, a, b) && Represents(s, Last(states).catalog, tables)
    requires var t1, t2 := events[a].t, events[b].t;
             && WellFormed(t1.table, t1.columnsType) && WellFormed(t2.table, t2.columnsType)
             && HasColumn(t1.table, 0) && HasColumn(t2.table, 2)
             && c < |t1.table[0]| && p < Position(t2.columnsType, |t2.table[0]|) && p <= s.limit
             && Tag(s, ValueKey(COURSES, c, v)) in s.tags
             && forall r: nat :: r < |t2.table| ==> Tag(s, Indexed(STUDENTS, r)) in s.tags
    ensures LabelsDistinct(s)
    ensures var t1, t2 := events[a].t, events[b].t;
            var rs := PlainJoin(t1.table, c, v, 0, t2.table, 2);
            var col := ColumnAt(t2.columnsType, |t2.table[0]|, p);
            var found := RunPlans(s, tables, JoinPlan(s, COURSES, c, v, 0, STUDENTS, 2, p), None);
            && (found.None? || found == Some([]) || Finds(s, found, t2, col, rs))
            && (Finds(s, found, t2, col, rs) <==> JoinAnswered(s, states, events, t1, c, v, t2))
  {
    hide Assumptions, LabelsDistinct, Represents, Tag, ValueKey, Indexed, Serves, RunPlans, JoinPlan, Encodes, Matches,
      Position, Storable, AnyStored, EverRefreshed, PlainJoin, NothingUnder, JoinIn, JoinName, Run, NamesApart,
      PrfInjective, Homomorphic;
    var t1, t2 := events[a].t, events[b].t;
    PairOfRun(s, states, events, a, b);
    var cat := Last(states).catalog;
    LabelsAreDistinctNow(s);
    NewNameServesIff(s, states, events, a);
    NewNameServesIff(s, states, events, b);
    NewJoinIff(s, states, events);
    RunCreatesIff(s, states, events, VALUE_TABLE, |events|);
    NoRowsNoAnswer(t1, c, v, t2);
    if !Storable(s, t1.table, t1.columnsType) {
      UnstoredCourses(s, cat, tables, c, v, p);
    } else if !EverRefreshed(s, states, events) {
      ServedIsStored(s, cat, t1);
      UnwrittenJoin(s, cat, tables, t1, c, v, p);
    } else if !Storable(s, t2.table, t2.columnsType) {
      ServedIsStored(s, cat, t1);
      UnstoredStudents(s, cat, tables, t1, c, v, t2, p);
    } else {
      ServedIsStored(s, cat, t1);
      JoinQuery(s, cat, tables, t1, c, v, 0, t2, 2, p);
    }
  }

  lemma NoRowsNoAnswer(t1: Table, c: nat, v: string, t2: Table)
    requires HasColumn(t1.table, 0) && HasColumn(t2.table, 2) && HasColumn(t1.table, c)
    ensures Matches(t1.table, c, v, |t1.table|) == [] ==> PlainJoin(t1.table, c, v, 0, t2.table, 2) == []
  {
    hide Matches, PlainJoin;
    PlainJoinFollows(t1.table, c, v, 0, t2.table, 2);
  }

  /** After a run under new names the join query shows the plaintext answer in a text column exactly under
      that condition. */
  lemma NewJoinShownIff(s: Scheme, states: seq<State>, events: seq<Event>, tables: StoredTables, a: nat, b: nat,
                        c: nat, v: string, p: nat, out: Option<Result<seq<seq<string>>>>)
    requires Assumptions(s) && LabelsDistinct(s) && NewPair(s, states, events, a, b)
    requires Represents(s, Last(states).catalog, tables)
    requires var t1, t2 := events[a].t, events[b].t;
             && WellFormed(t1.table, t1.columnsType) && WellFormed(t2.table, t2.columnsType)
             && HasColumn(t1.table, 0) && HasColumn(t2.table, 2)
             && c < |t1.table[0]| && p < Position(t2.columnsType, |t2.table[0]|) && p <= s.limit
             && t2.columnsType[ColumnAt(t2.columnsType, |t2.table[0]|, p)] == "string"
             && Tag(s, ValueKey(COURSES, c, v)) in s.tags
             && (forall r: nat :: r < |t2.table| ==> Tag(s, Indexed(STUDENTS, r)) in s.tags)
             && RepliesTo(s, tables, JoinPlan(s, COURSES, c, v, 0, STUDENTS, 2, p), out)
    ensures var t1, t2 := events[a].t, events[b].t;
            ShowsAnswer(s, out, t2, ColumnAt(t2.columnsType, |t2.table[0]|, p),
                        PlainJoin(t1.table, c, v, 0, t2.table, 2)) <==>
            JoinAnswered(s, states, events, t1, c, v, t2)
  {
    hide Assumptions, LabelsDistinct, Represents, Tag, ValueKey, Indexed, RunPlans, JoinPlan, Finds, ShowsAnswer,
      Position,
      PlainJoin, JoinAnswered, NewPair, Homomorphic, Replies;
    PairOfRun(s, states, events, a, b);
    var t1, t2 := events[a].t, events[b].t;
    LabelsAreDistinctNow(s);
    NewJoinQueryIff(s, states, events, tables, a, b, c, v, p);
    ShownIffFound(s, RunPlans(s, tables, JoinPlan(s, COURSES, c, v, 0, STUDENTS, 2, p), None), out, t2,
                  ColumnAt(t2.columnsType, |t2.table[0]|, p), PlainJoin(t1.table, c, v, 0, t2.table, 2));
  }
}
