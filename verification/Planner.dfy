/** The plan that the client's parser makes of a query, from what its regular expressions find in the text. */
module Planner {
  import opened Wrappers
  import opened Numerals
  import opened Keys
  import opened Scheme
  import opened Cells
  import opened Tables
  import opened Executor

  /** The names of the tables, the attributes selected, the two sides of each equation, a value without its
      quotes, and the column that is summed up, if any. */
  datatype Query = Query(
    tableNames: seq<string>, projections: seq<string>, conditions: seq<(string, string)>, sumOf: Option<string>)

  // ----- the three plans -----

  function SelectPlan(s: Scheme, name: string, c: nat, v: string, p: nat, resultType: string): (plans: seq<SqlPlan>)
    ensures HasResult(plans) && ResultType(plans) == resultType
  {
    [SqlPlan("select", [Tag(s, ValueKey(name, c, v))]),
     SqlPlan("projection", [Dec(p)]), SqlPlan("result", [resultType])]
  }

  /** `SELECT T2.p FROM T2, T1 WHERE T2.j2 = T1.j1 AND T1.c = 'v'`. The plan always asks for text. */
  function JoinPlan(s: Scheme, name1: string, c: nat, v: string, j1: nat, name2: string, j2: nat,
      p: nat): (plans: seq<SqlPlan>)
    ensures HasResult(plans) && ResultType(plans) == "string"
  {
    [SqlPlan("sigma", [Tag(s, ValueKey(name1, c, v))]),
     SqlPlan("join", [name2 + "_" + Dec(j2), name1 + "_" + Dec(j1)]),
     SqlPlan("projection", [Dec(p)]), SqlPlan("result", ["string"])]
  }

  function SumPlan(s: Scheme, name: string, c: nat, resultType: string): (plans: seq<SqlPlan>)
    ensures HasResult(plans) && ResultType(plans) == resultType
  {
    [SqlPlan("sum", [Tag(s, Indexed(name, c))]), SqlPlan("result", [resultType])]
  }

  // ----- names -----

  /** `split`: the parts between the dots. No empty part is reported behind a last dot. */
  function Parts(text: string): (parts: seq<string>)
    ensures |parts| > 0
    decreases |text|
  {
    var front := CutAt(text, '.');
    if |front| + 1 >= |text| then [front] else [front] + Parts(text[|front| + 1..])
  }

  /** The text has no dot, except perhaps at its end. */
  predicate Undotted(text: string) {
    text == "" || '.' !in text[..|text| - 1]
  }

  lemma UndottedIsOnePart(text: string)
    ensures |Parts(text)| == 1 <==> Undotted(text)
    ensures '.' !in text ==> Parts(text) == [text]
  {
    hide Undotted, CutAt;
    FirstDot(text);
  }

  lemma FirstDot(text: string)
    ensures |CutAt(text, '.')| + 1 >= |text| <==> Undotted(text)
    ensures '.' !in text ==> CutAt(text, '.') == text
  {
    hide CutAt;
    var front := CutAt(text, '.');
    assert |front| < |text| ==> text[|front|] in text;
    if |front| + 1 < |text| {
      assert text[..|text| - 1][|front|] == '.';
    } else if text != "" {
      assert text[..|text| - 1] == front[..|text| - 1];
    }
  }

  /** The parts with dots between them. */
  function Dotted(parts: seq<string>): string {
    if parts == [] then "" else if |parts| == 1 then parts[0] else parts[0] + "." + Dotted(parts[1..])
  }

  /** Splitting gives back parts that hold no dot themselves, when the last one is not empty. */
  lemma {:induction false} PartsOfDotted(parts: seq<string>)
    requires parts != [] && forall i :: 0 <= i < |parts| ==> '.' !in parts[i]
    requires parts[|parts| - 1] != ""
    ensures Parts(Dotted(parts)) == parts && Dotted(parts) != ""
  {
    hide CutAt, Undotted;
    if |parts| == 1 {
      UndottedIsOnePart(parts[0]);
      assert parts == [parts[0]];
    } else {
      PartsOfDotted(parts[1..]);
      FirstPart(parts[0], Dotted(parts[1..]));
      assert parts == [parts[0]] + parts[1..];
    }
  }

  lemma FirstPart(a: string, rest: string)
    requires '.' !in a && rest != ""
    ensures Parts(a + "." + rest) == [a] + Parts(rest)
  {
    hide CutAt;
    var text := a + "." + rest;
    CutGivesIff(a, text, '.');
    assert text[|a| + 1..] == rest;
  }

  lemma TwoParts(a: string, b: string)
    requires '.' !in a && '.' !in b && b != ""
    ensures Parts(a + "." + b) == [a, b]
  {
    FirstPart(a, b);
    UndottedIsOnePart(b);
  }

  /** What the parser knows of a table; of one that was never uploaded, nothing. */
  function InfoAt(tables: map<string, TableInfo>, name: string): TableInfo {
    if name in tables then tables[name] else TableInfo("", [], [], [])
  }

  /** The number of the first column of this name. */
  function IndexOf(names: seq<string>, name: string): (index: Option<nat>)
    ensures index.None? <==> name !in names
    ensures index.Some? ==> index.value < |names| && names[index.value] == name && name !in names[..index.value]
  {
    if names == [] then None
    else if names[0] == name then Some(0)
    else
      match IndexOf(names[1..], name)
      case None => None
      case Some(i) =>
        assert names[..i + 1] == [names[0]] + names[1..][..i];
        Some(i + 1)
  }

  lemma IndexOfFirst(names: seq<string>, c: nat)
    requires c < |names| && names[c] !in names[..c]
    ensures IndexOf(names, names[c]) == Some(c)
  {
  }

  /** `findColIndex`. Without such a column the source returns nothing defined. */
  method FindColIndex(colNames: seq<string>, col: string) returns (index: Option<nat>)
    ensures index == IndexOf(colNames, col)
  {
    for i := 0 to |colNames|
      invariant col !in colNames[..i]
    {
      if colNames[i] == col {
        IndexOfFirst(colNames, i);
        return Some(i);
      }
    }
    assert colNames[..|colNames|] == colNames;
    index := None;
  }

  /** The column's number in place of its name; a name that is not there stays. */
  function Numbered(tables: map<string, TableInfo>, table: string, column: string): string {
    match IndexOf(InfoAt(tables, table).columns, column)
    case None => column
    case Some(i) => Dec(i)
  }

  /** One side of an equation, or an attribute: `T.c` becomes the table's name and the column's number. */
  function Resolved(tables: map<string, TableInfo>, text: string, mark: string): string {
    var parts := Parts(text);
    if |parts| > 1 then parts[0] + mark + Numbered(tables, parts[0], parts[1]) else text
  }

  /** A text is kept exactly when it has no dot before its end. */
  lemma ResolvedIsKeptIff(tables: map<string, TableInfo>, text: string, mark: string)
    requires mark == "," || mark == "_"
    ensures Resolved(tables, text, mark) == text <==> Undotted(text)
  {
    UndottedIsOnePart(text);
    var front := CutAt(text, '.');
    assert |Parts(text)| > 1 ==> Parts(text)[0] == front && text[|front|] == '.';
    assert |Parts(text)| > 1 ==> Resolved(tables, text, mark)[|front|] == mark[0];
  }

  // ----- the parser -----

  /** Both sides name a column of a table, or look as if they did. */
  predicate JoinsColumns(condition: (string, string)) {
    |Parts(condition.0)| == |Parts(condition.1)| == 2
  }

  function ResolvedCondition(tables: map<string, TableInfo>, condition: (string, string)): (string, string) {
    var mark := if JoinsColumns(condition) then "_" else ",";
    (Resolved(tables, condition.0, mark), Resolved(tables, condition.1, mark))
  }

  function ResolvedConditions(tables: map<string, TableInfo>, conditions: seq<(string, string)>):
      (resolved: seq<(string, string)>)
    ensures |resolved| == |conditions|
  {
    seq(|conditions|, i requires 0 <= i < |conditions| => ResolvedCondition(tables, conditions[i]))
  }

  predicate IsJoin(conditions: seq<(string, string)>) {
    exists i :: 0 <= i < |conditions| && JoinsColumns(conditions[i])
  }

  /** The number of the last selected attribute that is a known column of a named table. */
  function ProjectionIndex(tables: map<string, TableInfo>, projections: seq<string>): string {
    if projections == [] then ""
    else
      var last := |projections| - 1;
      var parts := Parts(projections[last]);
      if |parts| > 1 && parts[1] in InfoAt(tables, parts[0]).columns then Numbered(tables, parts[0], parts[1])
      else ProjectionIndex(tables, projections[..last])
  }

  /** The plan of a query. There is none where the source reads behind the end of a list, takes the result
      of a search that found nothing, or finds a quote left in the value of a join. */
  function PlanOf(s: Scheme, tables: map<string, TableInfo>, q: Query): (plans: Option<seq<SqlPlan>>)
    ensures plans.Some? ==> HasResult(plans.value)
  {
    var conditions := ResolvedConditions(tables, q.conditions);
    if IsJoin(q.conditions) then
      if |conditions| < 2 || '\'' in conditions[1].1 then None
      else Some([SqlPlan("sigma", [Tag(s, conditions[1].0 + "," + conditions[1].1)]),
                 SqlPlan("join", [conditions[0].0, conditions[0].1]),
                 SqlPlan("projection", [ProjectionIndex(tables, q.projections)]), SqlPlan("result", ["string"])])
    else if q.tableNames == [] then None
    else
      var info := InfoAt(tables, q.tableNames[0]);
      if q.sumOf.Some? then
        var c := IndexOf(info.columns, q.sumOf.value);
        if c.None? || c.value >= |info.columnsType| then None
        else Some(SumPlan(s, info.name, c.value, info.columnsType[c.value]))
      else if conditions == [] || q.projections == [] then None
      else
        var c := IndexOf(info.columns, conditions[0].0);
        var p := IndexOf(info.columns, Resolved(tables, q.projections[0], ","));
        if c.None? || p.None? || p.value >= |info.columnsType| then None
        else Some(SelectPlan(s, info.name, c.value, conditions[0].1, p.value, info.columnsType[p.value]))
  }

  /** The first loop of `parseSql`: it rewrites the attributes and keeps the number of the last known one. */
  method ResolveProjections(tables: map<string, TableInfo>, names: seq<string>)
    returns (projectionNames: seq<string>, projectionIndex: string)
    ensures |projectionNames| == |names|
    ensures forall i :: 0 <= i < |names| ==> projectionNames[i] == Resolved(tables, names[i], ",")
    ensures projectionIndex == ProjectionIndex(tables, names)
  {
    projectionNames, projectionIndex := names, "";
    for i := 0 to |names|
      invariant |projectionNames| == |names|
      invariant forall j :: 0 <= j < i ==> projectionNames[j] == Resolved(tables, names[j], ",")
      invariant forall j :: i <= j < |names| ==> projectionNames[j] == names[j]
      invariant projectionIndex == ProjectionIndex(tables, names[..i])
    {
      var params := Parts(projectionNames[i]);
      assert names[..i + 1][..i] == names[..i];
      if |params| > 1 {
        var column := FindColIndex(InfoAt(tables, params[0]).columns, params[1]);
        if column.Some? {
          params := params[1 := Dec(column.value)];
          projectionIndex := Dec(column.value);
        }
        projectionNames := projectionNames[i := params[0] + "," + params[1]];
      }
    }
    assert names[..|names|] == names;
  }

  /** The second loop: it rewrites both sides of each equation and notes whether one is a join. */
  method ResolveConditions(tables: map<string, TableInfo>, given: seq<(string, string)>)
    returns (conditions: seq<(string, string)>, isJoin: bool)
    ensures conditions == ResolvedConditions(tables, given) && isJoin == IsJoin(given)
  {
    conditions, isJoin := given, false;
    for i := 0 to |given|
      invariant |conditions| == |given|
      invariant forall j :: 0 <= j < i ==> conditions[j] == ResolvedCondition(tables, given[j])
      invariant forall j :: i <= j < |given| ==> conditions[j] == given[j]
      invariant isJoin == IsJoin(given[..i])
    {
      var condition := conditions[i];
      var leftParams, rightParams := Parts(condition.0), Parts(condition.1);
      var isCurJoinType := |leftParams| == |rightParams| && |leftParams| == 2;
      assert forall j :: 0 <= j < i ==> given[..i + 1][j] == given[..i][j];
      if |leftParams| > 1 {
        var column := FindColIndex(InfoAt(tables, leftParams[0]).columns, leftParams[1]);
        if column.Some? {
          leftParams := leftParams[1 := Dec(column.value)];
        }
        condition := (leftParams[0] + (if isCurJoinType then "_" else ",") + leftParams[1], condition.1);
      }
      if |rightParams| > 1 {
        var column := FindColIndex(InfoAt(tables, rightParams[0]).columns, rightParams[1]);
        if column.Some? {
          rightParams := rightParams[1 := Dec(column.value)];
        }
        condition := (condition.0, rightParams[0] + (if isCurJoinType then "_" else ",") + rightParams[1]);
        if isCurJoinType {
          isJoin := true;
        }
      }
      assert given[..i + 1][i] == given[i];
      conditions := conditions[i := condition];
    }
    assert given[..|given|] == given;
  }

  /** `parseSql`, behind its regular expressions. */
  method ParseSql(s: Scheme, tables: map<string, TableInfo>, q: Query) returns (plans: Option<seq<SqlPlan>>)
    ensures plans == PlanOf(s, tables, q)
  {
    hide Parts, Tag, Dec, Resolved, ResolvedConditions, IsJoin, ProjectionIndex;
    var projectionNames, projectionIndex := ResolveProjections(tables, q.projections);
    var conditions, isJoin := ResolveConditions(tables, q.conditions);
    if isJoin {
      if |conditions| < 2 || '\'' in conditions[1].1 {
        return None;
      }
      var pp1 := conditions[1].0 + "," + conditions[1].1;
      plans := Some([SqlPlan("sigma", [Tag(s, pp1)]), SqlPlan("join", [conditions[0].0, conditions[0].1]),
                     SqlPlan("projection", [projectionIndex]), SqlPlan("result", ["string"])]);
      return;
    }
    if q.tableNames == [] {
      return None;
    }
    var info := InfoAt(tables, q.tableNames[0]);
    if q.sumOf.Some? {
      var colIndex := FindColIndex(info.columns, q.sumOf.value);
      if colIndex.None? || colIndex.value >= |info.columnsType| {
        return None;
      }
      var p3 := info.name + "," + Dec(colIndex.value);
      plans := Some([SqlPlan("sum", [Tag(s, p3)]), SqlPlan("result", [info.columnsType[colIndex.value]])]);
    } else {
      if conditions == [] || projectionNames == [] {
        return None;
      }
      var colIndex1 := FindColIndex(info.columns, conditions[0].0);
      var colIndex2 := FindColIndex(info.columns, projectionNames[0]);
      if colIndex1.None? || colIndex2.None? || colIndex2.value >= |info.columnsType| {
        return None;
      }
      var p1 := info.name + "," + Dec(colIndex1.value) + "," + conditions[0].1;
      plans := Some([SqlPlan("select", [Tag(s, p1)]), SqlPlan("projection", [Dec(colIndex2.value)]),
                     SqlPlan("result", [info.columnsType[colIndex2.value]])]);
    }
  }

  /** Beside the first equation and the first attribute of a query of one table, the first two equations of a
      join and the column that is summed up, the parser looks at nothing: further conditions do not filter
      the answer. */
  lemma RestIsIgnored(s: Scheme, tables: map<string, TableInfo>, q: Query, more: seq<string>,
      others: seq<(string, string)>)
    requires if IsJoin(q.conditions) then |q.conditions| >= 2 && more == []
             else !IsJoin(others) && (q.sumOf.Some? || (q.conditions != [] && q.projections != []))
    ensures PlanOf(s, tables, q.(projections := q.projections + more, conditions := q.conditions + others))
         == PlanOf(s, tables, q)
  {
    hide JoinsColumns, ResolvedCondition, Resolved, ProjectionIndex, Tag, Dec;
    var conditions := q.conditions + others;
    assert q.projections + [] == q.projections;
    assert IsJoin(conditions) <==> IsJoin(q.conditions) || IsJoin(others) by {
      assert forall i :: 0 <= i < |q.conditions| ==> conditions[i] == q.conditions[i];
      assert forall i :: 0 <= i < |others| ==> conditions[|q.conditions| + i] == others[i];
    }
    assert ResolvedConditions(tables, conditions)[..|q.conditions|] == ResolvedConditions(tables, q.conditions);
  }

  /** Of several attributes a join shows the last one that is a known column. */
  lemma {:induction false} OnlyTheLastIsProjected(tables: map<string, TableInfo>, t: Table, p: nat, first: seq<string>,
      unknown: seq<string>)
    requires Remembers(tables, t) && Named(t, p) && '.' !in t.name
    requires forall i :: 0 <= i < |unknown| ==> Undotted(unknown[i])
    ensures ProjectionIndex(tables, first + [t.name + "." + t.columns[p]] + unknown) == Dec(p)
    decreases |unknown|
  {
    hide Parts, Dec, Undotted;
    var known := first + [t.name + "." + t.columns[p]];
    if unknown == [] {
      ResolvedColumn(tables, t, p, ",");
      assert known + unknown == known;
      assert t.columns[p] in InfoAt(tables, t.name).columns;
    } else {
      var last := |unknown| - 1;
      assert known + unknown == (known + unknown[..last]) + [unknown[last]];
      assert (known + unknown)[..|known + unknown| - 1] == known + unknown[..last];
      UndottedIsOnePart(unknown[last]);
      OnlyTheLastIsProjected(tables, t, p, first, unknown[..last]);
    }
  }

  // ----- queries by the names of columns -----

  /** A query can name column `c`: it is the first of its name, which is neither empty nor dotted. */
  predicate Named(t: Table, c: nat) {
    && c < |t.columns| && c < |t.columnsType|
    && t.columns[c] !in t.columns[..c] && t.columns[c] != "" && '.' !in t.columns[c]
  }

  predicate Remembers(tables: map<string, TableInfo>, t: Table) {
    t.name in tables && tables[t.name] == InfoOf(t)
  }

  /** What the parser remembers of an uploaded table leads from the name of a column back to the column and
      its type. */
  lemma NameLeadsToColumn(tables: map<string, TableInfo>, t: Table, c: nat)
    requires Remembers(tables, t) && Named(t, c)
    ensures InfoAt(tables, t.name).name == t.name
    ensures IndexOf(InfoAt(tables, t.name).columns, t.columns[c]) == Some(c)
    ensures c < |InfoAt(tables, t.name).columnsType| && InfoAt(tables, t.name).columnsType[c] == t.columnsType[c]
  {
    IndexOfFirst(t.columns, c);
  }

  /** `SELECT p FROM T WHERE c = v`. */
  function AskSelect(t: Table, c: nat, v: string, p: nat): Query
    requires Named(t, c) && Named(t, p)
  {
    Query([t.name], [t.columns[p]], [(t.columns[c], v)], None)
  }

  /** `SELECT SUM(c) FROM T`. */
  function AskSum(t: Table, c: nat): Query
    requires Named(t, c)
  {
    Query([t.name], ["SUM(" + t.columns[c] + ")"], [], Some(t.columns[c]))
  }

  /** `SELECT T2.p FROM T2, T1 WHERE T2.j2 = T1.j1 AND T1.c = 'v'`. */
  function AskJoin(t1: Table, c: nat, v: string, j1: nat, t2: Table, j2: nat, p: nat): Query
    requires Named(t1, c) && Named(t1, j1) && Named(t2, j2) && Named(t2, p)
  {
    Query([t1.name, t2.name], [t2.name + "." + t2.columns[p]],
          [(t2.name + "." + t2.columns[j2], t1.name + "." + t1.columns[j1]), (t1.name + "." + t1.columns[c], v)], None)
  }

  /** The plan of a select query looks the value up under the numbers of the named columns and asks for the
      type of the selected one. A value that has a dot before its end is looked up in another form. */
  lemma SelectIsPlanned(s: Scheme, tables: map<string, TableInfo>, t: Table, c: nat, v: string, p: nat)
    requires Remembers(tables, t) && Named(t, c) && Named(t, p)
    ensures PlanOf(s, tables, AskSelect(t, c, v, p))
         == Some(SelectPlan(s, t.name, c, Resolved(tables, v, ","), p, t.columnsType[p]))
    ensures Resolved(tables, v, ",") == v <==> Undotted(v)
  {
    hide Parts, SelectPlan, Undotted;
    NameLeadsToColumn(tables, t, c);
    NameLeadsToColumn(tables, t, p);
    UndottedIsOnePart(t.columns[c]);
    UndottedIsOnePart(t.columns[p]);
    ResolvedIsKeptIff(tables, v, ",");
    var q := AskSelect(t, c, v, p);
    assert !IsJoin(q.conditions);
    assert ResolvedConditions(tables, q.conditions)[0] == (t.columns[c], Resolved(tables, v, ","));
  }

  /** The plan of a sum query adds up the named column and asks for its type. */
  lemma SumIsPlanned(s: Scheme, tables: map<string, TableInfo>, t: Table, c: nat)
    requires Remembers(tables, t) && Named(t, c)
    ensures PlanOf(s, tables, AskSum(t, c)) == Some(SumPlan(s, t.name, c, t.columnsType[c]))
  {
    hide Parts, SumPlan;
    NameLeadsToColumn(tables, t, c);
    assert !IsJoin([]);
  }

  lemma ResolvedColumn(tables: map<string, TableInfo>, t: Table, c: nat, mark: string)
    requires Remembers(tables, t) && Named(t, c) && '.' !in t.name
    ensures Parts(t.name + "." + t.columns[c]) == [t.name, t.columns[c]]
    ensures Resolved(tables, t.name + "." + t.columns[c], mark) == t.name + mark + Dec(c)
    ensures ProjectionIndex(tables, [t.name + "." + t.columns[c]]) == Dec(c)
  {
    hide Parts, Dec;
    TwoParts(t.name, t.columns[c]);
    NameLeadsToColumn(tables, t, c);
    assert t.columns[c] in InfoAt(tables, t.name).columns;
  }

  /** The plan of a join query, for a value without a dot before its end and without a quote. */
  lemma JoinIsPlanned(s: Scheme, tables: map<string, TableInfo>, t1: Table, c: nat, v: string, j1: nat, t2: Table,
      j2: nat, p: nat)
    requires Remembers(tables, t1) && Remembers(tables, t2) && '.' !in t1.name && '.' !in t2.name
    requires Named(t1, c) && Named(t1, j1) && Named(t2, j2) && Named(t2, p) && Undotted(v) && '\'' !in v
    ensures PlanOf(s, tables, AskJoin(t1, c, v, j1, t2, j2, p))
         == Some(JoinPlan(s, t1.name, c, v, j1, t2.name, j2, p))
  {
    hide Parts, Dec, Tag, Resolved, Undotted, ProjectionIndex;
    var q := AskJoin(t1, c, v, j1, t2, j2, p);
    ResolvedColumn(tables, t2, j2, "_");
    ResolvedColumn(tables, t1, j1, "_");
    ResolvedColumn(tables, t1, c, ",");
    ResolvedColumn(tables, t2, p, ",");
    UndottedIsOnePart(v);
    ResolvedIsKeptIff(tables, v, ",");
    assert JoinsColumns(q.conditions[0]) && !JoinsColumns(q.conditions[1]);
    var conditions := ResolvedConditions(tables, q.conditions);
    assert conditions[0] == (t2.name + "_" + Dec(j2), t1.name + "_" + Dec(j1));
    assert conditions[1] == (t1.name + "," + Dec(c), v);
  }

  /** With the sides of the join equation exchanged, the plan asks for the join table of the exchanged pair. */
  lemma SidesOfJoinMatter(s: Scheme, tables: map<string, TableInfo>, t1: Table, c: nat, v: string, j1: nat, t2: Table,
      j2: nat, p: nat)
    requires Remembers(tables, t1) && Remembers(tables, t2) && '.' !in t1.name && '.' !in t2.name
    requires Named(t1, c) && Named(t1, j1) && Named(t2, j2) && Named(t2, p) && Undotted(v) && '\'' !in v
    ensures var q := AskJoin(t1, c, v, j1, t2, j2, p);
            var exchanged := q.(conditions := [(q.conditions[0].1, q.conditions[0].0), q.conditions[1]]);
            PlanOf(s, tables, exchanged) == Some(ExchangedPlan(s, t1.name, c, v, j1, t2.name, j2, p))
  {
    hide Parts, Dec, Tag, Resolved, Undotted, ProjectionIndex;
    var q := AskJoin(t1, c, v, j1, t2, j2, p);
    var exchanged := q.(conditions := [(q.conditions[0].1, q.conditions[0].0), q.conditions[1]]);
    ResolvedColumn(tables, t2, j2, "_");
    ResolvedColumn(tables, t1, j1, "_");
    ResolvedColumn(tables, t1, c, ",");
    ResolvedColumn(tables, t2, p, ",");
    UndottedIsOnePart(v);
    ResolvedIsKeptIff(tables, v, ",");
    assert JoinsColumns(exchanged.conditions[0]) && !JoinsColumns(exchanged.conditions[1]);
    var conditions := ResolvedConditions(tables, exchanged.conditions);
    assert conditions[0] == (t1.name + "_" + Dec(j1), t2.name + "_" + Dec(j2));
    assert conditions[1] == (t1.name + "," + Dec(c), v);
  }

  function ExchangedPlan(s: Scheme, name1: string, c: nat, v: string, j1: nat, name2: string, j2: nat,
      p: nat): (plans: seq<SqlPlan>)
    ensures HasResult(plans)
  {
    [SqlPlan("sigma", [Tag(s, ValueKey(name1, c, v))]),
     SqlPlan("join", [name1 + "_" + Dec(j1), name2 + "_" + Dec(j2)]),
     SqlPlan("projection", [Dec(p)]), SqlPlan("result", ["string"])]
  }

  /** With the two equations exchanged, the plan filters by the join columns and joins by the value. */
  lemma OrderOfConditionsMatters(s: Scheme, tables: map<string, TableInfo>, t1: Table, c: nat, v: string, j1: nat,
      t2: Table, j2: nat, p: nat)
    requires Remembers(tables, t1) && Remembers(tables, t2) && '.' !in t1.name && '.' !in t2.name
    requires Named(t1, c) && Named(t1, j1) && Named(t2, j2) && Named(t2, p) && Undotted(v) && '\'' !in t1.name
    ensures var q := AskJoin(t1, c, v, j1, t2, j2, p);
            PlanOf(s, tables, q.(conditions := [q.conditions[1], q.conditions[0]]))
            == Some([SqlPlan("sigma", [Tag(s, t2.name + "_" + Dec(j2) + "," + (t1.name + "_" + Dec(j1)))]),
                     SqlPlan("join", [t1.name + "," + Dec(c), v]),
                     SqlPlan("projection", [Dec(p)]), SqlPlan("result", ["string"])])
  {
    hide Parts, Print, Tag, Resolved, Undotted, ProjectionIndex;
    var q := AskJoin(t1, c, v, j1, t2, j2, p);
    var exchanged := q.(conditions := [q.conditions[1], q.conditions[0]]);
    ResolvedColumn(tables, t2, j2, "_");
    ResolvedColumn(tables, t1, j1, "_");
    ResolvedColumn(tables, t1, c, ",");
    ResolvedColumn(tables, t2, p, ",");
    UndottedIsOnePart(v);
    ResolvedIsKeptIff(tables, v, ",");
    assert !JoinsColumns(exchanged.conditions[0]) && JoinsColumns(exchanged.conditions[1]);
    var conditions := ResolvedConditions(tables, exchanged.conditions);
    assert conditions[1] == (t2.name + "_" + Dec(j2), t1.name + "_" + Dec(j1));
    assert conditions[0] == (t1.name + "," + Dec(c), v);
    NoQuoteInNumber(t1.name, j1);
  }

  lemma NoQuoteInNumber(name: string, n: nat)
    requires '\'' !in name
    ensures '\'' !in name + "_" + Dec(n)
  {
    assert AllDigits(Dec(n), 10);
  }

  /** A dotted value in a join query is taken for a column of a table: the rows are looked up under a text
      that is no value key of the table. */
  lemma DottedJoinValue(s: Scheme, tables: map<string, TableInfo>, t1: Table, c: nat, a: string, b: string, j1: nat,
      t2: Table, j2: nat, p: nat)
    requires Remembers(tables, t1) && Remembers(tables, t2) && '.' !in t1.name && '.' !in t2.name
    requires Named(t1, c) && Named(t1, j1) && Named(t2, j2) && Named(t2, p)
    requires '.' !in a && '.' !in b && b != "" && '\'' !in a && '\'' !in b && a !in tables
    ensures PlanOf(s, tables, AskJoin(t1, c, a + "." + b, j1, t2, j2, p))
         == Some([SqlPlan("sigma", [Tag(s, t1.name + "_" + Dec(c) + "," + (a + "_" + b))])]
                 + JoinPlan(s, t1.name, c, a + "." + b, j1, t2.name, j2, p)[1..])
    ensures forall d: nat, w :: t1.name + "_" + Dec(c) + "," + (a + "_" + b) != ValueKey(t1.name, d, w)
  {
    hide Parts, Dec, Tag, ProjectionIndex;
    var v := a + "." + b;
    var sigma := SqlPlan("sigma", [Tag(s, t1.name + "_" + Dec(c) + "," + (a + "_" + b))]);
    var plans := JoinPlan(s, t1.name, c, v, j1, t2.name, j2, p);
    assert [sigma] + plans[1..] == [sigma, plans[1], plans[2], plans[3]];
    var q := AskJoin(t1, c, v, j1, t2, j2, p);
    ResolvedColumn(tables, t2, j2, "_");
    ResolvedColumn(tables, t1, j1, "_");
    ResolvedColumn(tables, t1, c, "_");
    ResolvedColumn(tables, t2, p, ",");
    TwoParts(a, b);
    assert Resolved(tables, v, "_") == a + "_" + b;
    assert JoinsColumns(q.conditions[0]) && JoinsColumns(q.conditions[1]);
    var conditions := ResolvedConditions(tables, q.conditions);
    assert conditions[0] == (t2.name + "_" + Dec(j2), t1.name + "_" + Dec(j1));
    assert conditions[1] == (t1.name + "_" + Dec(c), a + "_" + b);
    forall d: nat, w ensures t1.name + "_" + Dec(c) + "," + (a + "_" + b) != ValueKey(t1.name, d, w) {
      assert ValueKey(t1.name, d, w)[|t1.name|] == ',';
    }
  }

  /** A select query that names its column by table and column has no plan: the rewritten name is looked for
      among the columns, unless a column is called so. */
  lemma QualifiedSelectHasNoPlan(s: Scheme, tables: map<string, TableInfo>, t: Table, c: nat, v: string, p: nat)
    requires Remembers(tables, t) && Named(t, c) && Named(t, p) && '.' !in t.name && Undotted(v)
    requires t.name + "," + Dec(c) !in t.columns
    ensures PlanOf(s, tables, AskSelect(t, c, v, p).(conditions := [(t.name + "." + t.columns[c], v)])) == None
  {
    hide Parts, Dec, Undotted;
    var q := AskSelect(t, c, v, p).(conditions := [(t.name + "." + t.columns[c], v)]);
    ResolvedColumn(tables, t, c, ",");
    UndottedIsOnePart(v);
    assert !IsJoin(q.conditions);
    assert ResolvedConditions(tables, q.conditions)[0].0 == t.name + "," + Dec(c);
  }
}
