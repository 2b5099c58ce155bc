/** Running a query plan on the stored tables with tags only, and decrypting what it finds. */
module Executor {
  import opened Wrappers
  import opened Hex
  import opened Scheme
  import opened Cells
  import opened Stores
  import opened Catalogs
  import opened Sums

  datatype SqlPlan = SqlPlan(planType: string, params: seq<string>)

  predicate HasResult(plans: seq<SqlPlan>) {
    |plans| > 0 && |plans[|plans| - 1].params| > 0
  }

  /** The type by which the answer is decrypted: the first parameter of the last step. */
  function ResultType(plans: seq<SqlPlan>): string
    requires HasResult(plans)
  {
    plans[|plans| - 1].params[0]
  }

  // ----- what the database functions compute -----

  /** Walking in a table that was never created fails. A walk whose tag lies outside the scope of the
      collision assumption is not known to stop. */
  function WalkIn(s: Scheme, tables: StoredTables, name: string, tag: string): Option<seq<string>>
    requires LabelsDistinct(s)
  {
    if name in tables && tag in s.tags && |tables[name]| <= s.limit then Some(Walk(s, tables[name], tag)) else None
  }

  function Append(a: Option<seq<string>>, b: Option<seq<string>>): Option<seq<string>> {
    if a.Some? && b.Some? then Some(a.value + b.value) else None
  }

  /** The walks of all tags, one after the other. Without tags no table is read. */
  function WalkAll(s: Scheme, tables: StoredTables, name: string, tags: seq<string>): Option<seq<string>>
    requires LabelsDistinct(s)
  {
    if tags == [] then Some([])
    else
      var last := |tags| - 1;
      Append(WalkAll(s, tables, name, tags[..last]), WalkIn(s, tables, name, tags[last]))
  }

  /** The entry of the row index that a row tag and a column number lead to, if there is one. */
  function Field(s: Scheme, tables: StoredTables, tag: string, param: string): Option<seq<string>> {
    var lab := HexOf(s.digest(tag + "," + param));
    if ROW_TABLE !in tables then None
    else Some(if lab in tables[ROW_TABLE] then [tables[ROW_TABLE][lab]] else [])
  }

  function FieldsOf(s: Scheme, tables: StoredTables, tags: seq<string>, param: string): Option<seq<string>> {
    if tags == [] then Some([])
    else
      var last := |tags| - 1;
      Append(FieldsOf(s, tables, tags[..last], param), Field(s, tables, tags[last], param))
  }

  function SumOf(s: Scheme, values: Option<seq<string>>): Option<seq<string>> {
    if values.Some? && values.value != [] then Some([AddUp(s, values.value)]) else values
  }

  /** The temporary table that one plan step fills from the one before it. */
  function RunStep(s: Scheme, tables: StoredTables, plan: SqlPlan, from: Option<seq<string>>): Option<seq<string>>
    requires LabelsDistinct(s)
  {
    if plan.planType in {"select", "sigma"} && |plan.params| > 0 then
      WalkIn(s, tables, VALUE_TABLE, plan.params[0])
    else if plan.planType == "join" && |plan.params| > 1 && from.Some? then
      WalkAll(s, tables, "mmjoin_" + plan.params[1] + "_join_" + plan.params[0], from.value)
    else if plan.planType == "projection" && |plan.params| > 0 && from.Some? then
      FieldsOf(s, tables, from.value, plan.params[0])
    else if plan.planType == "sum" && |plan.params| > 0 then
      SumOf(s, WalkIn(s, tables, COLUMN_TABLE, plan.params[0]))
    else None
  }

  /** The last temporary table of the plan, up to its result step. */
  function RunPlans(s: Scheme, tables: StoredTables, plans: seq<SqlPlan>,
      from: Option<seq<string>>): Option<seq<string>>
    requires LabelsDistinct(s)
  {
    if plans == [] || plans[0].planType == "result" then from
    else
      var next := RunStep(s, tables, plans[0], from);
      if next.None? then None else RunPlans(s, tables, plans[1..], next)
  }

  /** A plan with a step of another kind has no result, nor has one that starts with a join or a projection; at
      its result step a plan stops. */
  lemma OtherPlansFail(s: Scheme, tables: StoredTables, plan: SqlPlan, rest: seq<SqlPlan>, from: Option<seq<string>>)
    requires LabelsDistinct(s)
    ensures plan.planType !in {"select", "sigma", "join", "projection", "sum", "result"} ==>
              RunPlans(s, tables, [plan] + rest, from) == None
    ensures plan.planType in {"join", "projection"} ==> RunPlans(s, tables, [plan] + rest, None) == None
    ensures plan.planType == "result" ==> RunPlans(s, tables, [plan] + rest, from) == from
  {
    hide LabelsDistinct, WalkIn, FieldsOf, WalkAll, SumOf;
  }

  /** `SqlPlanExecutor::execute`: each step fills a temporary table from the last one. */
  method Execute(s: Scheme, tables: StoredTables, plans: seq<SqlPlan>) returns (results: Option<seq<seq<string>>>)
    requires LabelsDistinct(s)
    ensures results.Some? <==> RunPlans(s, tables, plans, None).Some?
    ensures results.Some? ==> var cells := RunPlans(s, tables, plans, None).value;
                              && |results.value| == |cells|
                              && forall i :: 0 <= i < |cells| ==> results.value[i] == [cells[i]]
  {
    var tmpTables: seq<seq<string>> := [];
    var i := 0;
    while i < |plans|
      invariant 0 <= i <= |plans|
      invariant RunPlans(s, tables, plans, None)
             == RunPlans(s, tables, plans[i..], if tmpTables == [] then None else Some(tmpTables[|tmpTables| - 1]))
    {
      var plan := plans[i];
      if plan.planType == "result" {
        break;
      }
      var from := if tmpTables == [] then None else Some(tmpTables[|tmpTables| - 1]);
      var filled := RunStep(s, tables, plan, from);
      assert plans[i..][0] == plan && plans[i..][1..] == plans[i + 1..];
      if filled.None? {
        return None;
      }
      tmpTables := tmpTables + [filled.value];
      i := i + 1;
    }
    assert RunPlans(s, tables, plans, None) == if tmpTables == [] then None else Some(tmpTables[|tmpTables| - 1]);
    if tmpTables == [] {
      return None;
    }
    var tmpTable := tmpTables[|tmpTables| - 1];
    results := Some(seq(|tmpTable|, j requires 0 <= j < |tmpTable| => [tmpTable[j]]));
  }

  // ----- decrypting -----

  predicate Rectangular(res: seq<seq<string>>) {
    forall i :: 0 <= i < |res| ==> |res[0]| <= |res[i]|
  }

  /** `out` holds the decrypted fields of `res`; fields beyond the width of the first row stay as they were. */
  ghost predicate DecryptedTo(s: Scheme, resultType: string, res: seq<seq<string>>, out: seq<seq<string>>)
    requires Rectangular(res)
  {
    && |out| == |res|
    && forall i :: 0 <= i < |res| ==>
         && |out[i]| == |res[i]| && out[i][|res[0]|..] == res[i][|res[0]|..]
         && forall j :: 0 <= j < |res[0]| ==> DecryptField(s, resultType, res[i][j]) == Ok(out[i][j])
  }

  /** `decryptedResult`: it overwrites one field after the other. */
  method DecryptedResult(s: Scheme, resultType: string, res: seq<seq<string>>) returns (out: Result<seq<seq<string>>>)
    requires Rectangular(res)
    ensures out.Ok? ==> DecryptedTo(s, resultType, res, out.value)
    ensures out.Raised? ==>
              exists i, j :: 0 <= i < |res| && 0 <= j < |res[0]|
                             && DecryptField(s, resultType, res[i][j]) == Raised(out.error)
  {
    var table := res;
    for i := 0 to |res|
      invariant |table| == |res| && table[i..] == res[i..]
      invariant DecryptedTo(s, resultType, res[..i], table[..i])
    {
      var row := res[i];
      for j := 0 to |res[0]|
        invariant |row| == |res[i]| && row[j..] == res[i][j..]
        invariant forall k :: 0 <= k < j ==> DecryptField(s, resultType, res[i][k]) == Ok(row[k])
      {
        var decrypted := DecryptField(s, resultType, row[j]);
        assert row[j] == row[j..][0] == res[i][j];
        if decrypted.Raised? {
          return Raised(decrypted.error);
        }
        row := row[j := decrypted.value];
      }
      ghost var before := table[..i];
      table := table[i := row];
      assert table[..i + 1] == before + [row] && res[..i + 1] == res[..i] + [res[i]];
    }
    assert res[..|res|] == res && table[..|res|] == table;
    out := Ok(table);
  }
}
