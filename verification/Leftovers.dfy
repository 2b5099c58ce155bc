/** Queries on a table that was uploaded over longer lists of an older one: what is left of these behind the
    new lists, and exactly when it spoils an answer. */
module Leftovers {
  import opened Wrappers
  import opened Numerals
  import opened Keys
  import opened Scheme
  import opened Cells
  import opened Tables
  import opened MultiMaps
  import opened Stores
  import opened DataMapper
  import opened Catalogs
  import opened Sums
  import opened Executor
  import opened Planner
  import opened Service
  import opened Serving
  import opened CrossProducts
  import opened Queries
  import opened Reuploads

  // ----- new lists on top of old ones -----

  /** What is left of a list behind a new one of length `n`. */
  function Beyond<T>(list: seq<T>, n: nat): seq<T> {
    if n <= |list| then list[n..] else []
  }

  lemma OverIsBeyond(next: seq<string>, prior: seq<string>)
    ensures Over(next, prior) == next + Beyond(prior, |next|)
  {
  }

  /** The rows whose cell in column `c` is `v`. */
  function RowsWith(t: Table, c: nat, v: string): seq<nat>
    requires WellFormed(t.table, t.columnsType)
  {
    if c < |t.table[0]| then Matches(t.table, c, v, |t.table|) else []
  }

  ghost predicate ValuesOnTop(s: Scheme, a: MultiMap, b: MultiMap, t: Table)
    requires WellFormed(t.table, t.columnsType)
  {
    forall c: nat, v {:trigger ValueKey(t.name, c, v)} ::
      Get(b, ValueKey(t.name, c, v))
      == RowTags(s, t.name, RowsWith(t, c, v)) + Beyond(Get(a, ValueKey(t.name, c, v)), |RowsWith(t, c, v)|)
  }

  ghost predicate ColsOnTop(s: Scheme, a: MultiMap, b: MultiMap, t: Table)
    requires WellFormed(t.table, t.columnsType)
  {
    forall c: nat {:trigger Indexed(t.name, c)} ::
      var list := Get(b, Indexed(t.name, c));
      if c < |t.table[0]| && Supported(t.columnsType[c]) then
        && |t.table| <= |list| && ColEncodes(s, t.columnsType[c], t.table, c, list[..|t.table|], |t.table|)
        && list[|t.table|..] == Beyond(Get(a, Indexed(t.name, c)), |t.table|)
      else list == Get(a, Indexed(t.name, c))
  }

  ghost predicate SizesOnTop(a: MultiMap, b: MultiMap, t: Table)
    requires WellFormed(t.table, t.columnsType)
  {
    forall r: nat {:trigger Indexed(t.name, r)} ::
      && |Get(b, Indexed(t.name, r))| == Longer(|Get(a, Indexed(t.name, r))|, RowLength(t, r))
      && (Indexed(t.name, r) in a ==> Indexed(t.name, r) in b)
  }

  /** The lists of the table lie on top of those that stood in `cat`. */
  ghost predicate OnTop(s: Scheme, cat: Catalog, next: Catalog, t: Table)
    requires WellFormed(t.table, t.columnsType)
  {
    && ROW_TABLE in next && VALUE_TABLE in next && COLUMN_TABLE in next
    && ValuesOnTop(s, Lookup(cat, VALUE_TABLE), Lookup(next, VALUE_TABLE), t)
    && RowsBegin(s, Lookup(next, ROW_TABLE), t)
    && SizesOnTop(Lookup(cat, ROW_TABLE), Lookup(next, ROW_TABLE), t)
    && ColsOnTop(s, Lookup(cat, COLUMN_TABLE), Lookup(next, COLUMN_TABLE), t)
  }

  lemma ValuesOver(s: Scheme, mm: MultiMap, t: Table, v: MultiMap)
    requires WellFormed(t.table, t.columnsType) && ValuesIn(s, v, t)
    ensures ValuesOnTop(s, mm, Overlay(mm, v), t)
  {
    hide ValueKey, Over, Beyond, RowTags, Matches, Overlay;
    forall c: nat, w
      ensures Get(Overlay(mm, v), ValueKey(t.name, c, w))
           == RowTags(s, t.name, RowsWith(t, c, w)) + Beyond(Get(mm, ValueKey(t.name, c, w)), |RowsWith(t, c, w)|)
    {
      OverlayGet(mm, v, ValueKey(t.name, c, w));
      OverIsBeyond(Get(v, ValueKey(t.name, c, w)), Get(mm, ValueKey(t.name, c, w)));
      assert RowTags(s, t.name, []) == [];
    }
  }

  lemma RowsOver(s: Scheme, mm: MultiMap, t: Table, r: MultiMap)
    requires WellFormed(t.table, t.columnsType) && RowsIn(s, r, t)
    ensures RowsBegin(s, Overlay(mm, r), t) && SizesOnTop(mm, Overlay(mm, r), t)
  {
    hide Indexed, Encodes, Over, RowEncodes, RowLength;
    var stored := Position(t.columnsType, |t.table[0]|);
    forall i: nat | i < |t.table|
      ensures Indexed(t.name, i) in Overlay(mm, r) && stored <= |Overlay(mm, r)[Indexed(t.name, i)]|
      ensures RowEncodes(s, t.columnsType, t.table[i], Overlay(mm, r)[Indexed(t.name, i)][..stored], |t.table[0]|)
    {
      assert Indexed(t.name, i) in r;
      ServedSize(s, r, t, i);
      OverlayGet(mm, r, Indexed(t.name, i));
      OverIsBeyond(Get(r, Indexed(t.name, i)), Get(mm, Indexed(t.name, i)));
      assert Overlay(mm, r)[Indexed(t.name, i)][..stored] == r[Indexed(t.name, i)];
    }
    forall i: nat
      ensures |Get(Overlay(mm, r), Indexed(t.name, i))| == Longer(|Get(mm, Indexed(t.name, i))|, RowLength(t, i))
      ensures Indexed(t.name, i) in mm ==> Indexed(t.name, i) in Overlay(mm, r)
    {
      OverlayLength(mm, r, Indexed(t.name, i));
      RowListLength(s, r, t, i);
    }
  }

  lemma ColsOver(s: Scheme, mm: MultiMap, t: Table, c: MultiMap)
    requires WellFormed(t.table, t.columnsType) && ColsIn(s, c, t)
    ensures ColsOnTop(s, mm, Overlay(mm, c), t)
  {
    hide Indexed, Encodes, Over, Overlay;
    forall i: nat
      ensures var list := Get(Overlay(mm, c), Indexed(t.name, i));
              if i < |t.table[0]| && Supported(t.columnsType[i]) then
                && |t.table| <= |list| && ColEncodes(s, t.columnsType[i], t.table, i, list[..|t.table|], |t.table|)
                && list[|t.table|..] == Beyond(Get(mm, Indexed(t.name, i)), |t.table|)
              else list == Get(mm, Indexed(t.name, i))
    {
      var key := Indexed(t.name, i);
      OverlayGet(mm, c, key);
      OverIsBeyond(Get(c, key), Get(mm, key));
      if i < |t.table[0]| && Supported(t.columnsType[i]) {
        assert key in c;
        assert Get(Overlay(mm, c), key)[..|t.table|] == c[key];
      } else {
        assert Get(c, key) == [];
        assert [] + Get(mm, key)[0..] == Get(mm, key);
      }
    }
  }

  lemma UploadOnTop(s: Scheme, cat: Catalog, t: Table, next: Catalog)
    requires WellFormed(t.table, t.columnsType) && Uploaded(s, cat, t, next)
    ensures OnTop(s, cat, next, t)
  {
    hide RowsIn, ColsIn, ValuesIn, Uploaded, AreIndexes, Overlay, ValuesOnTop, ColsOnTop, SizesOnTop, RowsBegin;
    var r, v, c := UploadParts(s, cat, t, next);
    IndexesServe(s, t, r, v, c);
    ValuesOver(s, Lookup(cat, VALUE_TABLE), t, v);
    RowsOver(s, Lookup(cat, ROW_TABLE), t, r);
    ColsOver(s, Lookup(cat, COLUMN_TABLE), t, c);
  }

  /** Uploads under other names do not change what lies on top of what. */
  lemma OnTopKept(s: Scheme, cat: Catalog, next: Catalog, later: Catalog, t: Table)
    requires WellFormed(t.table, t.columnsType) && OnTop(s, cat, next, t) && SameLists(next, later, t.name)
    requires ROW_TABLE in later && VALUE_TABLE in later && COLUMN_TABLE in later
    ensures OnTop(s, cat, later, t)
  {
    hide Indexed, ValueKey, Lookup, RowsWith, RowTags, Beyond, RowEncodes, ColEncodes, RowLength, Position;
    assert forall r: nat :: SameList(Lookup(next, ROW_TABLE), Lookup(later, ROW_TABLE), Indexed(t.name, r));
    assert forall c: nat :: SameList(Lookup(next, COLUMN_TABLE), Lookup(later, COLUMN_TABLE), Indexed(t.name, c));
    assert forall c: nat, v ::
      SameList(Lookup(next, VALUE_TABLE), Lookup(later, VALUE_TABLE), ValueKey(t.name, c, v));
  }

  /** A catalog with the same three stores. */
  lemma OnTopSame(s: Scheme, cat: Catalog, next: Catalog, later: Catalog, t: Table)
    requires WellFormed(t.table, t.columnsType) && OnTop(s, cat, next, t)
    requires forall n :: n in {ROW_TABLE, VALUE_TABLE, COLUMN_TABLE} ==>
               Lookup(later, n) == Lookup(next, n) && (n in later <==> n in next)
    ensures OnTop(s, cat, later, t)
  {
    hide ValuesOnTop, ColsOnTop, SizesOnTop, RowsBegin, Lookup;
  }

  // ----- putting found cells together -----

  lemma {:induction false} FieldsOfConcat(s: Scheme, tables: StoredTables, a: seq<string>, b: seq<string>,
      param: string)
    ensures FieldsOf(s, tables, a + b, param) == Append(FieldsOf(s, tables, a, param), FieldsOf(s, tables, b, param))
  {
    hide Field, FieldsOf;
    if b == [] {
      assert a + b == a;
      NothingAppended(s, tables, a, param);
    } else {
      var front, tag := b[..|b| - 1], b[|b| - 1];
      assert b == front + [tag] && a + b == (a + front) + [tag];
      FieldsOfConcat(s, tables, a, front, param);
      FieldsOfAppend(s, tables, a + front, tag, param);
      FieldsOfAppend(s, tables, front, tag, param);
      AppendAssociates(FieldsOf(s, tables, a, param), FieldsOf(s, tables, front, param), Field(s, tables, tag, param));
    }
  }

  lemma NothingAppended(s: Scheme, tables: StoredTables, a: seq<string>, param: string)
    ensures FieldsOf(s, tables, a, param) == Append(FieldsOf(s, tables, a, param), FieldsOf(s, tables, [], param))
  {
    hide Field;
    var x := FieldsOf(s, tables, a, param);
    assert x.Some? ==> x.value + [] == x.value;
  }

  lemma AppendAssociates(a: Option<seq<string>>, b: Option<seq<string>>, c: Option<seq<string>>)
    ensures Append(Append(a, b), c) == Append(a, Append(b, c))
  {
    if a.Some? && b.Some? && c.Some? {
      assert (a.value + b.value) + c.value == a.value + (b.value + c.value);
    }
  }

  /** Following row tags through a join store and projecting what they lead to. */
  function Follow(s: Scheme, tables: StoredTables, name: string, tags: seq<string>,
      param: string): Option<seq<string>>
    requires LabelsDistinct(s)
  {
    var rows := WalkAll(s, tables, name, tags);
    if rows.None? then None else FieldsOf(s, tables, rows.value, param)
  }

  lemma FollowAppend(s: Scheme, tables: StoredTables, name: string, tags: seq<string>, tag: string, param: string)
    requires LabelsDistinct(s)
    ensures Follow(s, tables, name, tags + [tag], param)
         == Append(Follow(s, tables, name, tags, param), Follow(s, tables, name, [tag], param))
  {
    hide WalkIn, LabelsDistinct, FieldsOf, WalkAll;
    WalkAllAppend(s, tables, name, tags, tag);
    WalkAllOne(s, tables, name, tag);
    var a, b := WalkAll(s, tables, name, tags), WalkIn(s, tables, name, tag);
    if a.Some? && b.Some? {
      FieldsOfConcat(s, tables, a.value, b.value, param);
    }
  }

  lemma WalkAllOne(s: Scheme, tables: StoredTables, name: string, tag: string)
    requires LabelsDistinct(s)
    ensures WalkAll(s, tables, name, [tag]) == WalkIn(s, tables, name, tag)
  {
    hide WalkIn, LabelsDistinct;
    assert [tag][..0] == [];
    var x := WalkIn(s, tables, name, tag);
    assert x.Some? ==> [] + x.value == x.value;
  }

  lemma {:induction false} FollowConcat(s: Scheme, tables: StoredTables, name: string, a: seq<string>, b: seq<string>,
      param: string)
    requires LabelsDistinct(s)
    ensures Follow(s, tables, name, a + b, param)
         == Append(Follow(s, tables, name, a, param), Follow(s, tables, name, b, param))
  {
    hide LabelsDistinct, Follow;
    if b == [] {
      assert a + b == a;
      NothingFollowed(s, tables, name, a, param);
    } else {
      var front, tag := b[..|b| - 1], b[|b| - 1];
      assert b == front + [tag] && a + b == (a + front) + [tag];
      FollowConcat(s, tables, name, a, front, param);
      FollowAppend(s, tables, name, a + front, tag, param);
      FollowAppend(s, tables, name, front, tag, param);
      AppendAssociates(Follow(s, tables, name, a, param), Follow(s, tables, name, front, param),
                       Follow(s, tables, name, [tag], param));
    }
  }

  lemma NothingFollowed(s: Scheme, tables: StoredTables, name: string, a: seq<string>, param: string)
    requires LabelsDistinct(s)
    ensures Follow(s, tables, name, [], param) == Some([])
    ensures Follow(s, tables, name, a, param)
         == Append(Follow(s, tables, name, a, param), Follow(s, tables, name, [], param))
  {
    hide LabelsDistinct, WalkIn, Field;
    var x := Follow(s, tables, name, a, param);
    assert x.Some? ==> x.value + [] == x.value;
  }

  /** More cells behind the right ones spoil them, and so does a failure. */
  lemma FindsMoreIff(s: Scheme, found: Option<seq<string>>, more: Option<seq<string>>, t: Table, col: nat,
      rs: seq<nat>)
    requires WellFormed(t.table, t.columnsType) && col < |t.table[0]| && Finds(s, found, t, col, rs)
    ensures Finds(s, Append(found, more), t, col, rs) <==> more == Some([])
    ensures Append(found, more).None? || |Append(found, more).value| >= |rs|
    ensures Append(found, more).Some? && more != Some([]) ==> |Append(found, more).value| > |rs|
  {
    hide Encodes;
    if more == Some([]) {
      assert found.value + [] == found.value;
    }
  }

  // ----- select -----

  /** The old row tags that a select query still walks over. */
  function LeftRows(cat: Catalog, t: Table, c: nat, v: string): seq<string>
    requires WellFormed(t.table, t.columnsType)
  {
    Beyond(Get(Lookup(cat, VALUE_TABLE), ValueKey(t.name, c, v)), |RowsWith(t, c, v)|)
  }

  lemma SigmaOnTop(s: Scheme, cat: Catalog, next: Catalog, t: Table, c: nat, v: string)
    requires WellFormed(t.table, t.columnsType) && OnTop(s, cat, next, t)
    ensures SigmaOf(next, t.name, c, v) == Some(RowTags(s, t.name, RowsWith(t, c, v)) + LeftRows(cat, t, c, v))
  {
    hide ValueKey, RowsWith, RowTags, Beyond, RowsBegin, SizesOnTop, ColsOnTop;
    assert Get(Lookup(next, VALUE_TABLE), ValueKey(t.name, c, v)) == Get(next[VALUE_TABLE], ValueKey(t.name, c, v));
  }

  /** Over whatever stood in the stores before, a select query on an uploaded table finds the plaintext
      answer exactly when the row tags that are left behind those of its rows lead to no entry. */
  lemma SelectQueryOverIff(s: Scheme, cat: Catalog, next: Catalog, tables: StoredTables, t: Table, c: nat, v: string,
      p: nat, resultType: string)
    requires Assumptions(s) && Represents(s, next, tables) && WellFormed(t.table, t.columnsType)
    requires OnTop(s, cat, next, t) && p < Position(t.columnsType, |t.table[0]|)
    requires Tag(s, ValueKey(t.name, c, v)) in s.tags
    ensures LabelsDistinct(s)
    ensures var col := ColumnAt(t.columnsType, |t.table[0]|, p);
            var found := RunPlans(s, tables, SelectPlan(s, t.name, c, v, p, resultType), None);
            && (found.None? || |found.value| >= |RowsWith(t, c, v)|)
            && (Finds(s, found, t, col, RowsWith(t, c, v)) <==>
                FieldsOf(s, tables, LeftRows(cat, t, c, v), Dec(p)) == Some([]))
            && (found.Some? && !Finds(s, found, t, col, RowsWith(t, c, v)) ==> |found.value| > |RowsWith(t, c, v)|)
  {
    hide Assumptions, Represents, Tag, ValueKey, Dec, LabelsDistinct, Finds, RunPlans, Position, SigmaOf, FieldsOf,
      RowsWith, RowTags, LeftRows;
    var col := ColumnAt(t.columnsType, |t.table[0]|, p);
    var rs, left := RowsWith(t, c, v), LeftRows(cat, t, c, v);
    var sigma := SqlPlan("select", [Tag(s, ValueKey(t.name, c, v))]);
    SigmaStep(s, next, tables, t.name, c, v, sigma);
    SigmaOnTop(s, cat, next, t, c, v);
    RunTwo(s, tables, sigma, SqlPlan("projection", [Dec(p)]), SqlPlan("result", [resultType]), None);
    RowsWithBelow(t, c, v);
    FieldsInCatalog(s, next, tables, t, rs, col);
    FieldsOfConcat(s, tables, RowTags(s, t.name, rs), left, Dec(p));
    FindsMoreIff(s, FieldsOf(s, tables, RowTags(s, t.name, rs), Dec(p)), FieldsOf(s, tables, left, Dec(p)), t, col, rs);
  }

  lemma RowsWithBelow(t: Table, c: nat, v: string)
    requires WellFormed(t.table, t.columnsType)
    ensures Below(RowsWith(t, c, v), |t.table|)
  {
    if c < |t.table[0]| {
      MatchesBelow(t.table, c, v, |t.table|);
    }
  }

  // ----- join -----

  ghost predicate JoinOnTop(s: Scheme, a: MultiMap, b: MultiMap, t1: Table, j1: nat, t2: Table, j2: nat)
    requires HasColumn(t1.table, j1) && HasColumn(t2.table, j2)
  {
    forall r: nat {:trigger Indexed(t1.name, r)} ::
      Get(b, Indexed(t1.name, r))
      == RowTags(s, t2.name, Partners(t1, j1, t2, j2, r)) + LeftPartners(a, t1, j1, t2, j2, r)
  }

  /** The old tags behind those of the partners of a row. */
  function LeftPartners(a: MultiMap, t1: Table, j1: nat, t2: Table, j2: nat, r: nat): seq<string>
    requires HasColumn(t1.table, j1) && HasColumn(t2.table, j2)
  {
    Beyond(Get(a, Indexed(t1.name, r)), |Partners(t1, j1, t2, j2, r)|)
  }

  lemma JoinOver(s: Scheme, mm: MultiMap, t1: Table, j1: nat, t2: Table, j2: nat, j: MultiMap)
    requires HasColumn(t1.table, j1) && HasColumn(t2.table, j2) && JoinIn(s, j, t1, j1, t2, j2)
    ensures JoinOnTop(s, mm, Overlay(mm, j), t1, j1, t2, j2)
  {
    hide Indexed, Over, RowTags, Partners, Overlay, Beyond;
    forall r: nat
      ensures Get(Overlay(mm, j), Indexed(t1.name, r))
           == RowTags(s, t2.name, Partners(t1, j1, t2, j2, r)) + LeftPartners(mm, t1, j1, t2, j2, r)
    {
      OverlayGet(mm, j, Indexed(t1.name, r));
      OverIsBeyond(Get(j, Indexed(t1.name, r)), Get(mm, Indexed(t1.name, r)));
    }
  }

  /** No tag behind the partners of the selected rows leads to an entry. */
  ghost predicate PartnersClear(s: Scheme, tables: StoredTables, a: MultiMap, t1: Table, j1: nat, t2: Table, j2: nat,
      p: nat, rs: seq<nat>)
    requires HasColumn(t1.table, j1) && HasColumn(t2.table, j2)
  {
    forall i :: 0 <= i < |rs| ==>
      FieldsOf(s, tables, LeftPartners(a, t1, j1, t2, j2, rs[i]), Dec(p)) == Some([])
  }

  /** What following the tag of one row finds: its partners' cells, and what the tags behind them lead to. */
  lemma FollowRow(s: Scheme, next: Catalog, tables: StoredTables, name: string, a: MultiMap, t1: Table, j1: nat,
      t2: Table, j2: nat, p: nat, r: nat)
    requires Assumptions(s) && LabelsDistinct(s) && Represents(s, next, tables) && name in next
    requires WellFormed(t2.table, t2.columnsType) && HasColumn(t1.table, j1) && HasColumn(t2.table, j2)
    requires JoinOnTop(s, a, next[name], t1, j1, t2, j2) && RowsBegin(s, Lookup(next, ROW_TABLE), t2)
    requires p < Position(t2.columnsType, |t2.table[0]|) && r < |t1.table| && Tag(s, Indexed(t1.name, r)) in s.tags
    ensures var col := ColumnAt(t2.columnsType, |t2.table[0]|, p);
            var partners := Matches(t2.table, j2, t1.table[r][j1], |t2.table|);
            var left := FieldsOf(s, tables, LeftPartners(a, t1, j1, t2, j2, r), Dec(p));
            exists found :: Finds(s, found, t2, col, partners)
              && Follow(s, tables, name, [Tag(s, Indexed(t1.name, r))], Dec(p)) == Append(found, left)
  {
    hide Assumptions, LabelsDistinct, Represents, Tag, Indexed, Dec, WalkIn, WalkAll, FieldsOf, RowTags, Matches, Finds,
      LeftPartners, Position, RowsBegin;
    var col := ColumnAt(t2.columnsType, |t2.table[0]|, p);
    var partners := Matches(t2.table, j2, t1.table[r][j1], |t2.table|);
    var left := LeftPartners(a, t1, j1, t2, j2, r);
    WalkInCatalog(s, next, tables, name, Indexed(t1.name, r));
    WalkAllOne(s, tables, name, Tag(s, Indexed(t1.name, r)));
    assert Get(next[name], Indexed(t1.name, r)) == RowTags(s, t2.name, partners) + left;
    MatchesBelow(t2.table, j2, t1.table[r][j1], |t2.table|);
    FieldsInCatalog(s, next, tables, t2, partners, col);
    FieldsOfConcat(s, tables, RowTags(s, t2.name, partners), left, Dec(p));
  }

  /** Cells found one after the other, each part at least as long as it should be. */
  lemma FindsBothIff(s: Scheme, x: Option<seq<string>>, found: Option<seq<string>>, left: Option<seq<string>>, t: Table,
      col: nat, rs1: seq<nat>, rs2: seq<nat>)
    requires WellFormed(t.table, t.columnsType) && col < |t.table[0]|
    requires x.None? || |x.value| >= |rs1|
    requires x.Some? && !Finds(s, x, t, col, rs1) ==> |x.value| > |rs1|
    requires Finds(s, found, t, col, rs2)
    ensures var y := Append(x, Append(found, left));
            && (y.None? || |y.value| >= |rs1 + rs2|)
            && (y.Some? && !Finds(s, y, t, col, rs1 + rs2) ==> |y.value| > |rs1 + rs2|)
            && (Finds(s, y, t, col, rs1 + rs2) <==> Finds(s, x, t, col, rs1) && left == Some([]))
  {
    hide Encodes;
    var y := Append(x, Append(found, left));
    if Finds(s, x, t, col, rs1) && left == Some([]) {
      assert found.value + [] == found.value;
    }
  }

  lemma {:induction false} FollowRows(s: Scheme, next: Catalog, tables: StoredTables, name: string, a: MultiMap,
      t1: Table, j1: nat, t2: Table, j2: nat, p: nat, rs: seq<nat>)
    requires Assumptions(s) && LabelsDistinct(s) && Represents(s, next, tables) && name in next
    requires WellFormed(t2.table, t2.columnsType) && HasColumn(t1.table, j1) && HasColumn(t2.table, j2)
    requires JoinOnTop(s, a, next[name], t1, j1, t2, j2) && RowsBegin(s, Lookup(next, ROW_TABLE), t2)
    requires p < Position(t2.columnsType, |t2.table[0]|) && Below(rs, |t1.table|)
    requires forall i :: 0 <= i < |rs| ==> Tag(s, Indexed(t1.name, rs[i])) in s.tags
    ensures var col := ColumnAt(t2.columnsType, |t2.table[0]|, p);
            var answer := JoinedRows(t1.table, j1, t2.table, j2, rs);
            var x := Follow(s, tables, name, RowTags(s, t1.name, rs), Dec(p));
            && (x.None? || |x.value| >= |answer|)
            && (x.Some? && !Finds(s, x, t2, col, answer) ==> |x.value| > |answer|)
            && (Finds(s, x, t2, col, answer) <==> PartnersClear(s, tables, a, t1, j1, t2, j2, p, rs))
  {
    hide Assumptions, LabelsDistinct, Represents, Tag, Indexed, Dec, FieldsOf, RowTags, Matches, Finds, LeftPartners,
      Position, RowsBegin, Follow, JoinOnTop, JoinedRows, ColumnAt;
    var col := ColumnAt(t2.columnsType, |t2.table[0]|, p);
    if rs == [] {
      NothingFollowed(s, tables, name, [], Dec(p));
      NoTags(s, t1, j1, t2, j2);
      FindsNothing(s, t2, col);
      assert JoinedRows(t1.table, j1, t2.table, j2, []) == [] by {
        JoinedNone(t1, j1, t2, j2);
      }
    } else {
      var front, r := rs[..|rs| - 1], rs[|rs| - 1];
      assert rs == front + [r];
      FollowRows(s, next, tables, name, a, t1, j1, t2, j2, p, front);
      FollowRow(s, next, tables, name, a, t1, j1, t2, j2, p, r);
      RowTagsAppend(s, t1.name, front, r);
      FollowAppend(s, tables, name, RowTags(s, t1.name, front), Tag(s, Indexed(t1.name, r)), Dec(p));
      JoinedRowsAppend(t1.table, j1, t2.table, j2, front, r);
      var partners := Matches(t2.table, j2, t1.table[r][j1], |t2.table|);
      var left := FieldsOf(s, tables, LeftPartners(a, t1, j1, t2, j2, r), Dec(p));
      var found :| Finds(s, found, t2, col, partners)
                   && Follow(s, tables, name, [Tag(s, Indexed(t1.name, r))], Dec(p)) == Append(found, left);
      FindsBothIff(s, Follow(s, tables, name, RowTags(s, t1.name, front), Dec(p)), found, left, t2, col,
                   JoinedRows(t1.table, j1, t2.table, j2, front), partners);
      PartnersClearAppend(s, tables, a, t1, j1, t2, j2, p, front, r);
    }
  }

  lemma JoinedNone(t1: Table, j1: nat, t2: Table, j2: nat)
    requires HasColumn(t1.table, j1) && HasColumn(t2.table, j2)
    ensures JoinedRows(t1.table, j1, t2.table, j2, []) == []
  {
  }

  lemma FindsNothing(s: Scheme, t: Table, col: nat)
    requires WellFormed(t.table, t.columnsType) && col < |t.table[0]|
    ensures Finds(s, Some([]), t, col, [])
  {
  }

  lemma PartnersClearAppend(s: Scheme, tables: StoredTables, a: MultiMap, t1: Table, j1: nat, t2: Table, j2: nat,
      p: nat, rs: seq<nat>, r: nat)
    requires HasColumn(t1.table, j1) && HasColumn(t2.table, j2)
    ensures PartnersClear(s, tables, a, t1, j1, t2, j2, p, rs + [r]) <==>
            && PartnersClear(s, tables, a, t1, j1, t2, j2, p, rs)
            && FieldsOf(s, tables, LeftPartners(a, t1, j1, t2, j2, r), Dec(p)) == Some([])
  {
    hide FieldsOf, LeftPartners, Dec;
    var all := rs + [r];
    assert all[|rs|] == r && forall i :: 0 <= i < |rs| ==> all[i] == rs[i];
  }

  /** Nothing that is left of older tables leads a join query to an entry: neither a tag behind the partners
      of a selected row, nor a row tag behind those of the selected rows. */
  ghost predicate JoinClear(s: Scheme, tables: StoredTables, cat: Catalog, a: MultiMap, t1: Table, c: nat, v: string,
      j1: nat, t2: Table, j2: nat, p: nat)
    requires LabelsDistinct(s) && WellFormed(t1.table, t1.columnsType)
    requires HasColumn(t1.table, j1) && HasColumn(t2.table, j2)
  {
    && PartnersClear(s, tables, a, t1, j1, t2, j2, p, RowsWith(t1, c, v))
    && Follow(s, tables, JoinName(t1.name, j1, t2.name, j2), LeftRows(cat, t1, c, v), Dec(p)) == Some([])
  }

  lemma JoinPlanFollows(s: Scheme, next: Catalog, tables: StoredTables, name1: string, c: nat, v: string, j1: nat,
      name2: string, j2: nat, p: nat)
    requires Assumptions(s) && Represents(s, next, tables) && VALUE_TABLE in next
    requires Tag(s, ValueKey(name1, c, v)) in s.tags
    ensures LabelsDistinct(s)
    ensures RunPlans(s, tables, JoinPlan(s, name1, c, v, j1, name2, j2, p), None)
         == Follow(s, tables, JoinName(name1, j1, name2, j2), SigmaOf(next, name1, c, v).value, Dec(p))
  {
    hide Assumptions, Represents, Tag, ValueKey, Print, LabelsDistinct, RunPlans, WalkAll, FieldsOf, JoinName;
    var sigma := SqlPlan("sigma", [Tag(s, ValueKey(name1, c, v))]);
    var join := SqlPlan("join", [name2 + "_" + Dec(j2), name1 + "_" + Dec(j1)]);
    SigmaStep(s, next, tables, name1, c, v, sigma);
    JoinTableName(name1, j1, name2, j2);
    RunThree(s, tables, sigma, join, SqlPlan("projection", [Dec(p)]), SqlPlan("result", ["string"]));
  }

  /** Over whatever stood in the stores before, a join query on two uploaded tables finds the plaintext
      answer exactly when nothing that is left leads it to an entry. */
  lemma JoinQueryOverIff(s: Scheme, cat: Catalog, next: Catalog, tables: StoredTables, a: MultiMap, t1: Table,
      c: nat, v: string, j1: nat, t2: Table, j2: nat, p: nat)
    requires Assumptions(s) && Represents(s, next, tables)
    requires WellFormed(t1.table, t1.columnsType) && WellFormed(t2.table, t2.columnsType)
    requires OnTop(s, cat, next, t1) && RowsBegin(s, Lookup(next, ROW_TABLE), t2) && c < |t1.table[0]|
    requires HasColumn(t1.table, j1) && HasColumn(t2.table, j2) && JoinName(t1.name, j1, t2.name, j2) in next
    requires JoinOnTop(s, a, Lookup(next, JoinName(t1.name, j1, t2.name, j2)), t1, j1, t2, j2)
    requires p < Position(t2.columnsType, |t2.table[0]|) && Tag(s, ValueKey(t1.name, c, v)) in s.tags
    ensures LabelsDistinct(s)
    ensures var col := ColumnAt(t2.columnsType, |t2.table[0]|, p);
            var found := RunPlans(s, tables, JoinPlan(s, t1.name, c, v, j1, t2.name, j2, p), None);
            var answer := PlainJoin(t1.table, c, v, j1, t2.table, j2);
            && (found.Some? && !Finds(s, found, t2, col, answer) ==> |found.value| > |answer|)
            && (Finds(s, found, t2, col, answer) <==> JoinClear(s, tables, cat, a, t1, c, v, j1, t2, j2, p))
  {
    hide Assumptions, Represents, Tag, ValueKey, Indexed, Dec, LabelsDistinct, Finds, RunPlans, JoinPlan, Position,
      SigmaOf, RowTags, LeftRows, Follow, PartnersClear, JoinOnTop, JoinName, PlainJoin, JoinedRows, Matches, ColumnAt,
      RowsBegin, ValuesOnTop, ColsOnTop, SizesOnTop;
    var col := ColumnAt(t2.columnsType, |t2.table[0]|, p);
    var rs, left := RowsWith(t1, c, v), LeftRows(cat, t1, c, v);
    var name := JoinName(t1.name, j1, t2.name, j2);
    JoinPlanFollows(s, next, tables, t1.name, c, v, j1, t2.name, j2, p);
    SigmaOnTop(s, cat, next, t1, c, v);
    PlainJoinFollows(t1.table, c, v, j1, t2.table, j2);
    forall i | 0 <= i < |rs| ensures Tag(s, Indexed(t1.name, rs[i])) in s.tags {
      ServedRow(s, next, tables, t1, rs[i]);
    }
    FollowRows(s, next, tables, name, a, t1, j1, t2, j2, p, rs);
    FollowConcat(s, tables, name, RowTags(s, t1.name, rs), left, Dec(p));
    var x := Follow(s, tables, name, RowTags(s, t1.name, rs), Dec(p));
    FindsRestIff(s, x, Follow(s, tables, name, left, Dec(p)), t2, col, PlainJoin(t1.table, c, v, j1, t2.table, j2));
  }

  lemma FindsRestIff(s: Scheme, x: Option<seq<string>>, more: Option<seq<string>>, t: Table, col: nat, rs: seq<nat>)
    requires WellFormed(t.table, t.columnsType) && col < |t.table[0]|
    requires x.None? || |x.value| >= |rs|
    requires x.Some? && !Finds(s, x, t, col, rs) ==> |x.value| > |rs|
    ensures Append(x, more).Some? && !Finds(s, Append(x, more), t, col, rs) ==> |Append(x, more).value| > |rs|
    ensures Finds(s, Append(x, more), t, col, rs) <==> Finds(s, x, t, col, rs) && more == Some([])
  {
    hide Encodes;
    if more == Some([]) && x.Some? {
      assert x.value + [] == x.value;
    }
  }
  // ----- sum -----

  /** The old ciphertexts that a sum query still adds. */
  function LeftCells(cat: Catalog, t: Table, c: nat): seq<string> {
    Beyond(Get(Lookup(cat, COLUMN_TABLE), Indexed(t.name, c)), |t.table|)
  }

  function NumberIn(s: Scheme, cipher: string): nat {
    s.bfvDecrypt(cipher)
  }

  function Decrypted(s: Scheme, ciphers: seq<string>): (ns: seq<nat>)
    ensures |ns| == |ciphers|
  {
    seq(|ciphers|, i requires 0 <= i < |ciphers| => NumberIn(s, ciphers[i]))
  }

  lemma {:induction false} SumConcat(a: seq<nat>, b: seq<nat>)
    ensures Sum(a + b) == Sum(a) + Sum(b)
  {
    if b == [] {
      assert a + b == a;
    } else {
      var front := b[..|b| - 1];
      SumConcat(a, front);
      assert (a + b)[..|a + b| - 1] == a + front;
    }
  }

  lemma ColumnOnTop(s: Scheme, cat: Catalog, next: Catalog, t: Table, c: nat)
    requires Homomorphic(s) && WellFormed(t.table, t.columnsType) && OnTop(s, cat, next, t)
    requires c < |t.table[0]| && t.columnsType[c] == "int"
    requires forall i :: 0 <= i < |LeftCells(cat, t, c)| ==> s.isCipher(LeftCells(cat, t, c)[i])
    ensures IntColumn(s, t.table, c)
    ensures var list := Get(Lookup(next, COLUMN_TABLE), Indexed(t.name, c));
            var values := Numbers(s, t.table, c) + Decrypted(s, LeftCells(cat, t, c));
            && |list| == |values|
            && forall i :: 0 <= i < |values| ==> values[i] < s.modulus && DecryptsCell(s, values[i], list[i])
  {
    hide Indexed, ValuesOnTop, RowsBegin, SizesOnTop, EncryptionInverts, AdditionHomomorphic, Numerals.Stoi, Lookup;
    var list := Get(Lookup(next, COLUMN_TABLE), Indexed(t.name, c));
    var front, left := list[..|t.table|], LeftCells(cat, t, c);
    assert ColEncodes(s, "int", t.table, c, front, |t.table|) && list[|t.table|..] == left;
    assert forall r: nat :: r < |t.table| ==> Encodes(s, "int", t.table[r][c], front[r]);
    var values := Numbers(s, t.table, c) + Decrypted(s, left);
    forall i | 0 <= i < |values| ensures values[i] < s.modulus && DecryptsCell(s, values[i], list[i]) {
      if i < |t.table| {
        assert list[i] == front[i];
      } else {
        assert list[i] == left[i - |t.table|];
      }
    }
  }

  /** The ciphertext that a sum query finds. */
  lemma SumQueryOver(s: Scheme, cat: Catalog, next: Catalog, tables: StoredTables, t: Table, c: nat)
    returns (cipher: string)
    requires Assumptions(s) && Represents(s, next, tables)
    requires WellFormed(t.table, t.columnsType) && OnTop(s, cat, next, t)
    requires c < |t.table[0]| && t.columnsType[c] == "int" && Tag(s, Indexed(t.name, c)) in s.tags
    requires forall i :: 0 <= i < |LeftCells(cat, t, c)| ==> s.isCipher(LeftCells(cat, t, c)[i])
    ensures LabelsDistinct(s) && IntColumn(s, t.table, c) && 0 < s.modulus
    ensures RunPlans(s, tables, SumPlan(s, t.name, c, "int"), None) == Some([cipher])
    ensures DecryptsCell(s, (Sum(Numbers(s, t.table, c)) + Sum(Decrypted(s, LeftCells(cat, t, c)))) % s.modulus, cipher)
  {
    hide Assumptions, Represents, Tag, Indexed, LabelsDistinct, WalkIn, OnTop, Homomorphic, Sum, AddUp, Print,
      DecryptsCell, IntColumn, RunPlans, LeftCells, Decrypted;
    LabelsAreDistinctNow(s);
    ModulusPositive(s);
    OnTopStores(s, cat, next, t);
    var key := Indexed(t.name, c);
    WalkInCatalog(s, next, tables, COLUMN_TABLE, key);
    ColumnOnTop(s, cat, next, t, c);
    var list := Get(next[COLUMN_TABLE], key);
    AddUpBoth(s, list, Numbers(s, t.table, c), Decrypted(s, LeftCells(cat, t, c)));
    SumStep(s, tables, Tag(s, key), list);
    cipher := AddUp(s, list);
  }

  lemma ModulusPositive(s: Scheme)
    requires Homomorphic(s)
    ensures 0 < s.modulus
  {
  }

  lemma AddUpBoth(s: Scheme, ciphers: seq<string>, a: seq<nat>, b: seq<nat>)
    requires Homomorphic(s) && 0 < s.modulus && |ciphers| == |a + b| > 0
    requires forall i :: 0 <= i < |a + b| ==> (a + b)[i] < s.modulus && DecryptsCell(s, (a + b)[i], ciphers[i])
    ensures DecryptsCell(s, (Sum(a) + Sum(b)) % s.modulus, AddUp(s, ciphers))
  {
    hide Homomorphic, DecryptsCell, AddUp, Sum;
    AddUpDecrypts(s, ciphers, a + b);
    SumConcat(a, b);
  }

  /** Over whatever ciphertexts stood in the column before, the number shown for a sum is the sum of the
      column exactly when the ciphertexts left behind it do not change that modulo the plain modulus. */
  lemma SumQueryOverIff(s: Scheme, cat: Catalog, next: Catalog, tables: StoredTables, t: Table, c: nat,
      out: Option<Result<seq<seq<string>>>>)
    requires Assumptions(s) && LabelsDistinct(s) && Represents(s, next, tables)
    requires WellFormed(t.table, t.columnsType) && OnTop(s, cat, next, t)
    requires c < |t.table[0]| && t.columnsType[c] == "int" && Tag(s, Indexed(t.name, c)) in s.tags
    requires forall i :: 0 <= i < |LeftCells(cat, t, c)| ==> s.isCipher(LeftCells(cat, t, c)[i])
    requires RepliesTo(s, tables, SumPlan(s, t.name, c, "int"), out)
    ensures IntColumn(s, t.table, c) && 0 < s.modulus
    ensures var total := Sum(Numbers(s, t.table, c));
            out == Some(Ok([[Dec(total)]])) <==> (total + Sum(Decrypted(s, LeftCells(cat, t, c)))) % s.modulus == total
  {
    hide Assumptions, Represents, Tag, Indexed, LabelsDistinct, OnTop, Homomorphic, Sum, Print, DecryptsCell,
      IntColumn, RunPlans, Answers, LeftCells, Decrypted, SumPlan;
    LabelsAreDistinctNow(s);
    var cipher := SumQueryOver(s, cat, next, tables, t, c);
    var total := Sum(Numbers(s, t.table, c));
    var shown := (total + Sum(Decrypted(s, LeftCells(cat, t, c)))) % s.modulus;
    NumberShownIff(s, shown, cipher, out.value, total);
  }

  lemma NumberShownIff(s: Scheme, n: nat, cipher: string, out: Result<seq<seq<string>>>, m: nat)
    requires Homomorphic(s) && DecryptsCell(s, n, cipher) && Answers(s, "int", [cipher], out)
    ensures out == Ok([[Dec(m)]]) <==> n == m
  {
    hide Answers, Print, EncryptionInverts, AdditionHomomorphic;
    NumberShown(s, n, cipher, out);
    if Dec(n) == Dec(m) {
      PrintInjective(n, m, 10, false);
    }
  }

  // ----- what is left, in plaintext -----

  lemma BeyondRowTags(s: Scheme, name: string, rs: seq<nat>, n: nat)
    ensures Beyond(RowTags(s, name, rs), n) == RowTags(s, name, Beyond(rs, n))
  {
    hide Tag, Indexed;
  }

  /** A stored entry's number is a counter in scope. */
  lemma EntryInLimit(s: Scheme, cat: Catalog, tables: StoredTables, t: Table, p: nat)
    requires Represents(s, cat, tables) && WellFormed(t.table, t.columnsType)
    requires RowsBegin(s, Lookup(cat, ROW_TABLE), t) && p < Position(t.columnsType, |t.table[0]|)
    ensures p <= s.limit
  {
    hide IsFlat, Indexed, Tag, RowEncodes, Total;
    assert Indexed(t.name, 0) in Lookup(cat, ROW_TABLE);
    ListAtMostTotal(Lookup(cat, ROW_TABLE), Indexed(t.name, 0));
  }

  /** Following the tags of rows leads to no entry exactly when all their partners' lists are too short. */
  lemma {:induction false} FollowMissingIff(s: Scheme, cat: Catalog, tables: StoredTables, name: string, name1: string,
      name2: string, partners: nat -> seq<nat>, rs: seq<nat>, p: nat)
    requires Assumptions(s) && LabelsDistinct(s) && Represents(s, cat, tables) && name in cat && ROW_TABLE in cat
    requires p <= s.limit
    requires forall i :: 0 <= i < |rs| ==>
               && Tag(s, Indexed(name1, rs[i])) in s.tags
               && Get(cat[name], Indexed(name1, rs[i])) == RowTags(s, name2, partners(rs[i]))
               && forall k :: 0 <= k < |partners(rs[i])| ==> Tag(s, Indexed(name2, partners(rs[i])[k])) in s.tags
    ensures Follow(s, tables, name, RowTags(s, name1, rs), Dec(p)).Some?
    ensures Follow(s, tables, name, RowTags(s, name1, rs), Dec(p)) == Some([]) <==>
            forall i :: 0 <= i < |rs| ==> TooShort(cat, name2, partners(rs[i]), p)
  {
    hide Assumptions, LabelsDistinct, Represents, Indexed, Tag, Dec, RowTags, Follow, FieldsOf, WalkIn, WalkAll,
      TooShort;
    if rs == [] {
      NothingFollowed(s, tables, name, [], Dec(p));
      assert |RowTags(s, name1, rs)| == 0;
    } else {
      var front, r := rs[..|rs| - 1], rs[|rs| - 1];
      assert rs == front + [r];
      FollowMissingIff(s, cat, tables, name, name1, name2, partners, front, p);
      RowTagsAppend(s, name1, front, r);
      FollowAppend(s, tables, name, RowTags(s, name1, front), Tag(s, Indexed(name1, r)), Dec(p));
      FollowOne(s, cat, tables, name, name1, name2, partners(r), r, p);
      var x := Follow(s, tables, name, RowTags(s, name1, front), Dec(p)).value;
      var y := Follow(s, tables, name, [Tag(s, Indexed(name1, r))], Dec(p)).value;
      assert x + y == [] <==> x == [] && y == [];
      assert forall i :: 0 <= i < |front| ==> front[i] == rs[i];
    }
  }

  lemma FollowOne(s: Scheme, cat: Catalog, tables: StoredTables, name: string, name1: string, name2: string,
      partners: seq<nat>, r: nat, p: nat)
    requires Assumptions(s) && LabelsDistinct(s) && Represents(s, cat, tables) && name in cat && ROW_TABLE in cat
    requires p <= s.limit && Tag(s, Indexed(name1, r)) in s.tags
    requires Get(cat[name], Indexed(name1, r)) == RowTags(s, name2, partners)
    requires forall k :: 0 <= k < |partners| ==> Tag(s, Indexed(name2, partners[k])) in s.tags
    ensures Follow(s, tables, name, [Tag(s, Indexed(name1, r))], Dec(p)).Some?
    ensures Follow(s, tables, name, [Tag(s, Indexed(name1, r))], Dec(p)) == Some([]) <==>
            TooShort(cat, name2, partners, p)
  {
    hide Assumptions, LabelsDistinct, Represents, Indexed, Tag, Dec, RowTags, FieldsOf, WalkIn, WalkAll;
    WalkAllOne(s, tables, name, Tag(s, Indexed(name1, r)));
    WalkInCatalog(s, cat, tables, name, Indexed(name1, r));
    FieldsMissingIff(s, cat, tables, name2, partners, p);
  }

  /** No list of these rows has an entry `p`. */
  predicate TooShort(cat: Catalog, name: string, rs: seq<nat>, p: nat) {
    forall i :: 0 <= i < |rs| ==> RowSize(cat, name, rs[i]) <= p
  }

  // ----- a table over an older one of its name -----

  /** The rows of an older table that are left behind the selected rows of the new one. */
  function OldRows(u: Table, t: Table, c: nat, v: string): seq<nat>
    requires WellFormed(u.table, u.columnsType) && WellFormed(t.table, t.columnsType)
  {
    Beyond(RowsWith(u, c, v), |RowsWith(t, c, v)|)
  }

  lemma LeftRowsOfTable(s: Scheme, cat: Catalog, u: Table, t: Table, c: nat, v: string)
    requires WellFormed(u.table, u.columnsType) && WellFormed(t.table, t.columnsType) && u.name == t.name
    requires ValuesIn(s, Lookup(cat, VALUE_TABLE), u)
    ensures LeftRows(cat, t, c, v) == RowTags(s, t.name, OldRows(u, t, c, v))
    ensures Below(OldRows(u, t, c, v), |u.table|)
  {
    hide ValueKey, RowTags, Matches;
    RowsWithBelow(u, c, v);
    assert |RowTags(s, t.name, [])| == 0;
    assert Get(Lookup(cat, VALUE_TABLE), ValueKey(t.name, c, v)) == RowTags(s, t.name, RowsWith(u, c, v));
    BeyondRowTags(s, t.name, RowsWith(u, c, v), |RowsWith(t, c, v)|);
  }

  /** The rows of an older table stay stored under a newer one, with at least as many entries. */
  lemma OldRowStays(s: Scheme, cat: Catalog, u: Table, next: Catalog, tables: StoredTables, t: Table, r: nat)
    requires WellFormed(u.table, u.columnsType) && WellFormed(t.table, t.columnsType) && u.name == t.name
    requires RowsIn(s, Lookup(cat, ROW_TABLE), u) && OnTop(s, cat, next, t) && Represents(s, next, tables)
    requires r < |u.table|
    ensures Tag(s, Indexed(t.name, r)) in s.tags
    ensures Position(u.columnsType, |u.table[0]|) <= RowSize(next, t.name, r)
  {
    hide Represents, Indexed, Tag, Encodes, ValuesOnTop, ColsOnTop, RowsBegin, Position;
    ServedSize(s, Lookup(cat, ROW_TABLE), u, r);
    assert Indexed(u.name, r) in Lookup(cat, ROW_TABLE);
    assert Indexed(t.name, r) in Lookup(next, ROW_TABLE);
    StoredRow(s, next, tables, Indexed(t.name, r));
  }

  /** A select query on a table that was uploaded over an older one finds the plaintext answer exactly when
      the text did not become rarer in its column, whatever else was changed. */
  lemma ReuploadSelectIff(s: Scheme, cat: Catalog, u: Table, t: Table, next: Catalog, tables: StoredTables, c: nat,
      v: string, p: nat, resultType: string)
    requires Assumptions(s) && Represents(s, next, tables)
    requires WellFormed(u.table, u.columnsType) && WellFormed(t.table, t.columnsType) && u.name == t.name
    requires Serves(s, cat, u) && Uploaded(s, cat, t, next) && Tag(s, ValueKey(t.name, c, v)) in s.tags
    requires p < Position(u.columnsType, |u.table[0]|) && p < Position(t.columnsType, |t.table[0]|)
    ensures LabelsDistinct(s)
    ensures Finds(s, RunPlans(s, tables, SelectPlan(s, t.name, c, v, p, resultType), None), t,
                  ColumnAt(t.columnsType, |t.table[0]|, p), RowsWith(t, c, v))
            <==> ValueCount(u, c, v) <= ValueCount(t, c, v)
  {
    hide Assumptions, Represents, Tag, ValueKey, Indexed, Dec, LabelsDistinct, Finds, RunPlans, SelectPlan, Position,
      FieldsOf, RowTags, LeftRows, Uploaded, RowsIn, ColsIn, ValuesIn, OnTop, Matches, ColumnAt, RowSize;
    UploadOnTop(s, cat, t, next);
    SelectQueryOverIff(s, cat, next, tables, t, c, v, p, resultType);
    LeftRowsOfTable(s, cat, u, t, c, v);
    OnTopStores(s, cat, next, t);
    EntryInLimit(s, next, tables, t, p);
    var rest := OldRows(u, t, c, v);
    forall i | 0 <= i < |rest|
      ensures Tag(s, Indexed(t.name, rest[i])) in s.tags && RowSize(next, t.name, rest[i]) > p
    {
      OldRowStays(s, cat, u, next, tables, t, rest[i]);
    }
    FieldsMissingIff(s, next, tables, t.name, rest, p);
    assert rest != [] ==> RowSize(next, t.name, rest[0]) > p;
  }

  lemma OnTopStores(s: Scheme, cat: Catalog, next: Catalog, t: Table)
    requires WellFormed(t.table, t.columnsType) && OnTop(s, cat, next, t)
    ensures ROW_TABLE in next && VALUE_TABLE in next && COLUMN_TABLE in next
    ensures RowsBegin(s, Lookup(next, ROW_TABLE), t)
  {
  }

  /** The numbers of a column, none when it is not a stored column of numbers. */
  function NumbersIn(s: Scheme, t: Table, c: nat): seq<nat>
    requires WellFormed(t.table, t.columnsType)
  {
    if c < |t.table[0]| && t.columnsType[c] == "int" && IntColumn(s, t.table, c) then Numbers(s, t.table, c) else []
  }

  lemma LeftCellsOfTable(s: Scheme, cat: Catalog, u: Table, t: Table, c: nat)
    requires WellFormed(u.table, u.columnsType) && WellFormed(t.table, t.columnsType) && u.name == t.name
    requires ColsIn(s, Lookup(cat, COLUMN_TABLE), u) && (c < |u.table[0]| ==> u.columnsType[c] != "string")
    ensures Decrypted(s, LeftCells(cat, t, c)) == Beyond(NumbersIn(s, u, c), |t.table|)
    ensures forall i :: 0 <= i < |LeftCells(cat, t, c)| ==> s.isCipher(LeftCells(cat, t, c)[i])
  {
    hide Indexed, Numerals.Stoi;
    var list := Get(Lookup(cat, COLUMN_TABLE), Indexed(u.name, c));
    if c < |u.table[0]| {
      assert Indexed(u.name, c) in Lookup(cat, COLUMN_TABLE);
      if u.columnsType[c] == "int" {
        ColumnNumbers(s, cat, u, c);
      }
    }
  }

  /** The number shown for the sum of a column that was uploaded over an older one is the true sum exactly
      when the numbers of the older rows beyond the new table do not change it modulo the plain modulus. */
  lemma ReuploadSumIff(s: Scheme, cat: Catalog, u: Table, t: Table, next: Catalog, tables: StoredTables, c: nat,
      out: Option<Result<seq<seq<string>>>>)
    requires Assumptions(s) && LabelsDistinct(s) && Represents(s, next, tables)
    requires WellFormed(u.table, u.columnsType) && WellFormed(t.table, t.columnsType) && u.name == t.name
    requires Serves(s, cat, u) && Uploaded(s, cat, t, next) && (c < |u.table[0]| ==> u.columnsType[c] != "string")
    requires c < |t.table[0]| && t.columnsType[c] == "int" && Tag(s, Indexed(t.name, c)) in s.tags
    requires RepliesTo(s, tables, SumPlan(s, t.name, c, "int"), out)
    ensures IntColumn(s, t.table, c) && 0 < s.modulus
    ensures var total := Sum(Numbers(s, t.table, c));
            out == Some(Ok([[Dec(total)]])) <==>
            (total + Sum(Beyond(NumbersIn(s, u, c), |t.table|))) % s.modulus == total
  {
    hide Assumptions, Represents, Tag, Indexed, LabelsDistinct, RowsIn, ColsIn, ValuesIn, Uploaded, OnTop, RunPlans,
      Answers, Sum, Print, LeftCells, SumPlan, IntColumn, Decrypted, Beyond;
    UploadOnTop(s, cat, t, next);
    LeftCellsOfTable(s, cat, u, t, c);
    SumQueryOverIff(s, cat, next, tables, t, c, out);
  }
}
