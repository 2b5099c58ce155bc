/** Uploading a table again after rows at its end, or single cells, were taken out of it. */
module Deletions {
  import opened Keys
  import opened Scheme
  import opened Cells
  import opened Tables
  import opened MultiMaps
  import opened DataMapper
  import opened Catalogs
  import opened Service
  import opened Serving
  import opened Reuploads

  /** `t` is `u` without some rows at its end. */
  predicate CutDown(u: Table, t: Table) {
    t.name == u.name && t.columnsType == u.columnsType && t.table <= u.table
  }

  lemma {:induction false} MatchesCutDown(rows: Rows, all: Rows, c: nat, v: string, n: nat)
    requires rows <= all && HasColumn(rows, c) && HasColumn(all, c) && n <= |rows|
    ensures Matches(rows, c, v, n) == Matches(all, c, v, n)
  {
    if n > 0 {
      MatchesCutDown(rows, all, c, v, n - 1);
    }
  }

  lemma {:induction false} MatchesGrow(rows: Rows, c: nat, v: string, n: nat, m: nat)
    requires HasColumn(rows, c) && n <= m <= |rows|
    ensures Matches(rows, c, v, n) <= Matches(rows, c, v, m)
    decreases m
  {
    if n < m {
      MatchesGrow(rows, c, v, n, m - 1);
    }
  }

  lemma MatchesOfCutDown(rows: Rows, all: Rows, c: nat, v: string)
    requires rows <= all && HasColumn(rows, c) && HasColumn(all, c)
    ensures Matches(rows, c, v, |rows|) <= Matches(all, c, v, |all|)
  {
    MatchesCutDown(rows, all, c, v, |rows|);
    MatchesGrow(all, c, v, |rows|, |all|);
  }

  lemma OverPrefix(next: seq<string>, prior: seq<string>)
    requires next <= prior
    ensures Over(next, prior) == prior
  {
  }

  lemma RowTagsPrefix(s: Scheme, name: string, a: seq<nat>, b: seq<nat>)
    requires a <= b
    ensures RowTags(s, name, a) <= RowTags(s, name, b)
  {
    hide Tag, Indexed;
  }

  lemma RowsStay(s: Scheme, mm: MultiMap, u: Table, t: Table, r: MultiMap)
    requires WellFormed(u.table, u.columnsType) && WellFormed(t.table, t.columnsType) && CutDown(u, t)
    requires RowsIn(s, mm, u) && RowsIn(s, r, t)
    ensures RowsIn(s, Overlay(mm, r), u)
  {
    hide Indexed, RowEncodes, Over;
    forall i: nat
      ensures i < |t.table| ==> Get(Overlay(mm, r), Indexed(u.name, i)) == Get(r, Indexed(u.name, i))
      ensures i >= |t.table| ==> Get(Overlay(mm, r), Indexed(u.name, i)) == Get(mm, Indexed(u.name, i))
    {
      RowListLength(s, mm, u, i);
      RowListLength(s, r, t, i);
      OverLength(Get(r, Indexed(u.name, i)), Get(mm, Indexed(u.name, i)));
      OverlayGet(mm, r, Indexed(u.name, i));
      if i >= |t.table| {
        assert Get(r, Indexed(t.name, i)) == [];
        OverPrefix([], Get(mm, Indexed(u.name, i)));
      }
    }
    forall i: nat ensures i < |t.table| ==> Indexed(t.name, i) in r {
    }
  }

  lemma ColStays(s: Scheme, columnType: string, rows: Rows, all: Rows, c: nat, list: seq<string>, prior: seq<string>)
    requires rows <= all && HasColumn(rows, c) && HasColumn(all, c)
    requires ColEncodes(s, columnType, rows, c, list, |rows|) && ColEncodes(s, columnType, all, c, prior, |all|)
    ensures ColEncodes(s, columnType, all, c, Over(list, prior), |all|)
  {
    hide Encodes;
    var both := Over(list, prior);
    if Supported(columnType) {
      forall r: nat | r < |all| ensures Encodes(s, columnType, all[r][c], both[r]) {
        assert both[r] == if r < |rows| then list[r] else prior[r];
      }
    }
  }

  lemma ColsStay(s: Scheme, mm: MultiMap, u: Table, t: Table, c: MultiMap)
    requires WellFormed(u.table, u.columnsType) && WellFormed(t.table, t.columnsType) && CutDown(u, t)
    requires ColsIn(s, mm, u) && ColsIn(s, c, t)
    ensures ColsIn(s, Overlay(mm, c), u)
  {
    hide Indexed, ColEncodes;
    assert t.table[0] == u.table[0];
    forall i: nat
      ensures i < |u.table[0]| ==>
                Indexed(u.name, i) in Overlay(mm, c)
                && ColEncodes(s, u.columnsType[i], u.table, i, Overlay(mm, c)[Indexed(u.name, i)], |u.table|)
      ensures i >= |u.table[0]| ==> Get(Overlay(mm, c), Indexed(u.name, i)) == []
    {
      OverlayGet(mm, c, Indexed(u.name, i));
      if i < |u.table[0]| {
        assert Indexed(t.name, i) in c && Indexed(u.name, i) in mm;
        ColStays(s, u.columnsType[i], t.table, u.table, i, c[Indexed(u.name, i)], mm[Indexed(u.name, i)]);
      } else {
        assert Get(c, Indexed(t.name, i)) == [] && Get(mm, Indexed(u.name, i)) == [];
      }
    }
  }

  lemma ValuesStay(s: Scheme, mm: MultiMap, u: Table, t: Table, v: MultiMap)
    requires WellFormed(u.table, u.columnsType) && WellFormed(t.table, t.columnsType) && CutDown(u, t)
    requires ValuesIn(s, mm, u) && ValuesIn(s, v, t)
    ensures ValuesIn(s, Overlay(mm, v), u)
  {
    hide ValueKey, RowTags, Matches, Over;
    assert t.table[0] == u.table[0];
    forall c: nat, w ensures Get(Overlay(mm, v), ValueKey(u.name, c, w)) == Get(mm, ValueKey(u.name, c, w)) {
      OverlayGet(mm, v, ValueKey(u.name, c, w));
      if c < |u.table[0]| {
        MatchesOfCutDown(t.table, u.table, c, w);
        RowTagsPrefix(s, u.name, Matches(t.table, c, w, |t.table|), Matches(u.table, c, w, |u.table|));
        assert Get(v, ValueKey(t.name, c, w)) == RowTags(s, t.name, Matches(t.table, c, w, |t.table|));
      } else {
        assert Get(v, ValueKey(t.name, c, w)) == [];
      }
      OverPrefix(Get(v, ValueKey(u.name, c, w)), Get(mm, ValueKey(u.name, c, w)));
    }
  }

  /** Deleting rows at the end of a table and uploading it again deletes nothing: the stores go on serving
      the table with these rows, and not the one that was uploaded. */
  lemma DeletedRowsStay(s: Scheme, cat: Catalog, u: Table, t: Table, next: Catalog)
    requires WellFormed(u.table, u.columnsType) && WellFormed(t.table, t.columnsType) && CutDown(u, t)
    requires Serves(s, cat, u) && Uploaded(s, cat, t, next)
    ensures Serves(s, next, u)
    ensures t.table != u.table && |u.table[0]| > 0 ==> !Serves(s, next, t)
  {
    hide RowsIn, ColsIn, ValuesIn, Uploaded, AreIndexes, Overlay, NothingShrank;
    var r, v, c := UploadParts(s, cat, t, next);
    IndexesServe(s, t, r, v, c);
    RowsStay(s, Lookup(cat, ROW_TABLE), u, t, r);
    ColsStay(s, Lookup(cat, COLUMN_TABLE), u, t, c);
    ValuesStay(s, Lookup(cat, VALUE_TABLE), u, t, v);
    ReuploadServesIff(s, cat, u, t, next);
    if t.table != u.table && |u.table[0]| > 0 {
      TextGetsRarer(u, t);
    }
  }

  lemma TextGetsRarer(u: Table, t: Table)
    requires WellFormed(u.table, u.columnsType) && WellFormed(t.table, t.columnsType) && CutDown(u, t)
    requires t.table != u.table && |u.table[0]| > 0
    ensures !NothingShrank(u, t)
  {
    hide RowLength, ColLength;
    var n := |t.table|;
    var w := u.table[n][0];
    MatchesOfCutDown(t.table, u.table, 0, w);
    MatchesExact(t.table, 0, w, n);
    MatchesExact(u.table, 0, w, |u.table|);
    var less, more := Matches(t.table, 0, w, n), Matches(u.table, 0, w, |u.table|);
    assert n in more && n !in less;
    assert less != more;
    assert t.table[0] == u.table[0];
    assert ValueCount(u, 0, w) > ValueCount(t, 0, w);
  }

  /** The same holds of a join that is refreshed after rows were deleted from either table. */
  lemma DeletedPartnersStay(s: Scheme, mm: MultiMap, u1: Table, u2: Table, t1: Table, t2: Table, j1: nat, j2: nat,
      j: MultiMap)
    requires HasColumn(u1.table, j1) && HasColumn(u2.table, j2) && JoinIn(s, mm, u1, j1, u2, j2)
    requires HasColumn(t1.table, j1) && HasColumn(t2.table, j2) && JoinIn(s, j, t1, j1, t2, j2)
    requires CutDown(u1, t1) && CutDown(u2, t2)
    ensures JoinIn(s, Overlay(mm, j), u1, j1, u2, j2)
  {
    hide Indexed, RowTags, Matches, Over;
    forall r: nat ensures Get(Overlay(mm, j), Indexed(u1.name, r)) == Get(mm, Indexed(u1.name, r)) {
      OverlayGet(mm, j, Indexed(u1.name, r));
      if r < |t1.table| {
        assert t1.table[r] == u1.table[r];
        MatchesOfCutDown(t2.table, u2.table, j2, t1.table[r][j1]);
      }
      RowTagsPrefix(s, u2.name, Partners(t1, j1, t2, j2, r), Partners(u1, j1, u2, j2, r));
      assert Get(j, Indexed(t1.name, r)) == RowTags(s, t2.name, Partners(t1, j1, t2, j2, r));
      OverPrefix(Get(j, Indexed(u1.name, r)), Get(mm, Indexed(u1.name, r)));
    }
  }

  /** Changing a single cell leaves the old text findable: after `CS` was replaced by `Math` and the table
      uploaded again, the list at `CS` still leads to row 0. */
  lemma ChangedCellStaysFindable(s: Scheme, cat: Catalog, u: Table, t: Table, next: Catalog)
    requires u.table == [["CS"]] && t.table == [["Math"]] && u.columnsType == t.columnsType == ["string"]
    requires u.name == t.name && Serves(s, cat, u) && Uploaded(s, cat, t, next)
    ensures Get(Lookup(next, VALUE_TABLE), ValueKey(t.name, 0, "CS")) == RowTags(s, t.name, [0])
    ensures Get(Lookup(next, VALUE_TABLE), ValueKey(t.name, 0, "Math")) == RowTags(s, t.name, [0])
    ensures !Serves(s, next, t)
  {
    hide RowsIn, ColsIn, Uploaded, AreIndexes, Overlay, ValueKey, RowTags, Matches, Over;
    OneRow("CS", "CS");
    OneRow("CS", "Math");
    OneRow("Math", "CS");
    OneRow("Math", "Math");
    var r, v, c := UploadParts(s, cat, t, next);
    IndexesServe(s, t, r, v, c);
    forall w | w in ["CS", "Math"]
      ensures Get(Lookup(next, VALUE_TABLE), ValueKey(t.name, 0, w)) == RowTags(s, t.name, [0])
    {
      OverlayGet(Lookup(cat, VALUE_TABLE), v, ValueKey(t.name, 0, w));
      assert Get(v, ValueKey(t.name, 0, w)) == RowTags(s, t.name, Matches(t.table, 0, w, 1));
      assert Get(Lookup(cat, VALUE_TABLE), ValueKey(u.name, 0, w)) == RowTags(s, t.name, Matches(u.table, 0, w, 1));
      OverEmpty(RowTags(s, t.name, [0]));
      assert RowTags(s, t.name, []) == [];
    }
    assert |RowTags(s, t.name, [])| == 0;
    WrongList(s, next, t, 0, "CS");
  }

  lemma WrongList(s: Scheme, cat: Catalog, t: Table, c: nat, v: string)
    requires WellFormed(t.table, t.columnsType) && c < |t.table[0]|
    requires Get(Lookup(cat, VALUE_TABLE), ValueKey(t.name, c, v))
          != RowTags(s, t.name, Matches(t.table, c, v, |t.table|))
    ensures !Serves(s, cat, t)
  {
  }

  lemma OverEmpty(list: seq<string>)
    ensures Over(list, []) == Over([], list) == list
  {
  }

  lemma OneRow(v: string, w: string)
    ensures Matches([[v]], 0, w, 1) == if v == w then [0] else []
  {
    assert Matches([[v]], 0, w, 0) == [];
  }
}
