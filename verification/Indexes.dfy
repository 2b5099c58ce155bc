/** What the finished indexes say about the rows of a table. */
module Indexes {
  import opened Wrappers
  import opened Keys
  import opened Scheme
  import opened Cells
  import opened Tables
  import opened MultiMaps
  import opened DataMapper

  /** The tags of distinct rows are distinct, so a list of row tags determines its rows. */
  lemma RowTagsDetermineRows(s: Scheme, name: string, rs: seq<nat>)
    requires PrfInjective(s)
    ensures forall r: nat :: Tag(s, Indexed(name, r)) in RowTags(s, name, rs) <==> r in rs
    ensures Ascending(rs) ==>
              forall i, j :: 0 <= i < j < |rs| ==> RowTags(s, name, rs)[i] != RowTags(s, name, rs)[j]
  {
    hide Tag, Indexed;
    forall q: nat, r: nat | Tag(s, Indexed(name, q)) == Tag(s, Indexed(name, r)) ensures q == r {
      TagInjective(s, Indexed(name, q), Indexed(name, r));
      IndexedInjective(name, q, name, r);
    }
    var tags := RowTags(s, name, rs);
    forall r: nat ensures Tag(s, Indexed(name, r)) in tags <==> r in rs {
      if r in rs {
        var i :| 0 <= i < |rs| && rs[i] == r;
        assert tags[i] == Tag(s, Indexed(name, r));
      }
    }
  }

  /** The list at `T,c,v` of a value index: the tags of exactly the rows whose cell in column `c` is
      `v`, each once. */
  lemma ValueIndexExact(s: Scheme, mm: MultiMap, name: string, rows: Rows, width: nat, c: nat, v: string)
    requires PrfInjective(s) && IsWide(rows, width) && IsValueIndex(s, mm, name, rows, width) && c < width
    ensures var list := Get(mm, ValueKey(name, c, v));
            && (forall r: nat :: Tag(s, Indexed(name, r)) in list <==> r < |rows| && rows[r][c] == v)
            && (forall i, j :: 0 <= i < j < |list| ==> list[i] != list[j])
  {
    hide ValueKey, Tag, Indexed, RowTags, Matches;
    MatchesExact(rows, c, v, |rows|);
    RowTagsDetermineRows(s, name, Matches(rows, c, v, |rows|));
  }

  /** The list at `T1,r1` of a join index: the tags of exactly the rows of `T2` that join with it,
      each once. */
  lemma JoinIndexExact(s: Scheme, mm: MultiMap, name1: string, rows1: Rows, j1: nat, name2: string, rows2: Rows,
      j2: nat, r1: nat)
    requires PrfInjective(s) && HasColumn(rows1, j1) && HasColumn(rows2, j2) && r1 < |rows1|
    requires IsJoinIndex(s, mm, name1, rows1, j1, name2, rows2, j2)
    ensures var list := Get(mm, Indexed(name1, r1));
            && (forall r2: nat ::
                  Tag(s, Indexed(name2, r2)) in list <==> r2 < |rows2| && rows2[r2][j2] == rows1[r1][j1])
            && (forall i, j :: 0 <= i < j < |list| ==> list[i] != list[j])
  {
    hide Tag, Indexed, RowTags, Matches;
    MatchesExact(rows2, j2, rows1[r1][j1], |rows2|);
    RowTagsDetermineRows(s, name2, Matches(rows2, j2, rows1[r1][j1], |rows2|));
  }

  /** The row and the column index are transposes: the entry of row `r` at the position of column `c`
      and entry `r` of column `c` are both decrypted to the shown cell, though their ciphertexts may
      differ. */
  lemma IndexesAreTransposes(s: Scheme, rowIndex: MultiMap, colIndex: MultiMap, name: string, rows: Rows,
      types: seq<string>, r: nat, c: nat)
    requires Homomorphic(s) && WellFormed(rows, types) && r < |rows| && c < |rows[0]| && Supported(types[c])
    requires IsRowIndex(s, rowIndex, name, rows, types) && IsColIndex(s, colIndex, name, rows, types)
    ensures Fault(s, types[c], rows[r][c]) == None
    ensures var row, col := Get(rowIndex, Indexed(name, r)), Get(colIndex, Indexed(name, c));
            && Position(types, c) < |row| && r < |col|
            && DecryptField(s, types[c], row[Position(types, c)])
            == DecryptField(s, types[c], col[r])
            == Ok(Shown(s, types[c], rows[r][c]))
  {
    hide Indexed, Encodes, DecryptField, Shown, Homomorphic, Fault;
    var row, col := Get(rowIndex, Indexed(name, r)), Get(colIndex, Indexed(name, c));
    PositionBelow(types, c, |rows[0]|);
    assert Indexed(name, r) in rowIndex && RowEncodes(s, types, rows[r], row, |rows[0]|);
    assert Indexed(name, c) in colIndex && ColEncodes(s, types[c], rows, c, col, |rows|);
    DecryptEncoded(s, types[c], rows[r][c], row[Position(types, c)]);
    DecryptEncoded(s, types[c], rows[r][c], col[r]);
  }
}
