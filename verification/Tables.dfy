/** Plaintext tables, and which of their rows hold a text in a column. */
module Tables {
  import opened Wrappers
  import opened Scheme
  import opened Cells

  datatype Table = Table(
    name: string, table: seq<seq<string>>, columns: seq<string>, columnsType: seq<string>, keyType: seq<string>)

  datatype TableInfo = TableInfo(
    name: string, columns: seq<string>, columnsType: seq<string>, keyType: seq<string>)

  /** `load_from_table`. */
  function InfoOf(t: Table): TableInfo {
    TableInfo(t.name, t.columns, t.columnsType, t.keyType)
  }

  type Rows = seq<seq<string>>

  predicate HasColumn(rows: Rows, c: nat) {
    forall r :: 0 <= r < |rows| ==> c < |rows[r]|
  }

  predicate IsWide(rows: Rows, width: nat) {
    forall r :: 0 <= r < |rows| ==> width <= |rows[r]|
  }

  /** What the builders read: the first row sets the width, every row is at least as wide, and each
      of these columns has a type. */
  predicate WellFormed(rows: Rows, types: seq<string>) {
    |rows| > 0 && |rows[0]| <= |types| && IsWide(rows, |rows[0]|)
  }

  /** The number of cells of a table of this height and width. Counting column by column keeps products
      of two variables out of the proofs. */
  function Area(height: nat, width: nat): nat {
    if width == 0 then 0 else Area(height, width - 1) + height
  }

  lemma {:induction false} AreaIsProduct(height: nat, width: nat)
    ensures Area(height, width) == height * width
  {
    if width > 0 {
      AreaIsProduct(height, width - 1);
    }
  }

  lemma {:induction false} AreaSteps(height: nat, width: nat)
    ensures Area(height, width + 1) == Area(height, width) + height
    ensures Area(height + 1, width) == Area(height, width) + width
    ensures Area(0, width) == 0 == Area(height, 0)
  {
    if width > 0 {
      AreaSteps(height, width - 1);
    }
  }

  lemma {:induction false} AreaMonotone(height: nat, width: nat, wider: nat)
    requires width <= wider
    ensures Area(height, width) <= Area(height, wider)
    decreases wider
  {
    if width < wider {
      AreaMonotone(height, width, wider - 1);
    }
  }

  predicate Below(rs: seq<nat>, n: nat) {
    forall i :: 0 <= i < |rs| ==> rs[i] < n
  }

  predicate Ascending(rs: seq<nat>) {
    forall i, j :: 0 <= i < j < |rs| ==> rs[i] < rs[j]
  }

  /** The rows below `n` whose cell in column `c` is `v`. */
  function Matches(rows: Rows, c: nat, v: string, n: nat): seq<nat>
    requires HasColumn(rows, c) && n <= |rows|
  {
    if n == 0 then []
    else Matches(rows, c, v, n - 1) + if rows[n - 1][c] == v then [n - 1] else []
  }

  lemma MatchesBelow(rows: Rows, c: nat, v: string, n: nat)
    requires HasColumn(rows, c) && n <= |rows|
    ensures Below(Matches(rows, c, v, n), n)
  {
  }

  /** They are exactly those rows, in ascending order and each once. */
  lemma {:induction false} MatchesExact(rows: Rows, c: nat, v: string, n: nat)
    requires HasColumn(rows, c) && n <= |rows|
    ensures forall r: nat :: r in Matches(rows, c, v, n) <==> r < n && rows[r][c] == v
    ensures Ascending(Matches(rows, c, v, n))
  {
    if n > 0 {
      MatchesExact(rows, c, v, n - 1);
      var before := Matches(rows, c, v, n - 1);
      forall i | 0 <= i < |before| ensures before[i] < n - 1 {
        assert before[i] in before;
      }
    }
  }

  /** How many of the first `c` columns have a supported type: where column `c` of a row is stored. */
  function Position(types: seq<string>, c: nat): (p: nat)
    requires c <= |types|
    ensures p <= c
  {
    if c == 0 then 0
    else Position(types, c - 1) + if Supported(types[c - 1]) then 1 else 0
  }

  /** A column keeps its number exactly when every column before it is supported. */
  lemma {:induction false} PositionIsColumnIff(types: seq<string>, c: nat)
    requires c <= |types|
    ensures Position(types, c) == c <==> forall d :: 0 <= d < c ==> Supported(types[d])
  {
    if c > 0 {
      PositionIsColumnIff(types, c - 1);
    }
  }

  lemma {:induction false} PositionBelow(types: seq<string>, c: nat, n: nat)
    requires c < n <= |types| && Supported(types[c])
    ensures Position(types, c) < Position(types, n)
  {
    if c < n - 1 {
      PositionBelow(types, c, n - 1);
    }
  }

  /** The column that entry `p` of a row's list belongs to: the supported one with exactly `p` supported
      columns before it. */
  function ColumnAt(types: seq<string>, width: nat, p: nat): (c: nat)
    requires width <= |types| && p < Position(types, width)
    ensures c < width && Supported(types[c]) && Position(types, c) == p
  {
    if p < Position(types, width - 1) then ColumnAt(types, width - 1, p) else width - 1
  }

  lemma ColumnAtPosition(types: seq<string>, width: nat, c: nat)
    requires c < width <= |types| && Supported(types[c])
    ensures Position(types, c) < Position(types, width) && ColumnAt(types, width, Position(types, c)) == c
  {
    PositionBelow(types, c, width);
    PositionsDiffer(types, c, ColumnAt(types, width, Position(types, c)));
  }

  lemma PositionsDiffer(types: seq<string>, c: nat, d: nat)
    requires c < |types| && d < |types| && Supported(types[c]) && Supported(types[d])
    ensures Position(types, c) == Position(types, d) <==> c == d
  {
    if c < d {
      PositionBelow(types, c, d);
    } else if d < c {
      PositionBelow(types, d, c);
    }
  }

  /** Entry `p` belongs to column `p` exactly when no column up to it has an unsupported type. */
  lemma EntryIsColumnIff(types: seq<string>, width: nat, p: nat)
    requires width <= |types| && p < Position(types, width)
    ensures ColumnAt(types, width, p) == p <==> forall d :: 0 <= d <= p ==> Supported(types[d])
  {
    PositionIsColumnIff(types, p);
    if forall d :: 0 <= d <= p ==> Supported(types[d]) {
      ColumnAtPosition(types, width, p);
    }
  }

  /** Behind a column of another type, entry 1 belongs to column 2. */
  lemma EntryBehindUnsupported()
    ensures Position(["date", "string", "string"], 3) == 2
    ensures ColumnAt(["date", "string", "string"], 3, 1) == 2
  {
    var types := ["date", "string", "string"];
    assert Position(types, 1) == 0 && Position(types, 2) == 1;
  }

  /** No cell of the table makes a builder throw. */
  predicate Storable(s: Scheme, rows: Rows, types: seq<string>)
    requires WellFormed(rows, types)
  {
    forall r, c :: 0 <= r < |rows| && 0 <= c < |rows[0]| ==> Fault(s, types[c], rows[r][c]) == None
  }
}
