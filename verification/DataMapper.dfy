/** The four index builders: nested loops that append to the lists of a multimap, each against a
    description of the finished index. */
module DataMapper {
  import opened Wrappers
  import opened Numerals
  import opened Keys
  import opened Scheme
  import opened Cells
  import opened Tables
  import opened MultiMaps

  function RowTags(s: Scheme, name: string, rs: seq<nat>): (tags: seq<string>)
    ensures |tags| == |rs|
  {
    seq(|rs|, i requires 0 <= i < |rs| => Tag(s, Indexed(name, rs[i])))
  }

  // ----- value index -----

  /** How many rows of column `d` the column-by-column visit has seen when it is at row `r` of
      column `c`. */
  function Seen(d: nat, c: nat, r: nat, size: nat): (n: nat)
    ensures r <= size ==> n <= size
  {
    if d < c then size else if d == c then r else 0
  }

  /** The value index after the visit has come to row `r` of column `c`. */
  ghost predicate ValueProgress(s: Scheme, mm: MultiMap, name: string, rows: Rows, width: nat, c: nat, r: nat)
    requires r <= |rows| && IsWide(rows, width)
  {
    && (forall d: nat, v {:trigger ValueKey(name, d, v)} ::
          Get(mm, ValueKey(name, d, v))
          == if d < width then RowTags(s, name, Matches(rows, d, v, Seen(d, c, r, |rows|))) else [])
    && (forall k :: k in mm ==> exists d: nat, q: nat ::
          d < width && q < Seen(d, c, r, |rows|) && k == ValueKey(name, d, rows[q][d]))
  }

  /** The finished value index: under `T,c,v` the tags of exactly the rows whose cell in column `c` is
      `v`, and no other keys. */
  ghost predicate IsValueIndex(s: Scheme, mm: MultiMap, name: string, rows: Rows, width: nat)
    requires IsWide(rows, width)
  {
    && (forall d: nat, v {:trigger ValueKey(name, d, v)} ::
          Get(mm, ValueKey(name, d, v))
          == if d < width then RowTags(s, name, Matches(rows, d, v, |rows|)) else [])
    && (forall k :: k in mm ==> exists d: nat, q: nat ::
          d < width && q < |rows| && k == ValueKey(name, d, rows[q][d]))
  }

  lemma RowTagsAppend(s: Scheme, name: string, rs: seq<nat>, r: nat)
    ensures RowTags(s, name, rs + [r]) == RowTags(s, name, rs) + [Tag(s, Indexed(name, r))]
  {
  }

  lemma ValueStepLists(s: Scheme, mm: MultiMap, name: string, rows: Rows, width: nat, c: nat, r: nat, d: nat, v: string)
    requires c < width && r < |rows| && IsWide(rows, width)
    requires ValueProgress(s, mm, name, rows, width, c, r)
    ensures var key := ValueKey(name, c, rows[r][c]);
            Get(mm[key := Get(mm, key) + [Tag(s, Indexed(name, r))]], ValueKey(name, d, v))
            == if d < width then RowTags(s, name, Matches(rows, d, v, Seen(d, c, r + 1, |rows|))) else []
  {
    hide ValueKey, Tag, Indexed, RowTags, Matches, Seen;
    SeenStep(d, c, r, |rows|);
    if d == c {
      MatchesStep(rows, c, v, r);
    }
    if d == c && v == rows[r][c] {
      RowTagsAppend(s, name, Matches(rows, c, v, r), r);
    } else if ValueKey(name, d, v) == ValueKey(name, c, rows[r][c]) {
      ValueKeyInjective(name, d, v, c, rows[r][c]);
    }
  }

  lemma SeenStep(d: nat, c: nat, r: nat, size: nat)
    ensures Seen(d, c, r + 1, size) == if d == c then r + 1 else Seen(d, c, r, size)
    ensures d == c ==> Seen(d, c, r, size) == r
  {
  }

  lemma MatchesStep(rows: Rows, c: nat, v: string, r: nat)
    requires HasColumn(rows, c) && r < |rows|
    ensures Matches(rows, c, v, r + 1)
         == if rows[r][c] == v then Matches(rows, c, v, r) + [r] else Matches(rows, c, v, r)
  {
  }

  lemma ValueStepKey(s: Scheme, mm: MultiMap, name: string, rows: Rows, width: nat, c: nat, r: nat, k: string)
    requires c < width && r < |rows| && IsWide(rows, width)
    requires ValueProgress(s, mm, name, rows, width, c, r) && k in mm
    ensures exists d: nat, q: nat :: d < width && q < Seen(d, c, r + 1, |rows|) && k == ValueKey(name, d, rows[q][d])
  {
    hide ValueKey, Indexed, RowTags, Matches, Seen;
    var d: nat, q: nat :| d < width && q < Seen(d, c, r, |rows|) && k == ValueKey(name, d, rows[q][d]);
    SeenStep(d, c, r, |rows|);
    assert q < Seen(d, c, r + 1, |rows|);
  }

  lemma ValueStep(s: Scheme, mm: MultiMap, name: string, rows: Rows, width: nat, c: nat, r: nat)
    requires c < width && r < |rows| && IsWide(rows, width)
    requires ValueProgress(s, mm, name, rows, width, c, r)
    ensures var key := ValueKey(name, c, rows[r][c]);
            ValueProgress(s, mm[key := Get(mm, key) + [Tag(s, Indexed(name, r))]], name, rows, width, c, r + 1)
  {
    hide ValueKey, Tag, Indexed, RowTags, Matches, Seen;
    var key := ValueKey(name, c, rows[r][c]);
    var grown := mm[key := Get(mm, key) + [Tag(s, Indexed(name, r))]];
    forall d: nat, v
      ensures Get(grown, ValueKey(name, d, v))
              == if d < width then RowTags(s, name, Matches(rows, d, v, Seen(d, c, r + 1, |rows|))) else []
    {
      ValueStepLists(s, mm, name, rows, width, c, r, d, v);
    }
    forall k | k in grown
      ensures exists d: nat, q: nat :: d < width && q < Seen(d, c, r + 1, |rows|) && k == ValueKey(name, d, rows[q][d])
    {
      if k != key {
        ValueStepKey(s, mm, name, rows, width, c, r, k);
      } else {
        SeenStep(c, c, r, |rows|);
        assert r < Seen(c, c, r + 1, |rows|);
      }
    }
  }

  lemma ValueStart(s: Scheme, name: string, rows: Rows, width: nat)
    requires IsWide(rows, width)
    ensures ValueProgress(s, map[], name, rows, width, 0, 0)
  {
  }

  lemma ValueNextColumn(s: Scheme, mm: MultiMap, name: string, rows: Rows, width: nat, c: nat)
    requires c < width && IsWide(rows, width)
    requires ValueProgress(s, mm, name, rows, width, c, |rows|)
    ensures ValueProgress(s, mm, name, rows, width, c + 1, 0)
  {
    hide ValueKey, Tag, Indexed;
    assert forall d: nat :: Seen(d, c + 1, 0, |rows|) == Seen(d, c, |rows|, |rows|);
  }

  lemma ValueDone(s: Scheme, mm: MultiMap, name: string, rows: Rows, width: nat)
    requires IsWide(rows, width)
    requires ValueProgress(s, mm, name, rows, width, width, 0)
    ensures IsValueIndex(s, mm, name, rows, width)
  {
    hide ValueKey, Tag, Indexed;
    assert forall d: nat :: d < width ==> Seen(d, width, 0, |rows|) == |rows|;
  }

  /** `valueMultiMapConstruct`. */
  method ValueMultiMapConstruct(s: Scheme, tableName: string, inData: Rows, columnsTypes: seq<string>)
    returns (mmap: RowMultiMap)
    requires WellFormed(inData, columnsTypes)
    ensures fresh(mmap) && mmap.Valid()
    ensures IsValueIndex(s, mmap.maps, tableName, inData, |inData[0]|)
    ensures Total(mmap.maps) == Area(|inData|, |inData[0]|)
  {
    hide ValueProgress, IsValueIndex, ValueKey, Indexed, Tag, Total, Matches, Area;
    mmap := new RowMultiMap();
    mmap.SetColumnsTypes(columnsTypes);
    var rowSize, colSize := |inData|, |inData[0]|;
    ValueStart(s, tableName, inData, colSize);
    TotalOfEmpty();
    AreaSteps(rowSize, 0);
    for colIndex := 0 to colSize
      invariant mmap.Valid() && ValueProgress(s, mmap.maps, tableName, inData, colSize, colIndex, 0)
      invariant Total(mmap.maps) == Area(rowSize, colIndex)
    {
      for rowIndex := 0 to rowSize
        invariant mmap.Valid() && ValueProgress(s, mmap.maps, tableName, inData, colSize, colIndex, rowIndex)
        invariant Total(mmap.maps) == Area(rowSize, colIndex) + rowIndex
      {
        var text := inData[rowIndex][colIndex];
        var index := ValueKey(tableName, colIndex, text);
        var valuePlainText := Indexed(tableName, rowIndex);
        var row := [Tag(s, valuePlainText)];
        ValueStep(s, mmap.maps, tableName, inData, colSize, colIndex, rowIndex);
        TotalAppend(mmap.maps, index, row);
        mmap.Add(index, row);
      }
      ValueNextColumn(s, mmap.maps, tableName, inData, colSize, colIndex);
      AreaSteps(rowSize, colIndex);
    }
    ValueDone(s, mmap.maps, tableName, inData, colSize);
  }

  // ----- join index -----

  /** The join index after the visit has come to pair `r1`, `r2`. */
  ghost predicate JoinProgress(s: Scheme, mm: MultiMap, name1: string, rows1: Rows, j1: nat,
                               name2: string, rows2: Rows, j2: nat, r1: nat, r2: nat)
    requires HasColumn(rows1, j1) && HasColumn(rows2, j2) && r2 <= |rows2|
  {
    && (forall r: nat {:trigger Indexed(name1, r)} ::
          Get(mm, Indexed(name1, r))
          == if r < |rows1| then RowTags(s, name2, Matches(rows2, j2, rows1[r][j1], Seen(r, r1, r2, |rows2|))) else [])
    && (forall k :: k in mm ==> exists r: nat :: r < |rows1| && k == Indexed(name1, r))
  }

  /** The finished join index: under `T1,r1` the tags of exactly the rows of `T2` whose join cell
      equals that of row `r1`, and no other keys. */
  ghost predicate IsJoinIndex(s: Scheme, mm: MultiMap, name1: string, rows1: Rows, j1: nat,
                              name2: string, rows2: Rows, j2: nat)
    requires HasColumn(rows1, j1) && HasColumn(rows2, j2)
  {
    && (forall r: nat {:trigger Indexed(name1, r)} ::
          Get(mm, Indexed(name1, r))
          == if r < |rows1| then RowTags(s, name2, Matches(rows2, j2, rows1[r][j1], |rows2|)) else [])
    && (forall k :: k in mm ==> exists r: nat :: r < |rows1| && k == Indexed(name1, r))
  }

  /** The pairs of rows that join. */
  ghost function JoinPairs(rows1: Rows, j1: nat, rows2: Rows, j2: nat): set<(nat, nat)>
    requires HasColumn(rows1, j1) && HasColumn(rows2, j2)
  {
    set r1: nat, r2: nat | r1 < |rows1| && r2 < |rows2| && rows1[r1][j1] == rows2[r2][j2] :: (r1, r2)
  }

  /** Those that the visit has seen when it comes to pair `r1`, `r2`. */
  ghost function PairsBefore(rows1: Rows, j1: nat, rows2: Rows, j2: nat, r1: nat, r2: nat): set<(nat, nat)>
    requires HasColumn(rows1, j1) && HasColumn(rows2, j2)
  {
    set p | p in JoinPairs(rows1, j1, rows2, j2) && (p.0 < r1 || (p.0 == r1 && p.1 < r2))
  }

  lemma PairsStep(rows1: Rows, j1: nat, rows2: Rows, j2: nat, r1: nat, r2: nat)
    requires HasColumn(rows1, j1) && HasColumn(rows2, j2) && r1 < |rows1| && r2 < |rows2|
    ensures |PairsBefore(rows1, j1, rows2, j2, r1, r2 + 1)|
         == |PairsBefore(rows1, j1, rows2, j2, r1, r2)| + if rows1[r1][j1] == rows2[r2][j2] then 1 else 0
  {
    var before, after := PairsBefore(rows1, j1, rows2, j2, r1, r2), PairsBefore(rows1, j1, rows2, j2, r1, r2 + 1);
    assert after == if rows1[r1][j1] == rows2[r2][j2] then before + {(r1, r2)} else before;
  }

  lemma PairsBounds(rows1: Rows, j1: nat, rows2: Rows, j2: nat, r1: nat)
    requires HasColumn(rows1, j1) && HasColumn(rows2, j2)
    ensures PairsBefore(rows1, j1, rows2, j2, 0, 0) == {}
    ensures PairsBefore(rows1, j1, rows2, j2, r1, |rows2|) == PairsBefore(rows1, j1, rows2, j2, r1 + 1, 0)
    ensures PairsBefore(rows1, j1, rows2, j2, |rows1|, 0) == JoinPairs(rows1, j1, rows2, j2)
  {
  }

  lemma JoinStepLists(s: Scheme, mm: MultiMap, name1: string, rows1: Rows, j1: nat,
                      name2: string, rows2: Rows, j2: nat, r1: nat, r2: nat, r: nat)
    requires HasColumn(rows1, j1) && HasColumn(rows2, j2) && r1 < |rows1| && r2 < |rows2|
    requires JoinProgress(s, mm, name1, rows1, j1, name2, rows2, j2, r1, r2)
    ensures var key := Indexed(name1, r1);
            var next := if rows1[r1][j1] == rows2[r2][j2]
                        then mm[key := Get(mm, key) + [Tag(s, Indexed(name2, r2))]] else mm;
            Get(next, Indexed(name1, r))
            == if r < |rows1|
               then RowTags(s, name2, Matches(rows2, j2, rows1[r][j1], Seen(r, r1, r2 + 1, |rows2|))) else []
  {
    hide Tag, Indexed, RowTags, Matches, Seen;
    SeenStep(r, r1, r2, |rows2|);
    if r == r1 {
      MatchesStep(rows2, j2, rows1[r][j1], r2);
      RowTagsAppend(s, name2, Matches(rows2, j2, rows1[r][j1], r2), r2);
    } else if Indexed(name1, r) == Indexed(name1, r1) {
      IndexedInjective(name1, r, name1, r1);
    }
  }

  lemma JoinStep(s: Scheme, mm: MultiMap, name1: string, rows1: Rows, j1: nat,
                 name2: string, rows2: Rows, j2: nat, r1: nat, r2: nat)
    requires HasColumn(rows1, j1) && HasColumn(rows2, j2) && r1 < |rows1| && r2 < |rows2|
    requires JoinProgress(s, mm, name1, rows1, j1, name2, rows2, j2, r1, r2)
    ensures var key := Indexed(name1, r1);
            var next := if rows1[r1][j1] == rows2[r2][j2]
                        then mm[key := Get(mm, key) + [Tag(s, Indexed(name2, r2))]] else mm;
            JoinProgress(s, next, name1, rows1, j1, name2, rows2, j2, r1, r2 + 1)
  {
    hide Tag, Indexed, RowTags, Matches, Seen;
    var key := Indexed(name1, r1);
    var next := if rows1[r1][j1] == rows2[r2][j2]
                then mm[key := Get(mm, key) + [Tag(s, Indexed(name2, r2))]] else mm;
    forall r: nat
      ensures Get(next, Indexed(name1, r))
              == if r < |rows1|
                 then RowTags(s, name2, Matches(rows2, j2, rows1[r][j1], Seen(r, r1, r2 + 1, |rows2|))) else []
    {
      JoinStepLists(s, mm, name1, rows1, j1, name2, rows2, j2, r1, r2, r);
    }
  }

  lemma JoinStart(s: Scheme, name1: string, rows1: Rows, j1: nat, name2: string, rows2: Rows, j2: nat)
    requires HasColumn(rows1, j1) && HasColumn(rows2, j2)
    ensures JoinProgress(s, map[], name1, rows1, j1, name2, rows2, j2, 0, 0)
  {
  }

  lemma JoinNextRow(s: Scheme, mm: MultiMap, name1: string, rows1: Rows, j1: nat,
                    name2: string, rows2: Rows, j2: nat, r1: nat)
    requires HasColumn(rows1, j1) && HasColumn(rows2, j2) && r1 < |rows1|
    requires JoinProgress(s, mm, name1, rows1, j1, name2, rows2, j2, r1, |rows2|)
    ensures JoinProgress(s, mm, name1, rows1, j1, name2, rows2, j2, r1 + 1, 0)
  {
    hide Tag, Indexed;
    assert forall r: nat :: Seen(r, r1 + 1, 0, |rows2|) == Seen(r, r1, |rows2|, |rows2|);
  }

  lemma JoinDone(s: Scheme, mm: MultiMap, name1: string, rows1: Rows, j1: nat, name2: string, rows2: Rows, j2: nat)
    requires HasColumn(rows1, j1) && HasColumn(rows2, j2)
    requires JoinProgress(s, mm, name1, rows1, j1, name2, rows2, j2, |rows1|, 0)
    ensures IsJoinIndex(s, mm, name1, rows1, j1, name2, rows2, j2)
  {
    hide Tag, Indexed;
    assert forall r: nat :: r < |rows1| ==> Seen(r, |rows1|, 0, |rows2|) == |rows2|;
  }

  /** `joinMultiMapConstruct`. The index has one entry for each pair that joins. */
  method JoinMultiMapConstruct(s: Scheme, name1: string, name2: string, table1: Rows, table2: Rows, joinCol1: nat,
      joinCol2: nat)
    returns (mmap: RowMultiMap)
    requires HasColumn(table1, joinCol1) && HasColumn(table2, joinCol2)
    ensures fresh(mmap) && mmap.Valid()
    ensures IsJoinIndex(s, mmap.maps, name1, table1, joinCol1, name2, table2, joinCol2)
    ensures Total(mmap.maps) == |JoinPairs(table1, joinCol1, table2, joinCol2)|
  {
    hide JoinProgress, IsJoinIndex, PairsBefore, JoinPairs, Indexed, Tag, Total, Matches, Area;
    mmap := new RowMultiMap();
    JoinStart(s, name1, table1, joinCol1, name2, table2, joinCol2);
    TotalOfEmpty();
    PairsBounds(table1, joinCol1, table2, joinCol2, 0);
    for r1 := 0 to |table1|
      invariant mmap.Valid() && JoinProgress(s, mmap.maps, name1, table1, joinCol1, name2, table2, joinCol2, r1, 0)
      invariant Total(mmap.maps) == |PairsBefore(table1, joinCol1, table2, joinCol2, r1, 0)|
    {
      for r2 := 0 to |table2|
        invariant mmap.Valid() && JoinProgress(s, mmap.maps, name1, table1, joinCol1, name2, table2, joinCol2, r1, r2)
        invariant Total(mmap.maps) == |PairsBefore(table1, joinCol1, table2, joinCol2, r1, r2)|
      {
        var text1, text2 := table1[r1][joinCol1], table2[r2][joinCol2];
        JoinStep(s, mmap.maps, name1, table1, joinCol1, name2, table2, joinCol2, r1, r2);
        PairsStep(table1, joinCol1, table2, joinCol2, r1, r2);
        if text1 == text2 {
          var index := Indexed(name1, r1);
          var value := Indexed(name2, r2);
          var row := [Tag(s, value)];
          TotalAppend(mmap.maps, index, row);
          mmap.Add(index, row);
        }
      }
      JoinNextRow(s, mmap.maps, name1, table1, joinCol1, name2, table2, joinCol2, r1);
      PairsBounds(table1, joinCol1, table2, joinCol2, r1);
    }
    JoinDone(s, mmap.maps, name1, table1, joinCol1, name2, table2, joinCol2);
  }

  // ----- row and column indexes -----

  /** `list` holds the stored forms of the first `n` cells of a row, those of unsupported types left out. */
  ghost predicate RowEncodes(s: Scheme, types: seq<string>, texts: seq<string>, list: seq<string>, n: nat)
    requires n <= |types| && n <= |texts|
  {
    && |list| == Position(types, n)
    && forall c: nat {:trigger types[c]} :: c < n && Supported(types[c]) ==>
         Position(types, c) < |list| && Encodes(s, types[c], texts[c], list[Position(types, c)])
  }

  /** `list` holds the stored forms of the first `n` cells of a column, none if its type is unsupported. */
  ghost predicate ColEncodes(s: Scheme, columnType: string, rows: Rows, c: nat, list: seq<string>, n: nat)
    requires HasColumn(rows, c) && n <= |rows|
  {
    if Supported(columnType) then
      |list| == n && forall r: nat :: r < n ==> Encodes(s, columnType, rows[r][c], list[r])
    else list == []
  }

  ghost predicate RowsUpTo(s: Scheme, mm: MultiMap, name: string, rows: Rows, types: seq<string>, n: nat)
    requires WellFormed(rows, types) && n <= |rows|
  {
    && (forall r: nat {:trigger Indexed(name, r)} :: r < n ==>
          Indexed(name, r) in mm && RowEncodes(s, types, rows[r], mm[Indexed(name, r)], |rows[0]|))
    && (forall k :: k in mm ==> exists r: nat :: r < n && k == Indexed(name, r))
  }

  /** The finished row index: under `T,r` the stored cells of row `r`, and no other keys. */
  ghost predicate IsRowIndex(s: Scheme, mm: MultiMap, name: string, rows: Rows, types: seq<string>)
    requires WellFormed(rows, types)
  {
    RowsUpTo(s, mm, name, rows, types, |rows|)
  }

  ghost predicate ColsUpTo(s: Scheme, mm: MultiMap, name: string, rows: Rows, types: seq<string>, n: nat)
    requires WellFormed(rows, types) && n <= |rows[0]|
  {
    && (forall c: nat {:trigger Indexed(name, c)} :: c < n ==>
          Indexed(name, c) in mm && ColEncodes(s, types[c], rows, c, mm[Indexed(name, c)], |rows|))
    && (forall k :: k in mm ==> exists c: nat :: c < n && k == Indexed(name, c))
  }

  /** The finished column index: under `T,c` the stored cells of column `c`, and no other keys. */
  ghost predicate IsColIndex(s: Scheme, mm: MultiMap, name: string, rows: Rows, types: seq<string>)
    requires WellFormed(rows, types)
  {
    ColsUpTo(s, mm, name, rows, types, |rows[0]|)
  }

  /** One cell of the inner loop: symmetric or homomorphic encryption by type, nothing for any other. */
  method InsertCell(s: Scheme, row: seq<string>, columnType: string, text: string) returns (res: Result<seq<string>>)
    requires Homomorphic(s)
    ensures res.Raised? <==> Fault(s, columnType, text).Some?
    ensures res.Raised? ==> Fault(s, columnType, text) == Some(res.error)
    ensures res.Ok? && !Supported(columnType) ==> res.value == row
    ensures res.Ok? && Supported(columnType) ==>
              && |res.value| == |row| + 1 && res.value[..|row|] == row
              && Encodes(s, columnType, text, res.value[|row|])
  {
    if columnType == "string" {
      res := Ok(row + [Sealed(s, text)]);
    } else if columnType == "int" {
      match Stoi(text, 10)
      case Raised(e) => res := Raised(e);
      case Ok(p) => res := InsertIntoRowByHomomorphicEncryption(s, row, p.number);
    } else {
      res := Ok(row);
    }
  }

  /** A cell throws `e`, and no cell before it in row-by-row order throws. */
  ghost predicate FirstFault(s: Scheme, rows: Rows, types: seq<string>, r: nat, c: nat, e: Error)
    requires WellFormed(rows, types)
  {
    && r < |rows| && c < |rows[0]| && Fault(s, types[c], rows[r][c]) == Some(e)
    && (forall q, d :: 0 <= q < r && 0 <= d < |rows[0]| ==> Fault(s, types[d], rows[q][d]) == None)
    && (forall d :: 0 <= d < c ==> Fault(s, types[d], rows[r][d]) == None)
  }

  lemma RowEncodesStep(s: Scheme, types: seq<string>, texts: seq<string>, list: seq<string>, next: seq<string>, n: nat)
    requires n < |types| && n < |texts| && RowEncodes(s, types, texts, list, n)
    requires if Supported(types[n])
             then |next| == |list| + 1 && next[..|list|] == list && Encodes(s, types[n], texts[n], next[|list|])
             else next == list
    ensures RowEncodes(s, types, texts, next, n + 1)
  {
    hide Encodes;
    forall c: nat | c < n + 1 && Supported(types[c])
      ensures Position(types, c) < |next| && Encodes(s, types[c], texts[c], next[Position(types, c)])
    {
      if c < n {
        assert next[Position(types, c)] == list[Position(types, c)];
      }
    }
  }

  lemma RowsStep(s: Scheme, mm: MultiMap, name: string, rows: Rows, types: seq<string>, n: nat, row: seq<string>)
    requires WellFormed(rows, types) && n < |rows| && RowsUpTo(s, mm, name, rows, types, n)
    requires RowEncodes(s, types, rows[n], row, |rows[0]|)
    ensures Indexed(name, n) !in mm
    ensures RowsUpTo(s, mm[Indexed(name, n) := row], name, rows, types, n + 1)
  {
    hide Indexed, RowEncodes;
    forall r: nat | Indexed(name, r) == Indexed(name, n) ensures r == n {
      IndexedInjective(name, r, name, n);
    }
  }

  /** One turn of the outer loop of the row builder. */
  lemma RowAdded(s: Scheme, mm: MultiMap, name: string, rows: Rows, types: seq<string>, n: nat, row: seq<string>)
    requires WellFormed(rows, types) && n < |rows| && RowsUpTo(s, mm, name, rows, types, n)
    requires RowEncodes(s, types, rows[n], row, |rows[0]|)
    requires Total(mm) == Area(n, Position(types, |rows[0]|))
    ensures var next := mm[Indexed(name, n) := Get(mm, Indexed(name, n)) + row];
            && RowsUpTo(s, next, name, rows, types, n + 1)
            && Total(next) == Area(n + 1, Position(types, |rows[0]|))
  {
    hide Indexed, RowsUpTo, Total;
    RowsStep(s, mm, name, rows, types, n, row);
    TotalAppend(mm, Indexed(name, n), row);
    assert [] + row == row;
    AreaSteps(n, Position(types, |rows[0]|));
  }

  /** `rowMultiMapConstruct`: it throws exactly when some cell does, and then what the first such cell
      throws. */
  method RowMultiMapConstruct(s: Scheme, tableName: string, inData: Rows, columnsTypes: seq<string>)
    returns (res: Result<RowMultiMap>)
    requires Homomorphic(s) && WellFormed(inData, columnsTypes)
    ensures res.Ok? <==> Storable(s, inData, columnsTypes)
    ensures res.Raised? ==> exists r: nat, c: nat :: FirstFault(s, inData, columnsTypes, r, c, res.error)
    ensures res.Ok? ==> fresh(res.value) && res.value.Valid()
                        && IsRowIndex(s, res.value.maps, tableName, inData, columnsTypes)
                        && Total(res.value.maps) == Area(|inData|, Position(columnsTypes, |inData[0]|))
  {
    hide RowsUpTo, RowEncodes, Area, Indexed, Total, Get, Encodes, Fault, Homomorphic;
    var mmap := new RowMultiMap();
    mmap.SetColumnsTypes(columnsTypes);
    var rowSize, colSize := |inData|, |inData[0]|;
    RowsStart(s, tableName, inData, columnsTypes);
    TotalOfEmpty();
    AreaSteps(0, Position(columnsTypes, colSize));
    for rowIndex := 0 to rowSize
      invariant mmap.Valid() && RowsUpTo(s, mmap.maps, tableName, inData, columnsTypes, rowIndex)
      invariant mmap.columnsTypes == columnsTypes
      invariant Total(mmap.maps) == Area(rowIndex, Position(columnsTypes, colSize))
      invariant forall q, d :: 0 <= q < rowIndex && 0 <= d < colSize ==> Fault(s, columnsTypes[d], inData[q][d]) == None
    {
      var index := Indexed(tableName, rowIndex);
      var row: seq<string> := [];
      RowEncodesStart(s, columnsTypes, inData[rowIndex]);
      for colIndex := 0 to colSize
        modifies {}
        invariant RowEncodes(s, columnsTypes, inData[rowIndex], row, colIndex)
        invariant forall d :: 0 <= d < colIndex ==> Fault(s, columnsTypes[d], inData[rowIndex][d]) == None
      {
        var text := inData[rowIndex][colIndex];
        var columnType := mmap.GetTypesByColumnsID(colIndex);
        var next := InsertCell(s, row, columnType, text);
        if next.Raised? {
          assert FirstFault(s, inData, columnsTypes, rowIndex, colIndex, next.error);
          return Raised(next.error);
        }
        RowEncodesStep(s, columnsTypes, inData[rowIndex], row, next.value, colIndex);
        row := next.value;
      }
      RowAdded(s, mmap.maps, tableName, inData, columnsTypes, rowIndex, row);
      mmap.Add(index, row);
    }
    res := Ok(mmap);
  }

  lemma RowsStart(s: Scheme, name: string, rows: Rows, types: seq<string>)
    requires WellFormed(rows, types)
    ensures RowsUpTo(s, map[], name, rows, types, 0) && ColsUpTo(s, map[], name, rows, types, 0)
  {
  }

  lemma RowEncodesStart(s: Scheme, types: seq<string>, texts: seq<string>)
    ensures RowEncodes(s, types, texts, [], 0)
  {
  }

  lemma ColsStep(s: Scheme, mm: MultiMap, name: string, rows: Rows, types: seq<string>, n: nat, col: seq<string>)
    requires WellFormed(rows, types) && n < |rows[0]| && ColsUpTo(s, mm, name, rows, types, n)
    requires ColEncodes(s, types[n], rows, n, col, |rows|)
    ensures Indexed(name, n) !in mm
    ensures ColsUpTo(s, mm[Indexed(name, n) := col], name, rows, types, n + 1)
  {
    hide Indexed, ColEncodes;
    forall c: nat | Indexed(name, c) == Indexed(name, n) ensures c == n {
      IndexedInjective(name, c, name, n);
    }
  }

  lemma ColEncodesStart(s: Scheme, columnType: string, rows: Rows, c: nat)
    requires HasColumn(rows, c)
    ensures ColEncodes(s, columnType, rows, c, [], 0)
  {
  }

  /** One turn of the outer loop of the column builder. */
  lemma ColAdded(s: Scheme, mm: MultiMap, name: string, rows: Rows, types: seq<string>, n: nat, col: seq<string>)
    requires WellFormed(rows, types) && n < |rows[0]| && ColsUpTo(s, mm, name, rows, types, n)
    requires ColEncodes(s, types[n], rows, n, col, |rows|)
    requires Total(mm) == Area(|rows|, Position(types, n))
    ensures var next := mm[Indexed(name, n) := Get(mm, Indexed(name, n)) + col];
            && ColsUpTo(s, next, name, rows, types, n + 1)
            && Total(next) == Area(|rows|, Position(types, n + 1))
  {
    hide Indexed, ColsUpTo, Total;
    ColsStep(s, mm, name, rows, types, n, col);
    TotalAppend(mm, Indexed(name, n), col);
    assert [] + col == col;
    AreaSteps(|rows|, Position(types, n));
  }

  lemma ColEncodesStep(s: Scheme, columnType: string, rows: Rows, c: nat, list: seq<string>, next: seq<string>, n: nat)
    requires HasColumn(rows, c) && n < |rows| && ColEncodes(s, columnType, rows, c, list, n)
    requires if Supported(columnType)
             then |next| == |list| + 1 && next[..|list|] == list && Encodes(s, columnType, rows[n][c], next[|list|])
             else next == list
    ensures ColEncodes(s, columnType, rows, c, next, n + 1)
  {
    hide Encodes;
    assert Supported(columnType) ==> forall r: nat :: r < n ==> next[r] == list[r];
  }

  /** `colMultiMapConstruct`. */
  method ColMultiMapConstruct(s: Scheme, tableName: string, inData: Rows, columnsTypes: seq<string>)
    returns (res: Result<RowMultiMap>)
    requires Homomorphic(s) && WellFormed(inData, columnsTypes)
    ensures res.Ok? <==> Storable(s, inData, columnsTypes)
    ensures res.Ok? ==> fresh(res.value) && res.value.Valid()
                        && IsColIndex(s, res.value.maps, tableName, inData, columnsTypes)
                        && Total(res.value.maps) == Area(|inData|, Position(columnsTypes, |inData[0]|))
  {
    hide ColsUpTo, ColEncodes, Area, Indexed, Total, Get, Encodes, Fault, Homomorphic;
    var mmap := new RowMultiMap();
    mmap.SetColumnsTypes(columnsTypes);
    var rowSize, colSize := |inData|, |inData[0]|;
    RowsStart(s, tableName, inData, columnsTypes);
    TotalOfEmpty();
    AreaSteps(rowSize, 0);
    for colIndex := 0 to colSize
      invariant mmap.Valid() && ColsUpTo(s, mmap.maps, tableName, inData, columnsTypes, colIndex)
      invariant mmap.columnsTypes == columnsTypes
      invariant Total(mmap.maps) == Area(rowSize, Position(columnsTypes, colIndex))
      invariant forall r, d :: 0 <= r < rowSize && 0 <= d < colIndex ==> Fault(s, columnsTypes[d], inData[r][d]) == None
    {
      var index := Indexed(tableName, colIndex);
      var col: seq<string> := [];
      ColEncodesStart(s, columnsTypes[colIndex], inData, colIndex);
      for rowIndex := 0 to rowSize
        modifies {}
        invariant ColEncodes(s, columnsTypes[colIndex], inData, colIndex, col, rowIndex)
        invariant forall r :: 0 <= r < rowIndex ==> Fault(s, columnsTypes[colIndex], inData[r][colIndex]) == None
      {
        var text := inData[rowIndex][colIndex];
        var columnType := mmap.GetTypesByColumnsID(colIndex);
        var next := InsertCell(s, col, columnType, text);
        if next.Raised? {
          return Raised(next.error);
        }
        ColEncodesStep(s, columnType, inData, colIndex, col, next.value, rowIndex);
        col := next.value;
      }
      ColAdded(s, mmap.maps, tableName, inData, columnsTypes, colIndex, col);
      mmap.Add(index, col);
    }
    res := Ok(mmap);
  }
}
