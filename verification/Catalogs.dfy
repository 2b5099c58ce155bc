/** What the database means: for each stored table, the multimap whose flat form it holds. */
module Catalogs {
  import opened Numerals
  import opened Keys
  import opened Scheme
  import opened Tables
  import opened MultiMaps
  import opened Stores
  import opened DataMapper

  type Catalog = map<string, MultiMap>

  function Lookup(cat: Catalog, name: string): MultiMap {
    if name in cat then cat[name] else map[]
  }

  function Merge(cat: Catalog, name: string, mm: MultiMap): Catalog {
    cat[name := Overlay(Lookup(cat, name), mm)]
  }

  ghost predicate Represents(s: Scheme, cat: Catalog, tables: StoredTables) {
    && cat.Keys == tables.Keys
    && forall n :: n in cat ==> IsFlat(s, cat[n], tables[n]) && Fits(s, cat[n])
  }

  lemma {:induction false} OverlayTotal(prior: MultiMap, next: MultiMap)
    ensures Total(Overlay(prior, next)) <= Total(prior) + Total(next)
    decreases |Overlay(prior, next)|
  {
    hide Total;
    var both := Overlay(prior, next);
    if both == map[] {
      TotalOfEmpty();
    } else {
      var k :| k in both;
      OverlayWithout(prior, next, k);
      OverlayTotal(prior - {k}, next - {k});
      TotalSplit(both, k);
      TotalWithout(prior, k);
      TotalWithout(next, k);
    }
  }

  /** Writing over keys that had no entries adds up. */
  lemma {:induction false} OverlayNewTotal(prior: MultiMap, next: MultiMap)
    requires forall k :: k in next ==> Get(prior, k) == []
    ensures Total(Overlay(prior, next)) == Total(prior) + Total(next)
    decreases |Overlay(prior, next)|
  {
    hide Total;
    var both := Overlay(prior, next);
    if both == map[] {
      assert prior == map[] && next == map[] by {
        OverlayKeys(prior, next);
      }
      TotalOfEmpty();
    } else {
      var k :| k in both;
      OverlayWithout(prior, next, k);
      OverlayNewTotal(prior - {k}, next - {k});
      TotalSplit(both, k);
      TotalWithout(prior, k);
      TotalWithout(next, k);
      OverlayGet(prior, next, k);
    }
  }

  lemma OverlayWithout(prior: MultiMap, next: MultiMap, k: string)
    requires k in Overlay(prior, next)
    ensures Overlay(prior - {k}, next - {k}) == Overlay(prior, next) - {k}
    ensures |Overlay(prior, next) - {k}| == |Overlay(prior, next)| - 1
  {
    hide Over;
    var less, both := Overlay(prior - {k}, next - {k}), Overlay(prior, next) - {k};
    assert less.Keys == both.Keys == Overlay(prior, next).Keys - {k};
    forall l | l in less ensures less[l] == both[l] {
      assert Get(prior - {k}, l) == Get(prior, l) && Get(next - {k}, l) == Get(next, l);
    }
  }

  lemma TotalWithout(mm: MultiMap, k: string)
    ensures Total(mm) == |Get(mm, k)| + Total(mm - {k})
  {
    if k in mm {
      TotalSplit(mm, k);
    } else {
      assert mm - {k} == mm;
    }
  }

  /** A multimap can be merged when its keys are in scope and the counters can grow that far. */
  ghost predicate HasRoom(s: Scheme, cat: Catalog, name: string, entries: nat) {
    Total(Lookup(cat, name)) + entries <= s.limit
  }

  /** Merging a multimap into the catalog is what `insertEMM` of its flat form does to the database. */
  lemma MergeRepresents(s: Scheme, cat: Catalog, tables: StoredTables, name: string, mm: MultiMap, emm: Store)
    requires EntriesDistinct(s) && Represents(s, cat, tables) && IsFlat(s, mm, emm)
    requires Fits(s, mm) && HasRoom(s, cat, name, Total(mm))
    ensures Represents(s, Merge(cat, name, mm), tables[name := RowsOf(tables, name) + emm])
  {
    hide EntriesDistinct, IsFlat, Overlay, Fits, HasRoom;
    var prior := Lookup(cat, name);
    StoreOf(s, cat, tables, name);
    OverlayFits(s, cat, name, mm);
    FlatOverlay(s, prior, RowsOf(tables, name), mm, emm);
  }

  lemma StoreOf(s: Scheme, cat: Catalog, tables: StoredTables, name: string)
    requires Represents(s, cat, tables)
    ensures IsFlat(s, Lookup(cat, name), RowsOf(tables, name)) && Fits(s, Lookup(cat, name))
  {
    hide IsFlat, Total;
    FlatEmpty(s);
  }

  lemma OverlayFits(s: Scheme, cat: Catalog, name: string, mm: MultiMap)
    requires Fits(s, Lookup(cat, name)) && Fits(s, mm) && HasRoom(s, cat, name, Total(mm))
    ensures Fits(s, Overlay(Lookup(cat, name), mm))
  {
    hide Total, Overlay, Tag;
    OverlayTotal(Lookup(cat, name), mm);
    OverlayKeys(Lookup(cat, name), mm);
  }

  lemma OverlayKeys(prior: MultiMap, next: MultiMap)
    ensures Overlay(prior, next).Keys == prior.Keys + next.Keys
  {
  }

  // ----- the tables of the client -----

  const ROW_TABLE := "mmr"
  const VALUE_TABLE := "mmv"
  const COLUMN_TABLE := "mmc"

  /** The name of a join table. */
  function JoinName(name1: string, j1: nat, name2: string, j2: nat): string {
    "mmjoin_" + name1 + "_" + Dec(j1) + "_join_" + name2 + "_" + Dec(j2)
  }

  lemma JoinNameIsOther(name1: string, j1: nat, name2: string, j2: nat)
    ensures JoinName(name1, j1, name2, j2) !in {ROW_TABLE, VALUE_TABLE, COLUMN_TABLE}
  {
    assert JoinName(name1, j1, name2, j2)[2] == 'j';
  }

  /** The keys of a table's three indexes are in scope, and there is room for its cells. */
  ghost predicate Admits(s: Scheme, cat: Catalog, name: string, rows: Rows, types: seq<string>)
    requires WellFormed(rows, types)
  {
    && (forall r: nat :: r < |rows| || r < |rows[0]| ==> Tag(s, Indexed(name, r)) in s.tags)
    && (forall r: nat, c: nat :: r < |rows| && c < |rows[0]| ==> Tag(s, ValueKey(name, c, rows[r][c])) in s.tags)
    && HasRoom(s, cat, ROW_TABLE, Area(|rows|, |rows[0]|))
    && HasRoom(s, cat, VALUE_TABLE, Area(|rows|, |rows[0]|))
    && HasRoom(s, cat, COLUMN_TABLE, Area(|rows|, |rows[0]|))
  }

  ghost predicate AdmitsJoin(s: Scheme, cat: Catalog, name1: string, rows1: Rows, j1: nat, name2: string, rows2: Rows,
      j2: nat)
    requires HasColumn(rows1, j1) && HasColumn(rows2, j2)
  {
    && (forall r: nat :: r < |rows1| ==> Tag(s, Indexed(name1, r)) in s.tags)
    && HasRoom(s, cat, JoinName(name1, j1, name2, j2), |JoinPairs(rows1, j1, rows2, j2)|)
  }

  lemma RowIndexFits(s: Scheme, cat: Catalog, mm: MultiMap, name: string, rows: Rows, types: seq<string>)
    requires WellFormed(rows, types) && Admits(s, cat, name, rows, types) && IsRowIndex(s, mm, name, rows, types)
    requires Total(mm) == Area(|rows|, Position(types, |rows[0]|))
    ensures Fits(s, mm) && HasRoom(s, cat, ROW_TABLE, Total(mm))
  {
    hide Tag, Indexed, RowEncodes, Total, Area;
    AreaMonotone(|rows|, Position(types, |rows[0]|), |rows[0]|);
  }

  lemma ColIndexFits(s: Scheme, cat: Catalog, mm: MultiMap, name: string, rows: Rows, types: seq<string>)
    requires WellFormed(rows, types) && Admits(s, cat, name, rows, types) && IsColIndex(s, mm, name, rows, types)
    requires Total(mm) == Area(|rows|, Position(types, |rows[0]|))
    ensures Fits(s, mm) && HasRoom(s, cat, COLUMN_TABLE, Total(mm))
  {
    hide Tag, Indexed, ColEncodes, Total, Area;
    AreaMonotone(|rows|, Position(types, |rows[0]|), |rows[0]|);
  }

  lemma ValueIndexFits(s: Scheme, cat: Catalog, mm: MultiMap, name: string, rows: Rows, types: seq<string>)
    requires WellFormed(rows, types) && Admits(s, cat, name, rows, types) && IsValueIndex(s, mm, name, rows, |rows[0]|)
    requires Total(mm) == Area(|rows|, |rows[0]|)
    ensures Fits(s, mm) && HasRoom(s, cat, VALUE_TABLE, Total(mm))
  {
    hide Tag, Indexed, ValueKey, RowTags, Total, Area;
  }
}
