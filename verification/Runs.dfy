/** Runs of uploads by one client, over whatever the database held before: which tables the shared stores
    answer for afterwards. */
module Runs {
  import opened Keys
  import opened Scheme
  import opened Tables
  import opened MultiMaps
  import opened Stores
  import opened DataMapper
  import opened Catalogs
  import opened Service
  import opened Serving
  import opened Reuploads

  /** A run of uploads. The client starts without tables; the database need not be empty. */
  ghost predicate Run(s: Scheme, states: seq<State>, events: seq<Event>) {
    && |states| == |events| + 1
    && states[0].tables == map[]
    && forall i :: 0 <= i < |events| ==> Step(s, states[i], events[i], states[i + 1])
  }

  function Last(states: seq<State>): State
    requires |states| > 0
  {
    states[|states| - 1]
  }

  lemma RunStates(s: Scheme, states: seq<State>, events: seq<Event>)
    requires Run(s, states, events)
    ensures |states| == |events| + 1 && states[0].tables == map[]
  {
  }

  lemma RunStepAt(s: Scheme, states: seq<State>, events: seq<Event>, i: nat)
    requires Run(s, states, events) && i < |events|
    ensures |states| == |events| + 1 && Step(s, states[i], events[i], states[i + 1])
    ensures WellFormed(events[i].t.table, events[i].t.columnsType) && JoinReady(states[i + 1].tables)
    ensures states[i + 1].tables == states[i].tables[events[i].t.name := events[i].t]
    ensures !Storable(s, events[i].t.table, events[i].t.columnsType) ==> states[i + 1].catalog == states[i].catalog
  {
    hide Step;
    StepBasics(s, states[i], events[i], states[i + 1]);
  }

  // ----- names -----

  /** Every upload is under this name or under one that is apart from it. */
  ghost predicate OthersApart(events: seq<Event>, n: string) {
    forall i :: 0 <= i < |events| ==> events[i].t.name == n || Apart(events[i].t.name, n)
  }

  /** Upload `i` is the last one under its name. */
  predicate IsLatest(events: seq<Event>, i: nat)
    requires i < |events|
  {
    forall j :: i < j < |events| ==> events[j].t.name != events[i].t.name
  }

  /** The names of the uploads are pairwise apart; in particular none is repeated. */
  ghost predicate NamesApart(events: seq<Event>) {
    forall i, j :: 0 <= i < j < |events| ==> Apart(events[i].t.name, events[j].t.name)
  }

  lemma NamesApartFrom(events: seq<Event>, i: nat)
    requires NamesApart(events) && i < |events|
    ensures OthersApart(events, events[i].t.name) && IsLatest(events, i)
    ensures forall j :: 0 <= j < |events| && events[j].t.name == events[i].t.name ==> j == i
  {
    hide Shadows;
  }

  // ----- what the client remembers -----

  lemma {:induction false} RunRemembersNames(s: Scheme, states: seq<State>, events: seq<Event>, n: string, b: nat)
    requires Run(s, states, events) && b <= |events|
    ensures n in states[b].tables <==> exists i :: 0 <= i < b && events[i].t.name == n
    decreases b
  {
    hide Step;
    if b > 0 {
      RunRemembersNames(s, states, events, n, b - 1);
      RunStepAt(s, states, events, b - 1);
    }
  }

  /** The table remembered under a name is the one that was last uploaded under it. */
  lemma {:induction false} RunRemembers(s: Scheme, states: seq<State>, events: seq<Event>, i: nat, b: nat)
    requires Run(s, states, events) && i < b <= |events|
    requires forall j :: i < j < b ==> events[j].t.name != events[i].t.name
    ensures events[i].t.name in states[b].tables && states[b].tables[events[i].t.name] == events[i].t
    decreases b
  {
    hide Step, Run;
    RunStepAt(s, states, events, b - 1);
    if i < b - 1 {
      RunRemembers(s, states, events, i, b - 1);
    }
  }

  lemma {:induction false} RunNames(s: Scheme, states: seq<State>, events: seq<Event>, b: nat)
    requires Run(s, states, events) && b <= |events|
    ensures forall n :: n in states[b].tables ==> states[b].tables[n].name == n
    ensures JoinReady(states[b].tables)
    decreases b
  {
    hide Step, HasColumn;
    if b > 0 {
      RunNames(s, states, events, b - 1);
      RunStepAt(s, states, events, b - 1);
    }
  }

  // ----- what the stores hold -----

  /** Uploads under other names change no list of a name. */
  lemma {:induction false} RunKeeps(s: Scheme, states: seq<State>, events: seq<Event>, n: string, a: nat, b: nat)
    requires Run(s, states, events) && a <= b <= |events|
    requires forall j :: a <= j < b ==> Apart(events[j].t.name, n)
    ensures SameLists(states[a].catalog, states[b].catalog, n)
    decreases b - a
  {
    hide Step, Apart, Indexed, ValueKey, Get, Lookup;
    if a < b {
      RunKeeps(s, states, events, n, a, b - 1);
      StepKeeps(s, states[b - 1], events[b - 1], states[b], n);
      SameListsChain(states[a].catalog, states[b - 1].catalog, states[b].catalog, n);
    }
  }

  lemma SameListsChain(a: Catalog, b: Catalog, c: Catalog, n: string)
    requires SameLists(a, b, n) && SameLists(b, c, n)
    ensures SameLists(a, c, n)
  {
    hide Indexed, ValueKey, Lookup, SameList;
    forall i: nat
      ensures SameList(Lookup(a, ROW_TABLE), Lookup(c, ROW_TABLE), Indexed(n, i))
      ensures SameList(Lookup(a, COLUMN_TABLE), Lookup(c, COLUMN_TABLE), Indexed(n, i))
    {
      SameListChain(Lookup(a, ROW_TABLE), Lookup(b, ROW_TABLE), Lookup(c, ROW_TABLE), Indexed(n, i));
      SameListChain(Lookup(a, COLUMN_TABLE), Lookup(b, COLUMN_TABLE), Lookup(c, COLUMN_TABLE), Indexed(n, i));
    }
    forall d: nat, v ensures SameList(Lookup(a, VALUE_TABLE), Lookup(c, VALUE_TABLE), ValueKey(n, d, v)) {
      SameListChain(Lookup(a, VALUE_TABLE), Lookup(b, VALUE_TABLE), Lookup(c, VALUE_TABLE), ValueKey(n, d, v));
    }
  }

  lemma SameListChain(a: MultiMap, b: MultiMap, c: MultiMap, key: string)
    requires SameList(a, b, key) && SameList(b, c, key)
    ensures SameList(a, c, key)
  {
  }

  lemma SameListsLengths(cat: Catalog, next: Catalog, t: Table)
    requires WellFormed(t.table, t.columnsType) && SameLists(cat, next, t.name)
    ensures NothingLonger(cat, t) <==> NothingLonger(next, t)
  {
    hide Indexed, ValueKey, Lookup, Get, RowLength, ColLength, ValueCount;
    assert forall i: nat ::
      && SameList(Lookup(cat, ROW_TABLE), Lookup(next, ROW_TABLE), Indexed(t.name, i))
      && SameList(Lookup(cat, COLUMN_TABLE), Lookup(next, COLUMN_TABLE), Indexed(t.name, i));
    assert forall c: nat, v ::
      SameList(Lookup(cat, VALUE_TABLE), Lookup(next, VALUE_TABLE), ValueKey(t.name, c, v));
  }

  /** No table that was stored under the name in the first `b` uploads had a list that is longer than
      the one `t` has. */
  ghost predicate EarlierNotLonger(s: Scheme, events: seq<Event>, b: nat, t: Table)
    requires WellFormed(t.table, t.columnsType) && b <= |events|
  {
    forall j :: 0 <= j < b ==> LeftNoLonger(s, events[j].t, t)
  }

  /** If `u` was stored under the name of `t`, none of its lists is longer. */
  ghost predicate LeftNoLonger(s: Scheme, u: Table, t: Table)
    requires WellFormed(t.table, t.columnsType)
  {
    u.name == t.name && WellFormed(u.table, u.columnsType) && Storable(s, u.table, u.columnsType) ==>
      NothingShrank(u, t)
  }

  lemma SameStores(s: Scheme, cat: Catalog, next: Catalog, t: Table)
    requires WellFormed(t.table, t.columnsType)
    requires forall n :: n in {ROW_TABLE, VALUE_TABLE, COLUMN_TABLE} ==> Lookup(next, n) == Lookup(cat, n)
    ensures Serves(s, cat, t) <==> Serves(s, next, t)
    ensures NothingLonger(cat, t) <==> NothingLonger(next, t)
  {
    hide RowsIn, ColsIn, ValuesIn, Indexed, ValueKey, RowLength, ColLength, ValueCount;
  }

  lemma StepHistory(s: Scheme, st: State, ev: Event, next: State, t: Table)
    requires WellFormed(t.table, t.columnsType) && Step(s, st, ev, next)
    requires ev.t.name == t.name || Apart(ev.t.name, t.name)
    ensures NothingLonger(next.catalog, t) <==> NothingLonger(st.catalog, t) && LeftNoLonger(s, ev.t, t)
  {
    hide Step, Apart, Shadows, Storable, WellFormed, Uploaded, NothingShrank, NothingLonger, SameLists;
    StepBasics(s, st, ev, next);
    if ev.t.name != t.name {
      StepKeeps(s, st, ev, next, t.name);
      SameListsLengths(st.catalog, next.catalog, t);
    } else if Storable(s, ev.t.table, ev.t.columnsType) {
      var mid := StepMiddle(s, st, ev, next);
      NothingLongerAfter(s, st.catalog, ev.t, mid, t);
      SameStores(s, mid, next.catalog, t);
    }
  }

  /** What stands in the way of a table after some uploads: what stood there before, and the longer lists
      of older tables of its name. */
  lemma {:induction false} RunHistory(s: Scheme, states: seq<State>, events: seq<Event>, b: nat, t: Table)
    requires Run(s, states, events) && b <= |events| && WellFormed(t.table, t.columnsType)
    requires OthersApart(events, t.name)
    ensures NothingLonger(states[b].catalog, t) <==>
            NothingLonger(states[0].catalog, t) && EarlierNotLonger(s, events, b, t)
    decreases b
  {
    hide Step, Apart, NothingLonger, LeftNoLonger, WellFormed;
    if b > 0 {
      RunHistory(s, states, events, b - 1, t);
      StepHistory(s, states[b - 1], events[b - 1], states[b], t);
    }
  }

  /** All cells of a latest table could be stored, and no list under its keys was ever longer, neither
      before the run nor for an older table of the name. */
  ghost predicate Prevails(s: Scheme, states: seq<State>, events: seq<Event>, i: nat)
    requires |states| == |events| + 1 && i < |events|
  {
    var t := events[i].t;
    && IsLatest(events, i) && WellFormed(t.table, t.columnsType) && Storable(s, t.table, t.columnsType)
    && NothingLonger(states[0].catalog, t) && EarlierNotLonger(s, events, i, t)
  }

  /** After any run of uploads, by table or by file, with names repeated at will, over whatever the
      database held: the latest table of a name is served exactly when all its cells could be stored and
      no list under its keys was ever longer, neither before the run nor for an older table of the name. */
  lemma RunServesIff(s: Scheme, states: seq<State>, events: seq<Event>, i: nat)
    requires Run(s, states, events) && i < |events| && IsLatest(events, i)
    requires OthersApart(events, events[i].t.name)
    ensures WellFormed(events[i].t.table, events[i].t.columnsType)
    ensures Serves(s, Last(states).catalog, events[i].t) <==> Prevails(s, states, events, i)
  {
    hide Step, Apart, Shadows, Serves, Storable, NothingLonger, EarlierNotLonger, WellFormed, Uploaded, SameLists;
    var t := events[i].t;
    RunStepAt(s, states, events, i);
    RunKeeps(s, states, events, t.name, i + 1, |events|);
    SameListsServe(s, states[i + 1].catalog, Last(states).catalog, t);
    RunHistory(s, states, events, i, t);
    if Storable(s, t.table, t.columnsType) {
      var mid := StepMiddle(s, states[i], events[i], states[i + 1]);
      UploadServesIff(s, states[i].catalog, t, mid);
      SameStores(s, mid, states[i + 1].catalog, t);
    } else if Serves(s, Last(states).catalog, t) {
      ServedIsStored(s, Last(states).catalog, t);
    }
  }

  /** Some table could be stored. */
  ghost predicate AnyStored(s: Scheme, events: seq<Event>, b: nat)
    requires b <= |events|
  {
    exists i :: 0 <= i < b && WellFormed(events[i].t.table, events[i].t.columnsType)
                && Storable(s, events[i].t.table, events[i].t.columnsType)
  }

  /** The three shared tables exist once some table could be stored. */
  lemma {:induction false} RunCreatesIff(s: Scheme, states: seq<State>, events: seq<Event>, name: string, b: nat)
    requires Run(s, states, events) && b <= |events| && name in {ROW_TABLE, VALUE_TABLE, COLUMN_TABLE}
    ensures name in states[b].catalog <==> name in states[0].catalog || AnyStored(s, events, b)
    decreases b
  {
    hide Step, WellFormed, Storable, Uploaded;
    if b > 0 {
      var t := events[b - 1].t;
      RunCreatesIff(s, states, events, name, b - 1);
      RunStepAt(s, states, events, b - 1);
      if Storable(s, t.table, t.columnsType) {
        var mid := StepMiddle(s, states[b - 1], events[b - 1], states[b]);
        var r, v, c := UploadParts(s, states[b - 1].catalog, t, mid);
      }
    }
  }

  // ----- names that are new -----

  /** Every list under the keys of a name is empty. */
  ghost predicate NothingUnder(cat: Catalog, n: string) {
    && (forall i: nat {:trigger Indexed(n, i)} ::
          Get(Lookup(cat, ROW_TABLE), Indexed(n, i)) == [] == Get(Lookup(cat, COLUMN_TABLE), Indexed(n, i)))
    && (forall c: nat, v {:trigger ValueKey(n, c, v)} :: Get(Lookup(cat, VALUE_TABLE), ValueKey(n, c, v)) == [])
  }

  lemma NothingAtFirst(n: string)
    ensures NothingUnder(map[], n)
  {
  }

  lemma StillNothing(cat: Catalog, next: Catalog, n: string)
    requires NothingUnder(cat, n) && SameLists(cat, next, n)
    ensures NothingUnder(next, n)
  {
    hide Indexed, ValueKey, Lookup, Get;
    assert forall i: nat ::
      && SameList(Lookup(cat, ROW_TABLE), Lookup(next, ROW_TABLE), Indexed(n, i))
      && SameList(Lookup(cat, COLUMN_TABLE), Lookup(next, COLUMN_TABLE), Indexed(n, i));
    assert forall c: nat, v :: SameList(Lookup(cat, VALUE_TABLE), Lookup(next, VALUE_TABLE), ValueKey(n, c, v));
  }

  lemma NothingIsNotLonger(cat: Catalog, t: Table)
    requires WellFormed(t.table, t.columnsType) && NothingUnder(cat, t.name)
    ensures NothingLonger(cat, t)
  {
    hide Indexed, ValueKey, Lookup;
  }

  /** A table uploaded once, under a name that is new, is served exactly when all its cells could be
      stored; when one could not, its keys find nothing. */
  lemma NewNameServesIff(s: Scheme, states: seq<State>, events: seq<Event>, i: nat)
    requires Run(s, states, events) && i < |events| && NamesApart(events)
    requires NothingUnder(states[0].catalog, events[i].t.name)
    ensures WellFormed(events[i].t.table, events[i].t.columnsType)
    ensures Serves(s, Last(states).catalog, events[i].t) <==> Storable(s, events[i].t.table, events[i].t.columnsType)
    ensures !Storable(s, events[i].t.table, events[i].t.columnsType) ==>
              NothingUnder(Last(states).catalog, events[i].t.name)
  {
    hide Step, Apart, Serves, Storable, NothingLonger, NothingUnder, WellFormed, SameLists, NothingShrank;
    var t := events[i].t;
    RunStepAt(s, states, events, i);
    NamesApartFrom(events, i);
    NothingIsNotLonger(states[0].catalog, t);
    RunServesIff(s, states, events, i);
    if !Storable(s, t.table, t.columnsType) {
      RunKeeps(s, states, events, t.name, 0, i);
      RunKeeps(s, states, events, t.name, i + 1, |events|);
      SameListsChain(states[0].catalog, states[i].catalog, Last(states).catalog, t.name);
      StillNothing(states[0].catalog, Last(states).catalog, t.name);
    }
  }

  /** A table that an earlier client left in the database is served as before by a run that does not use
      its name. */
  lemma RunServesOthers(s: Scheme, states: seq<State>, events: seq<Event>, u: Table)
    requires Run(s, states, events) && WellFormed(u.table, u.columnsType)
    requires forall i :: 0 <= i < |events| ==> Apart(events[i].t.name, u.name)
    ensures Serves(s, Last(states).catalog, u) <==> Serves(s, states[0].catalog, u)
  {
    hide Step, Apart, Serves, SameLists, WellFormed;
    RunKeeps(s, states, events, u.name, 0, |events|);
    SameListsServe(s, states[0].catalog, Last(states).catalog, u);
  }

  // ----- conservation -----

  lemma NewKeys(s: Scheme, cat: Catalog, t: Table, r: MultiMap, v: MultiMap, c: MultiMap)
    requires WellFormed(t.table, t.columnsType) && AreIndexes(s, t, r, v, c) && NothingUnder(cat, t.name)
    ensures forall k :: k in r ==> Get(Lookup(cat, ROW_TABLE), k) == []
    ensures forall k :: k in v ==> Get(Lookup(cat, VALUE_TABLE), k) == []
    ensures forall k :: k in c ==> Get(Lookup(cat, COLUMN_TABLE), k) == []
  {
    hide Indexed, ValueKey, Lookup, Get, RowEncodes, ColEncodes, RowTags, Matches, Total, Area;
    forall k | k in r ensures Get(Lookup(cat, ROW_TABLE), k) == [] {
      var i: nat :| i < |t.table| && k == Indexed(t.name, i);
    }
    forall k | k in v ensures Get(Lookup(cat, VALUE_TABLE), k) == [] {
      var d: nat, q: nat :| d < |t.table[0]| && q < |t.table| && k == ValueKey(t.name, d, t.table[q][d]);
    }
    forall k | k in c ensures Get(Lookup(cat, COLUMN_TABLE), k) == [] {
      var i: nat :| i < |t.table[0]| && k == Indexed(t.name, i);
    }
  }

  /** An upload under a new name adds exactly its rows times its stored columns to the row and to the
      column store, and its rows times all its columns to the value store. */
  lemma UploadConserves(s: Scheme, cat: Catalog, t: Table, next: Catalog)
    requires WellFormed(t.table, t.columnsType) && Uploaded(s, cat, t, next) && NothingUnder(cat, t.name)
    ensures var stored := Position(t.columnsType, |t.table[0]|);
            && Total(Lookup(next, ROW_TABLE)) == Total(Lookup(cat, ROW_TABLE)) + |t.table| * stored
            && Total(Lookup(next, COLUMN_TABLE)) == Total(Lookup(cat, COLUMN_TABLE)) + |t.table| * stored
            && Total(Lookup(next, VALUE_TABLE)) == Total(Lookup(cat, VALUE_TABLE)) + |t.table| * |t.table[0]|
  {
    hide Uploaded, NothingUnder, Total, Overlay, Lookup, IsRowIndex, IsColIndex, IsValueIndex, Area, Position;
    var r, v, c := UploadParts(s, cat, t, next);
    NewKeys(s, cat, t, r, v, c);
    OverlayNewTotal(Lookup(cat, ROW_TABLE), r);
    OverlayNewTotal(Lookup(cat, VALUE_TABLE), v);
    OverlayNewTotal(Lookup(cat, COLUMN_TABLE), c);
    AreaIsProduct(|t.table|, Position(t.columnsType, |t.table[0]|));
    AreaIsProduct(|t.table|, |t.table[0]|);
  }

  /** The cells of stored types of all tables among the first `b` uploads that could be stored. */
  ghost function StoredCells(s: Scheme, events: seq<Event>, b: nat): nat
    requires b <= |events|
  {
    if b == 0 then 0
    else
      var t := events[b - 1].t;
      StoredCells(s, events, b - 1)
      + if WellFormed(t.table, t.columnsType) && Storable(s, t.table, t.columnsType)
        then |t.table| * Position(t.columnsType, |t.table[0]|) else 0
  }

  /** All their cells. */
  ghost function AllCells(s: Scheme, events: seq<Event>, b: nat): nat
    requires b <= |events|
  {
    if b == 0 then 0
    else
      var t := events[b - 1].t;
      AllCells(s, events, b - 1)
      + if WellFormed(t.table, t.columnsType) && Storable(s, t.table, t.columnsType)
        then |t.table| * |t.table[0]| else 0
  }

  lemma {:induction false} RunTotals(s: Scheme, states: seq<State>, events: seq<Event>, b: nat)
    requires Run(s, states, events) && NamesApart(events) && b <= |events|
    requires forall i :: 0 <= i < |events| ==> NothingUnder(states[0].catalog, events[i].t.name)
    ensures Total(Lookup(states[b].catalog, ROW_TABLE))
         == Total(Lookup(states[0].catalog, ROW_TABLE)) + StoredCells(s, events, b)
    ensures Total(Lookup(states[b].catalog, COLUMN_TABLE))
         == Total(Lookup(states[0].catalog, COLUMN_TABLE)) + StoredCells(s, events, b)
    ensures Total(Lookup(states[b].catalog, VALUE_TABLE))
         == Total(Lookup(states[0].catalog, VALUE_TABLE)) + AllCells(s, events, b)
    decreases b
  {
    hide Step, Apart, Storable, NothingUnder, WellFormed, SameLists, Total, Lookup, Position, Uploaded;
    if b > 0 {
      var t := events[b - 1].t;
      RunTotals(s, states, events, b - 1);
      RunStepAt(s, states, events, b - 1);
      if Storable(s, t.table, t.columnsType) {
        var mid := StepMiddle(s, states[b - 1], events[b - 1], states[b]);
        RunKeeps(s, states, events, t.name, 0, b - 1);
        StillNothing(states[0].catalog, states[b - 1].catalog, t.name);
        UploadConserves(s, states[b - 1].catalog, t, mid);
      }
    }
  }

  /** Conservation: after any run under new names, the three stored tables have grown by exactly one row
      for each cell that was uploaded: the row and the column table for the cells of stored types, the
      value table for all. */
  lemma RunConserves(s: Scheme, states: seq<State>, events: seq<Event>, before: StoredTables, after: StoredTables)
    requires Assumptions(s) && Run(s, states, events) && NamesApart(events)
    requires forall i :: 0 <= i < |events| ==> NothingUnder(states[0].catalog, events[i].t.name)
    requires Represents(s, states[0].catalog, before) && Represents(s, Last(states).catalog, after)
    ensures |RowsOf(after, ROW_TABLE)| == |RowsOf(before, ROW_TABLE)| + StoredCells(s, events, |events|)
    ensures |RowsOf(after, COLUMN_TABLE)| == |RowsOf(before, COLUMN_TABLE)| + StoredCells(s, events, |events|)
    ensures |RowsOf(after, VALUE_TABLE)| == |RowsOf(before, VALUE_TABLE)| + AllCells(s, events, |events|)
  {
    hide Step, NamesApart, NothingUnder, Assumptions, Represents, Total, Lookup, StoredCells, AllCells, RowsOf;
    RunTotals(s, states, events, |events|);
    StoreSizes(s, states[0].catalog, before);
    StoreSizes(s, Last(states).catalog, after);
  }

  lemma StoreSizes(s: Scheme, cat: Catalog, tables: StoredTables)
    requires Assumptions(s) && Represents(s, cat, tables)
    ensures forall n :: |RowsOf(tables, n)| == Total(Lookup(cat, n))
  {
    hide Represents, Total, Lookup, RowsOf, EntriesDistinct, LabelsDistinct, IsFlat, Fits;
    EntriesAreDistinct(s);
    LabelsAreDistinct(s);
    forall n ensures |RowsOf(tables, n)| == Total(Lookup(cat, n)) {
      StoreOf(s, cat, tables, n);
      FlatSize(s, Lookup(cat, n), RowsOf(tables, n));
    }
  }
}
