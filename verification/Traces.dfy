/** The same conditions in plaintext: which rows and numbers of older tables are left, from the history of
    the uploads alone. */
module Traces {
  import opened Wrappers
  import opened Numerals
  import opened Keys
  import opened Scheme
  import opened Tables
  import opened MultiMaps
  import opened Stores
  import opened DataMapper
  import opened Catalogs
  import opened Sums
  import opened Executor
  import opened Planner
  import opened Service
  import opened Serving
  import opened CrossProducts
  import opened Queries
  import opened Reuploads
  import opened Leftovers
  import opened Runs
  import opened Joins
  import opened Histories

  /** A list written over the front of an older one. */
  function Onto(next: seq<nat>, prior: seq<nat>): seq<nat> {
    next + Beyond(prior, |next|)
  }

  lemma RowTagsOnto(s: Scheme, name: string, next: seq<nat>, prior: seq<nat>)
    ensures RowTags(s, name, next) + Beyond(RowTags(s, name, prior), |next|) == RowTags(s, name, Onto(next, prior))
  {
    hide Tag, Indexed;
    BeyondRowTags(s, name, prior, |next|);
    RowTagsConcat(s, name, next, Beyond(prior, |next|));
  }

  // ----- the row numbers under a value key -----

  /** The rows that the list at `n,c,v` names after `b` uploads, if it named `before` at first. */
  ghost function ValueRows(s: Scheme, before: seq<nat>, events: seq<Event>, b: nat, n: string, c: nat,
      v: string): seq<nat>
    requires b <= |events|
  {
    if b == 0 then before
    else
      var rows := ValueRows(s, before, events, b - 1, n, c, v);
      if StoredUnder(s, events[b - 1].t, n) then Onto(RowsWith(events[b - 1].t, c, v), rows) else rows
  }

  lemma {:induction false} RunValueRows(s: Scheme, states: seq<State>, events: seq<Event>, b: nat, n: string, c: nat,
      v: string, before: seq<nat>)
    requires Run(s, states, events) && b <= |events| && OthersApart(events, n)
    requires Get(Lookup(states[0].catalog, VALUE_TABLE), ValueKey(n, c, v)) == RowTags(s, n, before)
    ensures Get(Lookup(states[b].catalog, VALUE_TABLE), ValueKey(n, c, v))
         == RowTags(s, n, ValueRows(s, before, events, b, n, c, v))
    decreases b
  {
    hide Step, Apart, WellFormed, Storable, OnTop, ValueKey, RowTags, RowsWith, Onto, Lookup;
    if b > 0 {
      var t := events[b - 1].t;
      RunValueRows(s, states, events, b - 1, n, c, v, before);
      RunStepAt(s, states, events, b - 1);
      if StoredUnder(s, t, n) {
        StepOnTop(s, states[b - 1], events[b - 1], states[b]);
        ValuesAt(s, states[b - 1].catalog, states[b].catalog, t, c, v);
        RowTagsOnto(s, n, RowsWith(t, c, v), ValueRows(s, before, events, b - 1, n, c, v));
      } else if t.name != n {
        StepKeeps(s, states[b - 1], events[b - 1], states[b], n);
        SameValues(states[b - 1].catalog, states[b].catalog, n, c, v);
      }
    }
  }

  lemma ValuesAt(s: Scheme, cat: Catalog, next: Catalog, t: Table, c: nat, v: string)
    requires WellFormed(t.table, t.columnsType) && OnTop(s, cat, next, t)
    ensures Get(Lookup(next, VALUE_TABLE), ValueKey(t.name, c, v))
         == RowTags(s, t.name, RowsWith(t, c, v)) + LeftRows(cat, t, c, v)
  {
  }

  lemma SameValues(cat: Catalog, next: Catalog, n: string, c: nat, v: string)
    requires SameLists(cat, next, n)
    ensures Get(Lookup(next, VALUE_TABLE), ValueKey(n, c, v)) == Get(Lookup(cat, VALUE_TABLE), ValueKey(n, c, v))
  {
  }

  // ----- row lists -----

  /** How many entries the list of row `r` has after `b` uploads. */
  ghost function RowSizeAfter(s: Scheme, before: nat, events: seq<Event>, b: nat, n: string, r: nat): nat
    requires b <= |events|
  {
    if b == 0 then before
    else
      var size := RowSizeAfter(s, before, events, b - 1, n, r);
      if StoredUnder(s, events[b - 1].t, n) then Longer(size, RowLength(events[b - 1].t, r)) else size
  }

  lemma {:induction false} RunRowSizes(s: Scheme, states: seq<State>, events: seq<Event>, b: nat, n: string, r: nat)
    requires Run(s, states, events) && b <= |events| && OthersApart(events, n)
    ensures RowSize(states[b].catalog, n, r) == RowSizeAfter(s, RowSize(states[0].catalog, n, r), events, b, n, r)
    decreases b
  {
    hide Step, Apart, WellFormed, Storable, OnTop, RowSize, RowLength;
    if b > 0 {
      var t := events[b - 1].t;
      RunRowSizes(s, states, events, b - 1, n, r);
      RunStepAt(s, states, events, b - 1);
      if StoredUnder(s, t, n) {
        StepOnTop(s, states[b - 1], events[b - 1], states[b]);
        SizeAt(s, states[b - 1].catalog, states[b].catalog, t, r);
      } else if t.name != n {
        StepKeeps(s, states[b - 1], events[b - 1], states[b], n);
        SameSizes(states[b - 1].catalog, states[b].catalog, n, r);
      }
    }
  }

  lemma SizeAt(s: Scheme, cat: Catalog, next: Catalog, t: Table, r: nat)
    requires WellFormed(t.table, t.columnsType) && OnTop(s, cat, next, t)
    ensures RowSize(next, t.name, r) == Longer(RowSize(cat, t.name, r), RowLength(t, r))
    ensures Indexed(t.name, r) in Lookup(cat, ROW_TABLE) || r < |t.table| ==>
              Indexed(t.name, r) in Lookup(next, ROW_TABLE)
  {
    hide Indexed, ValuesOnTop, ColsOnTop, RowLength;
  }

  lemma SameSizes(cat: Catalog, next: Catalog, n: string, r: nat)
    requires SameLists(cat, next, n)
    ensures RowSize(next, n, r) == RowSize(cat, n, r)
    ensures Indexed(n, r) in Lookup(next, ROW_TABLE) <==> Indexed(n, r) in Lookup(cat, ROW_TABLE)
  {
    hide Indexed, ValueKey;
    assert SameList(Lookup(cat, ROW_TABLE), Lookup(next, ROW_TABLE), Indexed(n, r));
  }

  /** A row that a value list names was named at first or is stored. */
  lemma {:induction false} ValueRowsAreStored(s: Scheme, states: seq<State>, events: seq<Event>, b: nat, n: string,
      c: nat, v: string, before: seq<nat>, r: nat)
    requires Run(s, states, events) && b <= |events| && OthersApart(events, n)
    requires r in ValueRows(s, before, events, b, n, c, v)
    ensures r in before || Indexed(n, r) in Lookup(states[b].catalog, ROW_TABLE)
    decreases b
  {
    hide Step, Apart, WellFormed, Storable, OnTop, Indexed, RowsWith, Lookup;
    if b > 0 {
      var t := events[b - 1].t;
      RunStepAt(s, states, events, b - 1);
      if r in ValueRows(s, before, events, b - 1, n, c, v) {
        ValueRowsAreStored(s, states, events, b - 1, n, c, v, before, r);
      }
      if StoredUnder(s, t, n) {
        StepOnTop(s, states[b - 1], events[b - 1], states[b]);
        SizeAt(s, states[b - 1].catalog, states[b].catalog, t, r);
        RowsWithBelow(t, c, v);
        OntoMembers(RowsWith(t, c, v), ValueRows(s, before, events, b - 1, n, c, v), r);
      } else if t.name != n {
        StepKeeps(s, states[b - 1], events[b - 1], states[b], n);
        SameSizes(states[b - 1].catalog, states[b].catalog, n, r);
      }
    }
  }

  lemma OntoMembers(next: seq<nat>, prior: seq<nat>, r: nat)
    ensures r in Onto(next, prior) ==> r in next || r in prior
  {
  }

  lemma {:induction false} RowStays(s: Scheme, states: seq<State>, events: seq<Event>, i: nat, b: nat, n: string,
      r: nat)
    requires Run(s, states, events) && i <= b <= |events| && OthersApart(events, n)
    requires Indexed(n, r) in Lookup(states[i].catalog, ROW_TABLE)
    ensures Indexed(n, r) in Lookup(states[b].catalog, ROW_TABLE)
    decreases b
  {
    hide Step, Apart, WellFormed, Storable, OnTop, Indexed, Lookup;
    if i < b {
      var t := events[b - 1].t;
      RowStays(s, states, events, i, b - 1, n, r);
      RunStepAt(s, states, events, b - 1);
      if StoredUnder(s, t, n) {
        StepOnTop(s, states[b - 1], events[b - 1], states[b]);
        SizeAt(s, states[b - 1].catalog, states[b].catalog, t, r);
      } else if t.name != n {
        StepKeeps(s, states[b - 1], events[b - 1], states[b], n);
        SameSizes(states[b - 1].catalog, states[b].catalog, n, r);
      }
    }
  }

  /** The tags of rows are in scope. */
  ghost predicate RowsInScope(s: Scheme, n: string, rs: seq<nat>) {
    forall i :: 0 <= i < |rs| ==> Tag(s, Indexed(n, rs[i])) in s.tags
  }

  lemma ValueRowsInScope(s: Scheme, states: seq<State>, events: seq<Event>, tables: StoredTables, i: nat, n: string,
      c: nat, v: string, before: seq<nat>)
    requires Run(s, states, events) && i <= |events| && OthersApart(events, n) && RowsInScope(s, n, before)
    requires Represents(s, Last(states).catalog, tables)
    ensures RowsInScope(s, n, ValueRows(s, before, events, i, n, c, v))
  {
    hide Run, OthersApart, Represents, Tag, Indexed, ValueRows, Lookup;
    RunStates(s, states, events);
    var rs := ValueRows(s, before, events, i, n, c, v);
    forall k | 0 <= k < |rs| ensures Tag(s, Indexed(n, rs[k])) in s.tags {
      ValueRowsAreStored(s, states, events, i, n, c, v, before, rs[k]);
      if Indexed(n, rs[k]) in Lookup(states[i].catalog, ROW_TABLE) {
        RowStays(s, states, events, i, |events|, n, rs[k]);
        StoredRow(s, Last(states).catalog, tables, Indexed(n, rs[k]));
      }
    }
  }

  // ----- select -----

  /** None of the rows has ever had an entry `p`: not before the run, and not in a table of the name. */
  ghost predicate NeverReaches(s: Scheme, start: Catalog, events: seq<Event>, n: string, rs: seq<nat>, p: nat) {
    forall i :: 0 <= i < |rs| ==> RowSizeAfter(s, RowSize(start, n, rs[i]), events, |events|, n, rs[i]) <= p
  }

  lemma NeverReachesIff(s: Scheme, states: seq<State>, events: seq<Event>, n: string, rs: seq<nat>, p: nat)
    requires Run(s, states, events) && OthersApart(events, n)
    ensures NeverReaches(s, states[0].catalog, events, n, rs, p) <==> TooShort(Last(states).catalog, n, rs, p)
  {
    hide Run, OthersApart, RowSize, RowSizeAfter;
    RunStates(s, states, events);
    forall i | 0 <= i < |rs|
      ensures RowSize(Last(states).catalog, n, rs[i])
           == RowSizeAfter(s, RowSize(states[0].catalog, n, rs[i]), events, |events|, n, rs[i])
    {
      RunRowSizes(s, states, events, |events|, n, rs[i]);
    }
  }

  /** After any run, with names repeated at will: a select query on the last stored table of a name finds the
      plaintext answer exactly when no older row that is left behind the selected ones ever had the entry
      asked for. `before` are the rows that the list held before the run, none for a new name. */
  lemma RunSelectIff(s: Scheme, states: seq<State>, events: seq<Event>, tables: StoredTables, i: nat, c: nat, v: string,
                     p: nat, resultType: string, before: seq<nat>)
    requires Assumptions(s) && Run(s, states, events) && i < |events| && OthersApart(events, events[i].t.name)
    requires Represents(s, Last(states).catalog, tables)
    requires IsLastStored(s, events, i) && WellFormed(events[i].t.table, events[i].t.columnsType)
    requires p < Position(events[i].t.columnsType, |events[i].t.table[0]|)
    requires Tag(s, ValueKey(events[i].t.name, c, v)) in s.tags && RowsInScope(s, events[i].t.name, before)
    requires Get(Lookup(states[0].catalog, VALUE_TABLE), ValueKey(events[i].t.name, c, v))
          == RowTags(s, events[i].t.name, before)
    ensures LabelsDistinct(s)
    ensures var t := events[i].t;
            var left := Beyond(ValueRows(s, before, events, i, t.name, c, v), |RowsWith(t, c, v)|);
            Finds(s, RunPlans(s, tables, SelectPlan(s, t.name, c, v, p, resultType), None), t,
                  ColumnAt(t.columnsType, |t.table[0]|, p), RowsWith(t, c, v))
            <==> NeverReaches(s, states[0].catalog, events, t.name, left, p)
  {
    hide Assumptions, Run, OthersApart, Represents, Tag, ValueKey, Indexed, RunPlans, SelectPlan, Finds, RowsWith,
      FieldsOf, Position, ColumnAt, Dec, IsLastStored, RowTags, ValueRows, OnTop, NeverReaches, LabelsDistinct, Lookup;
    var t := events[i].t;
    RunStates(s, states, events);
    RunOnTop(s, states, events, i, |events|);
    SelectQueryOverIff(s, states[i].catalog, Last(states).catalog, tables, t, c, v, p, resultType);
    var left := LeftRowsTraced(s, states, events, tables, i, c, v, before);
    OnTopStores(s, states[i].catalog, Last(states).catalog, t);
    EntryInLimit(s, Last(states).catalog, tables, t, p);
    FieldsMissingIff(s, Last(states).catalog, tables, t.name, left, p);
    NeverReachesIff(s, states, events, t.name, left, p);
  }

  /** What is left behind the selected rows, as row numbers. */
  lemma LeftRowsTraced(s: Scheme, states: seq<State>, events: seq<Event>, tables: StoredTables, i: nat, c: nat,
      v: string, before: seq<nat>) returns (left: seq<nat>)
    requires Run(s, states, events) && i < |events| && OthersApart(events, events[i].t.name)
    requires Represents(s, Last(states).catalog, tables) && WellFormed(events[i].t.table, events[i].t.columnsType)
    requires RowsInScope(s, events[i].t.name, before)
    requires Get(Lookup(states[0].catalog, VALUE_TABLE), ValueKey(events[i].t.name, c, v))
          == RowTags(s, events[i].t.name, before)
    ensures var t := events[i].t;
            && left == Beyond(ValueRows(s, before, events, i, t.name, c, v), |RowsWith(t, c, v)|)
            && LeftRows(states[i].catalog, t, c, v) == RowTags(s, t.name, left)
            && RowsInScope(s, t.name, left)
  {
    hide Run, OthersApart, Represents, Tag, ValueKey, Indexed, RowsWith, RowTags, ValueRows, Lookup;
    var t := events[i].t;
    RunStates(s, states, events);
    RunValueRows(s, states, events, i, t.name, c, v, before);
    ValueRowsInScope(s, states, events, tables, i, t.name, c, v, before);
    var rows := ValueRows(s, before, events, i, t.name, c, v);
    left := Beyond(rows, |RowsWith(t, c, v)|);
    BeyondRowTags(s, t.name, rows, |RowsWith(t, c, v)|);
    assert forall k :: 0 <= k < |left| ==> left[k] == rows[|RowsWith(t, c, v)| + k];
  }

  /** Every stored table of the name has more than `p` stored columns. */
  ghost predicate AlwaysReaches(s: Scheme, events: seq<Event>, n: string, p: nat) {
    forall j :: 0 <= j < |events| && StoredUnder(s, events[j].t, n) ==>
      p < Position(events[j].t.columnsType, |events[j].t.table[0]|)
  }

  lemma {:induction false} SizeGrows(s: Scheme, before: nat, events: seq<Event>, a: nat, b: nat, n: string, r: nat)
    requires a <= b <= |events|
    ensures RowSizeAfter(s, before, events, a, n, r) <= RowSizeAfter(s, before, events, b, n, r)
    decreases b
  {
    hide StoredUnder, RowLength;
    if a < b {
      SizeGrows(s, before, events, a, b - 1, n, r);
    }
  }

  /** So every row that a value list names reaches entry `p`. */
  lemma {:induction false} ValueRowsReach(s: Scheme, size: nat, events: seq<Event>, b: nat, n: string, c: nat,
      v: string, p: nat, r: nat)
    requires b <= |events| && AlwaysReaches(s, events, n, p) && r in ValueRows(s, [], events, b, n, c, v)
    ensures p < RowSizeAfter(s, size, events, b, n, r)
    decreases b
  {
    hide WellFormed, Storable, RowsWith, Position;
    if b > 0 {
      var t := events[b - 1].t;
      if r in ValueRows(s, [], events, b - 1, n, c, v) {
        ValueRowsReach(s, size, events, b - 1, n, c, v, p, r);
      } else if StoredUnder(s, t, n) {
        OntoMembers(RowsWith(t, c, v), ValueRows(s, [], events, b - 1, n, c, v), r);
        RowsWithBelow(t, c, v);
      }
    }
  }

  /** No table of the name among the first `b` had the text more often. */
  ghost predicate NeverMore(s: Scheme, events: seq<Event>, b: nat, n: string, c: nat, v: string, count: nat)
    requires b <= |events|
  {
    forall j :: 0 <= j < b && StoredUnder(s, events[j].t, n) ==> ValueCount(events[j].t, c, v) <= count
  }

  lemma {:induction false} ValueRowsCount(s: Scheme, events: seq<Event>, b: nat, n: string, c: nat, v: string,
      count: nat)
    requires b <= |events|
    ensures |ValueRows(s, [], events, b, n, c, v)| <= count <==> NeverMore(s, events, b, n, c, v, count)
    decreases b
  {
    hide WellFormed, Storable, Matches;
    if b > 0 {
      ValueRowsCount(s, events, b - 1, n, c, v, count);
    }
  }

  /** For a name that was new at first and tables that all store the entry asked for: a select query finds
      the plaintext answer exactly when the text was never more frequent in its column. */
  lemma RepeatedSelectIff(s: Scheme, states: seq<State>, events: seq<Event>, tables: StoredTables, i: nat, c: nat,
                          v: string, p: nat, resultType: string)
    requires Assumptions(s) && Run(s, states, events) && i < |events| && OthersApart(events, events[i].t.name)
    requires Represents(s, Last(states).catalog, tables) && NothingUnder(states[0].catalog, events[i].t.name)
    requires IsLastStored(s, events, i) && WellFormed(events[i].t.table, events[i].t.columnsType)
    requires AlwaysReaches(s, events, events[i].t.name, p) && Tag(s, ValueKey(events[i].t.name, c, v)) in s.tags
    ensures LabelsDistinct(s) && p < Position(events[i].t.columnsType, |events[i].t.table[0]|)
    ensures var t := events[i].t;
            Finds(s, RunPlans(s, tables, SelectPlan(s, t.name, c, v, p, resultType), None), t,
                  ColumnAt(t.columnsType, |t.table[0]|, p), RowsWith(t, c, v))
            <==> NeverMore(s, events, i, t.name, c, v, ValueCount(t, c, v))
  {
    hide Assumptions, Run, OthersApart, Represents, Tag, ValueKey, Indexed, RunPlans, SelectPlan, Finds, Position,
      ColumnAt, ValueRows, LabelsDistinct, Lookup, WellFormed, Storable, NeverMore, RowSizeAfter, Matches, RowSize;
    var t := events[i].t;
    RunStates(s, states, events);
    assert |RowTags(s, t.name, [])| == 0;
    RunSelectIff(s, states, events, tables, i, c, v, p, resultType, []);
    var rows := ValueRows(s, [], events, i, t.name, c, v);
    var left := Beyond(rows, |RowsWith(t, c, v)|);
    ValueRowsCount(s, events, i, t.name, c, v, ValueCount(t, c, v));
    forall k | 0 <= k < |left|
      ensures p < RowSizeAfter(s, RowSize(states[0].catalog, t.name, left[k]), events, |events|, t.name, left[k])
    {
      assert left[k] in rows;
      ValueRowsReach(s, RowSize(states[0].catalog, t.name, left[k]), events, i, t.name, c, v, p, left[k]);
      SizeGrows(s, RowSize(states[0].catalog, t.name, left[k]), events, i, |events|, t.name, left[k]);
    }
    assert left != [] ==>
        p < RowSizeAfter(s, RowSize(states[0].catalog, t.name, left[0]), events, |events|, t.name, left[0]);
  }

  // ----- join -----

  /** The rows of students that the join list of row `r` names after `b` uploads, if it named `before`. */
  ghost function JoinRows(s: Scheme, before: seq<nat>, states: seq<State>, events: seq<Event>, b: nat, r: nat): seq<nat>
    requires |states| == |events| + 1 && b <= |events|
  {
    if b == 0 then before
    else
      var rows := JoinRows(s, before, states, events, b - 1, r);
      if Refreshes(s, states, events, b - 1) && JoinReady(states[b].tables)
      then Onto(Partners(states[b].tables[COURSES], 0, states[b].tables[STUDENTS], 2, r), rows) else rows
  }

  lemma {:induction false} RunJoinRows(s: Scheme, states: seq<State>, events: seq<Event>, b: nat, r: nat,
      before: seq<nat>)
    requires Run(s, states, events) && b <= |events|
    requires Get(Lookup(states[0].catalog, PairName()), Indexed(COURSES, r)) == RowTags(s, STUDENTS, before)
    ensures Get(Lookup(states[b].catalog, PairName()), Indexed(COURSES, r))
         == RowTags(s, STUDENTS, JoinRows(s, before, states, events, b, r))
    decreases b
  {
    hide Step, Refreshes, Lookup, PairName, Indexed, RowTags, Onto, Overlay, HasColumn, JoinIn;
    if b > 0 {
      RunJoinRows(s, states, events, b - 1, r, before);
      if Refreshes(s, states, events, b - 1) {
        RefreshedPair(s, states, events, b - 1);
        var j := RefreshStep(s, states, events, b - 1);
        ReadyColumns(states[b].tables);
        var u1, u2 := states[b].tables[COURSES], states[b].tables[STUDENTS];
        JoinOver(s, Lookup(states[b - 1].catalog, PairName()), u1, 0, u2, 2, j);
        JoinAt(s, Lookup(states[b - 1].catalog, PairName()), Lookup(states[b].catalog, PairName()), u1, u2, r);
        RowTagsOnto(s, STUDENTS, Partners(u1, 0, u2, 2, r), JoinRows(s, before, states, events, b - 1, r));
      } else {
        QuietStep(s, states, events, b - 1);
      }
    }
  }

  lemma JoinAt(s: Scheme, a: MultiMap, b: MultiMap, t1: Table, t2: Table, r: nat)
    requires HasColumn(t1.table, 0) && HasColumn(t2.table, 2) && JoinOnTop(s, a, b, t1, 0, t2, 2)
    ensures Get(b, Indexed(t1.name, r))
         == RowTags(s, t2.name, Partners(t1, 0, t2, 2, r)) + LeftPartners(a, t1, 0, t2, 2, r)
  {
  }

  /** The tags of the rows of all uploaded students are in scope, whether they could be stored or not. */
  ghost predicate StudentsInScope(s: Scheme, events: seq<Event>) {
    forall i :: 0 <= i < |events| && events[i].t.name == STUDENTS ==> TableInScope(s, events[i].t)
  }

  ghost predicate TableInScope(s: Scheme, t: Table) {
    forall r: nat :: r < |t.table| ==> Tag(s, Indexed(t.name, r)) in s.tags
  }

  lemma {:induction false} RememberedInScope(s: Scheme, states: seq<State>, events: seq<Event>, b: nat)
    requires Run(s, states, events) && b <= |events| && StudentsInScope(s, events)
    ensures STUDENTS in states[b].tables ==> TableInScope(s, states[b].tables[STUDENTS])
    decreases b
  {
    hide Step, TableInScope;
    if b > 0 {
      RememberedInScope(s, states, events, b - 1);
      RunStepAt(s, states, events, b - 1);
    }
  }

  lemma {:induction false} JoinRowsInScope(s: Scheme, states: seq<State>, events: seq<Event>, b: nat, r: nat,
      before: seq<nat>)
    requires Run(s, states, events) && b <= |events| && StudentsInScope(s, events) && RowsInScope(s, STUDENTS, before)
    ensures RowsInScope(s, STUDENTS, JoinRows(s, before, states, events, b, r))
    decreases b
  {
    hide Step, Refreshes, Tag, Indexed, HasColumn, Partners, TableInScope, StudentsInScope;
    if b > 0 {
      JoinRowsInScope(s, states, events, b - 1, r, before);
      if Refreshes(s, states, events, b - 1) && JoinReady(states[b].tables) {
        RefreshedPair(s, states, events, b - 1);
        ReadyColumns(states[b].tables);
        RememberedInScope(s, states, events, b);
        RunNames(s, states, events, b);
        PartnersInScope(s, states[b].tables[COURSES], states[b].tables[STUDENTS], r);
      }
    }
  }

  lemma PartnersInScope(s: Scheme, t1: Table, t2: Table, r: nat)
    requires HasColumn(t1.table, 0) && HasColumn(t2.table, 2) && t2.name == STUDENTS && TableInScope(s, t2)
    ensures RowsInScope(s, STUDENTS, Partners(t1, 0, t2, 2, r))
  {
    hide Tag, Indexed;
    if r < |t1.table| {
      MatchesBelow(t2.table, 2, t1.table[r][0], |t2.table|);
    }
  }

  /** What is left behind the partners of row `r` after `m` uploads. */
  ghost function PartnersLeft(s: Scheme, states: seq<State>, events: seq<Event>, t1: Table, t2: Table, m: nat,
      partners: nat -> seq<nat>, r: nat): seq<nat>
    requires |states| == |events| + 1 && m <= |events| && HasColumn(t1.table, 0) && HasColumn(t2.table, 2)
  {
    Beyond(JoinRows(s, partners(r), states, events, m, r), |Partners(t1, 0, t2, 2, r)|)
  }

  /** Nothing that is left of older tables spoils the join query: no older row behind the partners of a
      selected row, and no partner of an older row behind the selected ones, ever had the entry asked for. */
  ghost predicate JoinUnspoilt(s: Scheme, states: seq<State>, events: seq<Event>, a: nat, b: nat, m: nat, c: nat,
      v: string, p: nat, before: seq<nat>, partners: nat -> seq<nat>)
    requires |states| == |events| + 1 && a < |events| && b < |events| && m < |events|
    requires WellFormed(events[a].t.table, events[a].t.columnsType)
    requires HasColumn(events[a].t.table, 0) && HasColumn(events[b].t.table, 2)
  {
    var t1, t2 := events[a].t, events[b].t;
    var selected := RowsWith(t1, c, v);
    var left := Beyond(ValueRows(s, before, events, a, COURSES, c, v), |selected|);
    && (forall i :: 0 <= i < |selected| ==>
          NeverReaches(s, states[0].catalog, events, STUDENTS,
                       PartnersLeft(s, states, events, t1, t2, m, partners, selected[i]), p))
    && (forall i :: 0 <= i < |left| ==>
          NeverReaches(s, states[0].catalog, events, STUDENTS,
                       JoinRows(s, partners(left[i]), states, events, |events|, left[i]), p))
  }

  /** What the join store held before the run: rows of students, with tags in scope. */
  ghost predicate StartsWith(s: Scheme, start: Catalog, partners: nat -> seq<nat>) {
    forall r: nat {:trigger Indexed(COURSES, r)} ::
      && Get(Lookup(start, PairName()), Indexed(COURSES, r)) == RowTags(s, STUDENTS, partners(r))
      && RowsInScope(s, STUDENTS, partners(r))
  }

  lemma StartsAt(s: Scheme, start: Catalog, partners: nat -> seq<nat>, r: nat)
    requires StartsWith(s, start, partners)
    ensures Get(Lookup(start, PairName()), Indexed(COURSES, r)) == RowTags(s, STUDENTS, partners(r))
    ensures RowsInScope(s, STUDENTS, partners(r))
  {
  }

  lemma PartnersLeftTraced(s: Scheme, states: seq<State>, events: seq<Event>, t1: Table, t2: Table, m: nat,
      partners: nat -> seq<nat>, r: nat)
    requires Run(s, states, events) && m <= |events| && StartsWith(s, states[0].catalog, partners)
    requires StudentsInScope(s, events) && t1.name == COURSES && t2.name == STUDENTS
    requires HasColumn(t1.table, 0) && HasColumn(t2.table, 2)
    ensures LeftPartners(Lookup(states[m].catalog, PairName()), t1, 0, t2, 2, r)
         == RowTags(s, STUDENTS, PartnersLeft(s, states, events, t1, t2, m, partners, r))
    ensures RowsInScope(s, STUDENTS, PartnersLeft(s, states, events, t1, t2, m, partners, r))
  {
    hide Run, Indexed, RowTags, Lookup, JoinRows, Partners, PairName, StartsWith, StudentsInScope, Tag;
    RunStates(s, states, events);
    StartsAt(s, states[0].catalog, partners, r);
    RunJoinRows(s, states, events, m, r, partners(r));
    JoinRowsInScope(s, states, events, m, r, partners(r));
    var rows := JoinRows(s, partners(r), states, events, m, r);
    var n := |Partners(t1, 0, t2, 2, r)|;
    BeyondRowTags(s, STUDENTS, rows, n);
    assert forall k :: 0 <= k < |Beyond(rows, n)| ==> Beyond(rows, n)[k] == rows[n + k];
  }

  lemma PartnersClearIff(s: Scheme, states: seq<State>, events: seq<Event>, tables: StoredTables, t1: Table, t2: Table,
      m: nat, p: nat, partners: nat -> seq<nat>, rs: seq<nat>)
    requires Assumptions(s) && Run(s, states, events) && m <= |events| && OthersApart(events, STUDENTS)
    requires Represents(s, Last(states).catalog, tables) && ROW_TABLE in Last(states).catalog && p <= s.limit
    requires StartsWith(s, states[0].catalog, partners) && StudentsInScope(s, events)
    requires t1.name == COURSES && t2.name == STUDENTS && HasColumn(t1.table, 0) && HasColumn(t2.table, 2)
    ensures PartnersClear(s, tables, Lookup(states[m].catalog, PairName()), t1, 0, t2, 2, p, rs) <==>
            forall i :: 0 <= i < |rs| ==>
              NeverReaches(s, states[0].catalog, events, STUDENTS,
                           PartnersLeft(s, states, events, t1, t2, m, partners, rs[i]), p)
  {
    hide Assumptions, Run, OthersApart, Represents, Indexed, RowTags, Lookup, FieldsOf, Dec, NeverReaches, PartnersLeft,
      LeftPartners, PairName, StartsWith, StudentsInScope, Tag, RowSize, HasColumn;
    RunStates(s, states, events);
    forall i | 0 <= i < |rs|
      ensures FieldsOf(s, tables, LeftPartners(Lookup(states[m].catalog, PairName()), t1, 0, t2, 2, rs[i]), Dec(p))
              == Some([])
              <==> NeverReaches(s, states[0].catalog, events, STUDENTS,
                                PartnersLeft(s, states, events, t1, t2, m, partners, rs[i]), p)
    {
      PartnersLeftTraced(s, states, events, t1, t2, m, partners, rs[i]);
      var left := PartnersLeft(s, states, events, t1, t2, m, partners, rs[i]);
      FieldsMissingIff(s, Last(states).catalog, tables, STUDENTS, left, p);
      NeverReachesIff(s, states, events, STUDENTS, left, p);
    }
  }

  lemma FollowTracedIff(s: Scheme, states: seq<State>, events: seq<Event>, tables: StoredTables, p: nat,
      partners: nat -> seq<nat>, left: seq<nat>)
    requires Assumptions(s) && LabelsDistinct(s) && Run(s, states, events) && OthersApart(events, STUDENTS)
    requires Represents(s, Last(states).catalog, tables) && ROW_TABLE in Last(states).catalog && p <= s.limit
    requires PairName() in Last(states).catalog && RowsInScope(s, COURSES, left)
    requires StartsWith(s, states[0].catalog, partners) && StudentsInScope(s, events)
    ensures Follow(s, tables, PairName(), RowTags(s, COURSES, left), Dec(p)) == Some([]) <==>
            forall i :: 0 <= i < |left| ==>
              NeverReaches(s, states[0].catalog, events, STUDENTS,
                           JoinRows(s, partners(left[i]), states, events, |events|, left[i]), p)
  {
    hide Assumptions, Run, OthersApart, Represents, Indexed, RowTags, Follow, Dec, NeverReaches, JoinRows,
      LabelsDistinct, PairName, StartsWith, StudentsInScope, Tag, TooShort;
    RunStates(s, states, events);
    var name := PairName();
    var g := (r: nat) => if |states| == |events| + 1 then JoinRows(s, partners(r), states, events, |events|, r) else [];
    forall i | 0 <= i < |left|
      ensures Get(Last(states).catalog[name], Indexed(COURSES, left[i])) == RowTags(s, STUDENTS, g(left[i]))
      ensures forall k :: 0 <= k < |g(left[i])| ==> Tag(s, Indexed(STUDENTS, g(left[i])[k])) in s.tags
      ensures NeverReaches(s, states[0].catalog, events, STUDENTS, g(left[i]), p)
              <==> TooShort(Last(states).catalog, STUDENTS, g(left[i]), p)
    {
      var r := left[i];
      StartsAt(s, states[0].catalog, partners, r);
      RunJoinRows(s, states, events, |events|, r, partners(r));
      JoinRowsInScope(s, states, events, |events|, r, partners(r));
      NeverReachesIff(s, states, events, STUDENTS, g(r), p);
    }
    FollowMissingIff(s, Last(states).catalog, tables, name, COURSES, STUDENTS, g, left, p);
  }

  /** After any run, with names repeated at will, whose last refresh was with tables in which every row has
      the same partners as in the last stored ones: the join query finds the plaintext answer exactly when
      nothing that is left of older tables spoils it. */
  lemma RunJoinQueryIff(s: Scheme, states: seq<State>, events: seq<Event>, tables: StoredTables, a: nat, b: nat, m: nat,
                        c: nat, v: string, p: nat, before: seq<nat>, partners: nat -> seq<nat>)
    requires Assumptions(s) && JoinedBy(s, states, events, a, b, m) && Represents(s, Last(states).catalog, tables)
    requires var t1, t2 := events[a].t, events[b].t;
             && WellFormed(t1.table, t1.columnsType) && WellFormed(t2.table, t2.columnsType)
             && c < |t1.table[0]| && p < Position(t2.columnsType, |t2.table[0]|)
             && Tag(s, ValueKey(COURSES, c, v)) in s.tags
    requires Get(Lookup(states[0].catalog, VALUE_TABLE), ValueKey(COURSES, c, v)) == RowTags(s, COURSES, before)
    requires RowsInScope(s, COURSES, before) && StartsWith(s, states[0].catalog, partners)
    requires StudentsInScope(s, events)
    ensures LabelsDistinct(s)
    ensures var t1, t2 := events[a].t, events[b].t;
            Finds(s, RunPlans(s, tables, JoinPlan(s, COURSES, c, v, 0, STUDENTS, 2, p), None), t2,
                  ColumnAt(t2.columnsType, |t2.table[0]|, p), PlainJoin(t1.table, c, v, 0, t2.table, 2))
            <==> JoinUnspoilt(s, states, events, a, b, m, c, v, p, before, partners)
  {
    hide Assumptions, JoinedBy, Represents, Tag, ValueKey, Indexed, RunPlans, JoinPlan, Finds, PlainJoin, OnTop,
      JoinOnTop, Position, ColumnAt, Lookup, JoinName, RowTags, LabelsDistinct, StartsWith, StudentsInScope,
      RowsInScope, Run, OthersApart, IsLastStored, IsLastRefresh, ValueRows, JoinRows, NeverReaches, Follow,
      PartnersClear, RowsWith, Dec, PartnersLeft, LeftRows;
    JoinedByNames(s, states, events, a, b, m);
    JoinedByStores(s, states, events, a, b, m);
    LabelsAreDistinctNow(s);
    var t1, t2 := events[a].t, events[b].t;
    OnTopStores(s, states[b].catalog, Last(states).catalog, t2);
    EntryInLimit(s, Last(states).catalog, tables, t2, p);
    JoinQueryOverIff(s, states[a].catalog, Last(states).catalog, tables, Lookup(states[m].catalog, PairName()),
                     t1, c, v, 0, t2, 2, p);
    var left := LeftRowsTraced(s, states, events, tables, a, c, v, before);
    PartnersClearIff(s, states, events, tables, t1, t2, m, p, partners, RowsWith(t1, c, v));
    FollowTracedIff(s, states, events, tables, p, partners, left);
  }

  // ----- sum -----

  /** No stored table of the name has text in the column. */
  ghost predicate NoText(s: Scheme, events: seq<Event>, n: string, c: nat) {
    forall i :: 0 <= i < |events| && StoredUnder(s, events[i].t, n) && c < |events[i].t.table[0]| ==>
      events[i].t.columnsType[c] != "string"
  }

  /** The numbers that the list of column `c` holds after `b` uploads, if it held `before`. */
  ghost function ColumnNumbersAfter(s: Scheme, before: seq<nat>, events: seq<Event>, b: nat, n: string,
      c: nat): seq<nat>
    requires b <= |events|
  {
    if b == 0 then before
    else
      var numbers := ColumnNumbersAfter(s, before, events, b - 1, n, c);
      if StoredUnder(s, events[b - 1].t, n) then Onto(NumbersIn(s, events[b - 1].t, c), numbers) else numbers
  }

  /** The ciphertexts hold the numbers. */
  ghost predicate HoldNumbers(s: Scheme, ciphers: seq<string>, numbers: seq<nat>) {
    |ciphers| == |numbers| && forall i :: 0 <= i < |numbers| ==> DecryptsCell(s, numbers[i], ciphers[i])
  }

  lemma ColumnStep(s: Scheme, cat: Catalog, next: Catalog, t: Table, c: nat, numbers: seq<nat>)
    requires Homomorphic(s) && WellFormed(t.table, t.columnsType) && OnTop(s, cat, next, t)
    requires c < |t.table[0]| ==> t.columnsType[c] != "string"
    requires HoldNumbers(s, Get(Lookup(cat, COLUMN_TABLE), Indexed(t.name, c)), numbers)
    ensures HoldNumbers(s, Get(Lookup(next, COLUMN_TABLE), Indexed(t.name, c)), Onto(NumbersIn(s, t, c), numbers))
  {
    hide Indexed, Homomorphic, Lookup, ValuesOnTop, RowsBegin, SizesOnTop, Numerals.Stoi;
    var list := Get(Lookup(next, COLUMN_TABLE), Indexed(t.name, c));
    var prior := Get(Lookup(cat, COLUMN_TABLE), Indexed(t.name, c));
    var left := Beyond(prior, |t.table|);
    if c < |t.table[0]| && t.columnsType[c] == "int" {
      assert forall i :: 0 <= i < |left| ==> left[i] == prior[|t.table| + i];
      CiphersLeft(s, prior, numbers, |t.table|);
      ColumnOnTop(s, cat, next, t, c);
      assert Decrypted(s, left) == Beyond(numbers, |t.table|);
    } else {
      assert list == prior;
      assert Onto([], numbers) == numbers;
    }
  }

  lemma CiphersLeft(s: Scheme, ciphers: seq<string>, numbers: seq<nat>, n: nat)
    requires HoldNumbers(s, ciphers, numbers)
    ensures HoldNumbers(s, Beyond(ciphers, n), Beyond(numbers, n))
    ensures Decrypted(s, Beyond(ciphers, n)) == Beyond(numbers, n)
    ensures forall i :: 0 <= i < |Beyond(ciphers, n)| ==> s.isCipher(Beyond(ciphers, n)[i])
  {
    assert forall i :: 0 <= i < |Beyond(ciphers, n)| ==> Beyond(ciphers, n)[i] == ciphers[n + i];
  }

  lemma {:induction false} RunColumn(s: Scheme, states: seq<State>, events: seq<Event>, b: nat, n: string, c: nat,
      before: seq<nat>)
    requires Homomorphic(s) && Run(s, states, events) && b <= |events| && OthersApart(events, n)
    requires NoText(s, events, n, c)
    requires HoldNumbers(s, Get(Lookup(states[0].catalog, COLUMN_TABLE), Indexed(n, c)), before)
    ensures HoldNumbers(s, Get(Lookup(states[b].catalog, COLUMN_TABLE), Indexed(n, c)),
                        ColumnNumbersAfter(s, before, events, b, n, c))
    decreases b
  {
    hide Homomorphic, Step, Apart, WellFormed, Storable, OnTop, Indexed, NumbersIn, Onto, Lookup, HoldNumbers;
    if b > 0 {
      var t := events[b - 1].t;
      RunColumn(s, states, events, b - 1, n, c, before);
      RunStepAt(s, states, events, b - 1);
      if StoredUnder(s, t, n) {
        StepOnTop(s, states[b - 1], events[b - 1], states[b]);
        ColumnStep(s, states[b - 1].catalog, states[b].catalog, t, c,
                   ColumnNumbersAfter(s, before, events, b - 1, n, c));
      } else if t.name != n {
        StepKeeps(s, states[b - 1], events[b - 1], states[b], n);
        SameColumns(states[b - 1].catalog, states[b].catalog, n, c);
      }
    }
  }

  lemma SameColumns(cat: Catalog, next: Catalog, n: string, c: nat)
    requires SameLists(cat, next, n)
    ensures Get(Lookup(next, COLUMN_TABLE), Indexed(n, c)) == Get(Lookup(cat, COLUMN_TABLE), Indexed(n, c))
  {
    hide Indexed, ValueKey;
    assert SameList(Lookup(cat, COLUMN_TABLE), Lookup(next, COLUMN_TABLE), Indexed(n, c));
  }

  lemma LeftCellsTraced(s: Scheme, states: seq<State>, events: seq<Event>, i: nat, c: nat, before: seq<nat>)
    requires Homomorphic(s) && Run(s, states, events) && i < |events| && OthersApart(events, events[i].t.name)
    requires NoText(s, events, events[i].t.name, c) && |states| == |events| + 1
    requires HoldNumbers(s, Get(Lookup(states[0].catalog, COLUMN_TABLE), Indexed(events[i].t.name, c)), before)
    ensures var left := LeftCells(states[i].catalog, events[i].t, c);
            && Decrypted(s, left)
               == Beyond(ColumnNumbersAfter(s, before, events, i, events[i].t.name, c), |events[i].t.table|)
            && forall k :: 0 <= k < |left| ==> s.isCipher(left[k])
  {
    hide Homomorphic, Run, OthersApart, Indexed, Lookup, HoldNumbers, ColumnNumbersAfter, NoText, Beyond, Decrypted;
    var t := events[i].t;
    RunColumn(s, states, events, i, t.name, c, before);
    CiphersLeft(s, Get(Lookup(states[i].catalog, COLUMN_TABLE), Indexed(t.name, c)),
                ColumnNumbersAfter(s, before, events, i, t.name, c), |t.table|);
  }

  /** After any run, with names repeated at will: the number shown for the sum of a column of the last stored
      table is the true sum exactly when the numbers of older rows left behind it do not change that modulo
      the plain modulus. */
  lemma RunSumIff(s: Scheme, states: seq<State>, events: seq<Event>, tables: StoredTables, i: nat, c: nat,
                  out: Option<Result<seq<seq<string>>>>, before: seq<nat>)
    requires Assumptions(s) && LabelsDistinct(s) && Run(s, states, events) && i < |events|
    requires OthersApart(events, events[i].t.name) && Represents(s, Last(states).catalog, tables)
    requires IsLastStored(s, events, i) && WellFormed(events[i].t.table, events[i].t.columnsType)
    requires c < |events[i].t.table[0]| && events[i].t.columnsType[c] == "int"
    requires Tag(s, Indexed(events[i].t.name, c)) in s.tags && NoText(s, events, events[i].t.name, c)
    requires HoldNumbers(s, Get(Lookup(states[0].catalog, COLUMN_TABLE), Indexed(events[i].t.name, c)), before)
    requires RepliesTo(s, tables, SumPlan(s, events[i].t.name, c, "int"), out)
    ensures IntColumn(s, events[i].t.table, c) && 0 < s.modulus
    ensures var t := events[i].t;
            var total := Sum(Numbers(s, t.table, c));
            var left := Beyond(ColumnNumbersAfter(s, before, events, i, t.name, c), |t.table|);
            out == Some(Ok([[Dec(total)]])) <==> (total + Sum(left)) % s.modulus == total
  {
    hide Assumptions, LabelsDistinct, Run, OthersApart, Represents, Tag, Indexed, RepliesTo, SumPlan, Lookup,
      IsLastStored, IntColumn, Sum, Decrypted, Dec, HoldNumbers, ColumnNumbersAfter, Homomorphic, NoText, Beyond,
      LeftCells, Numbers, RunPlans, WellFormed;
    RunStates(s, states, events);
    LabelsAreDistinctNow(s);
    LeftCellsTraced(s, states, events, i, c, before);
    RunAnswersSum(s, states, events, tables, i, c, out);
  }
}
