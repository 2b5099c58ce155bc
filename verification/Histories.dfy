/** What queries answer after runs that upload a name again, over whatever the database held: the exact
    conditions in terms of what is left in the stores. */
module Histories {
  import opened Wrappers
  import opened Numerals
  import opened Keys
  import opened Scheme
  import opened Tables
  import opened MultiMaps
  import opened Stores
  import opened DataMapper
  import opened Catalogs
  import opened Sums
  import opened Executor
  import opened Planner
  import opened Service
  import opened Serving
  import opened CrossProducts
  import opened Queries
  import opened Reuploads
  import opened Leftovers
  import opened Runs
  import opened Joins
  import opened Answering

  // ----- the last stored table of a name -----

  ghost predicate StoredUnder(s: Scheme, t: Table, n: string) {
    t.name == n && WellFormed(t.table, t.columnsType) && Storable(s, t.table, t.columnsType)
  }

  /** Upload `i` could be stored, and none after it under its name could. */
  ghost predicate IsLastStored(s: Scheme, events: seq<Event>, i: nat)
    requires i < |events|
  {
    && StoredUnder(s, events[i].t, events[i].t.name)
    && forall j :: i < j < |events| ==> !StoredUnder(s, events[j].t, events[i].t.name)
  }

  lemma PrevailsIsLastStored(s: Scheme, states: seq<State>, events: seq<Event>, i: nat)
    requires |states| == |events| + 1 && i < |events| && Prevails(s, states, events, i)
    ensures IsLatest(events, i) && IsLastStored(s, events, i)
  {
    hide WellFormed, Storable, NothingLonger, EarlierNotLonger;
  }

  /** One upload puts the lists of its table on top of those that stood there. */
  lemma StepOnTop(s: Scheme, st: State, ev: Event, next: State)
    requires Step(s, st, ev, next) && StoredUnder(s, ev.t, ev.t.name)
    ensures OnTop(s, st.catalog, next.catalog, ev.t)
  {
    hide Step, WellFormed, Storable, Uploaded, OnTop;
    var mid := StepMiddle(s, st, ev, next);
    UploadOnTop(s, st.catalog, ev.t, mid);
    OnTopSame(s, st.catalog, mid, next.catalog, ev.t);
  }

  lemma {:induction false} RunOnTop(s: Scheme, states: seq<State>, events: seq<Event>, i: nat, b: nat)
    requires Run(s, states, events) && i < b <= |events| && IsLastStored(s, events, i)
    requires OthersApart(events, events[i].t.name)
    ensures WellFormed(events[i].t.table, events[i].t.columnsType)
    ensures OnTop(s, states[i].catalog, states[b].catalog, events[i].t)
    decreases b
  {
    hide Step, Apart, WellFormed, Storable, OnTop, SameLists;
    RunStepAt(s, states, events, i);
    if b == i + 1 {
      StepOnTop(s, states[i], events[i], states[b]);
    } else {
      var t := events[i].t;
      RunOnTop(s, states, events, i, b - 1);
      RunStepAt(s, states, events, b - 1);
      if events[b - 1].t.name != t.name {
        StepKeeps(s, states[b - 1], events[b - 1], states[b], t.name);
        StoresStay(s, states, events, i, b);
        OnTopKept(s, states[i].catalog, states[b - 1].catalog, states[b].catalog, t);
      }
    }
  }

  lemma StoresStay(s: Scheme, states: seq<State>, events: seq<Event>, i: nat, b: nat)
    requires Run(s, states, events) && i < b <= |events| && StoredUnder(s, events[i].t, events[i].t.name)
    ensures ROW_TABLE in states[b].catalog && VALUE_TABLE in states[b].catalog && COLUMN_TABLE in states[b].catalog
  {
    hide Step, WellFormed, Storable, Run;
    RunCreatesIff(s, states, events, ROW_TABLE, b);
    RunCreatesIff(s, states, events, VALUE_TABLE, b);
    RunCreatesIff(s, states, events, COLUMN_TABLE, b);
  }

  // ----- over any database -----

  lemma SelectShownIff(s: Scheme, cat: Catalog, next: Catalog, tables: StoredTables, t: Table, c: nat, v: string,
      p: nat, resultType: string, out: Option<Result<seq<seq<string>>>>)
    requires Assumptions(s) && LabelsDistinct(s) && Represents(s, next, tables) && WellFormed(t.table, t.columnsType)
    requires OnTop(s, cat, next, t) && p < Position(t.columnsType, |t.table[0]|)
    requires Tag(s, ValueKey(t.name, c, v)) in s.tags
    requires RepliesTo(s, tables, SelectPlan(s, t.name, c, v, p, resultType), out)
    ensures var col := ColumnAt(t.columnsType, |t.table[0]|, p);
            var found := RunPlans(s, tables, SelectPlan(s, t.name, c, v, p, resultType), None);
            var clear := FieldsOf(s, tables, LeftRows(cat, t, c, v), Dec(p)) == Some([]);
            && (Finds(s, found, t, col, RowsWith(t, c, v)) <==> clear)
            && (t.columnsType[col] == resultType ==> (ShowsAnswer(s, out, t, col, RowsWith(t, c, v)) <==> clear))
  {
    hide Assumptions, LabelsDistinct, Represents, Tag, ValueKey, RunPlans, SelectPlan, Replies, Finds, ShowsAnswer,
      RowsWith, Homomorphic, OnTop, FieldsOf, LeftRows, Position, ColumnAt, Dec;
    LabelsAreDistinctNow(s);
    SelectQueryOverIff(s, cat, next, tables, t, c, v, p, resultType);
    var col := ColumnAt(t.columnsType, |t.table[0]|, p);
    if t.columnsType[col] == resultType {
      ShownIffFound(s, RunPlans(s, tables, SelectPlan(s, t.name, c, v, p, resultType), None), out, t, col,
                    RowsWith(t, c, v));
    }
  }

  /** After any run of uploads, with names repeated at will and over whatever the database held: a select
      query on the last stored table of a name finds, and decrypted by the type of its column shows, the
      plaintext answer exactly when the row tags left behind those of its rows lead to no entry. */
  lemma RunAnswersSelect(s: Scheme, states: seq<State>, events: seq<Event>, tables: StoredTables, i: nat,
                         c: nat, v: string, p: nat, resultType: string, out: Option<Result<seq<seq<string>>>>)
    requires Assumptions(s) && LabelsDistinct(s) && Run(s, states, events) && i < |events|
    requires OthersApart(events, events[i].t.name) && Represents(s, Last(states).catalog, tables)
    requires IsLastStored(s, events, i) && WellFormed(events[i].t.table, events[i].t.columnsType)
    requires p < Position(events[i].t.columnsType, |events[i].t.table[0]|)
    requires Tag(s, ValueKey(events[i].t.name, c, v)) in s.tags
    requires RepliesTo(s, tables, SelectPlan(s, events[i].t.name, c, v, p, resultType), out)
    ensures var t := events[i].t;
            var col := ColumnAt(t.columnsType, |t.table[0]|, p);
            var found := RunPlans(s, tables, SelectPlan(s, t.name, c, v, p, resultType), None);
            var clear := FieldsOf(s, tables, LeftRows(states[i].catalog, t, c, v), Dec(p)) == Some([]);
            && (Finds(s, found, t, col, RowsWith(t, c, v)) <==> clear)
            && (t.columnsType[col] == resultType ==> (ShowsAnswer(s, out, t, col, RowsWith(t, c, v)) <==> clear))
  {
    hide Assumptions, LabelsDistinct, Run, OthersApart, Represents, Tag, ValueKey, RunPlans, SelectPlan, Replies, Finds,
      ShowsAnswer, RowsWith, OnTop, FieldsOf, LeftRows, Position, ColumnAt, Dec, IsLastStored;
    RunStates(s, states, events);
    RunOnTop(s, states, events, i, |events|);
    SelectShownIff(s, states[i].catalog, Last(states).catalog, tables, events[i].t, c, v, p, resultType, out);
  }

  /** When the latest table prevails, a select query shows the entry asked for, whether there is such an entry
      or not. */
  lemma PrevailingSelect(s: Scheme, states: seq<State>, events: seq<Event>, tables: StoredTables, i: nat,
                         c: nat, v: string, p: nat, resultType: string, out: Option<Result<seq<seq<string>>>>)
    requires Assumptions(s) && LabelsDistinct(s) && Run(s, states, events) && i < |events|
    requires OthersApart(events, events[i].t.name) && Prevails(s, states, events, i)
    requires Represents(s, Last(states).catalog, tables)
    requires var t := events[i].t;
             && WellFormed(t.table, t.columnsType) && c < |t.table[0]| && EntryInScope(s, t, p)
             && Tag(s, ValueKey(t.name, c, v)) in s.tags
             && RepliesTo(s, tables, SelectPlan(s, t.name, c, v, p, resultType), out)
    ensures ShowsEntry(s, resultType, out, events[i].t, p, RowsWith(events[i].t, c, v))
  {
    hide Assumptions, LabelsDistinct, Run, OthersApart, Prevails, Represents, Tag, ValueKey, Serves, RunPlans,
      SelectPlan, Replies, FindsEntry, ShowsEntry, RowsWith, EntryInScope, Homomorphic;
    var t := events[i].t;
    RunStates(s, states, events);
    PrevailsIsLastStored(s, states, events, i);
    RunServesIff(s, states, events, i);
    LabelsAreDistinctNow(s);
    SelectServed(s, Last(states).catalog, tables, t, c, v, p, resultType);
    EntryIsShown(s, resultType, RunPlans(s, tables, SelectPlan(s, t.name, c, v, p, resultType), None), out, t, p,
                 RowsWith(t, c, v));
  }

  lemma SelectServed(s: Scheme, cat: Catalog, tables: StoredTables, t: Table, c: nat, v: string, p: nat,
      resultType: string)
    requires Assumptions(s) && Represents(s, cat, tables) && WellFormed(t.table, t.columnsType) && Serves(s, cat, t)
    requires c < |t.table[0]| && Tag(s, ValueKey(t.name, c, v)) in s.tags && EntryInScope(s, t, p)
    ensures LabelsDistinct(s)
    ensures FindsEntry(s, RunPlans(s, tables, SelectPlan(s, t.name, c, v, p, resultType), None), t, p,
                       RowsWith(t, c, v))
  {
    hide Assumptions, Represents, Serves, Tag, ValueKey, EntryInScope, LabelsDistinct, RunPlans, SelectPlan, FindsEntry;
    SelectQuery(s, cat, tables, t, c, v, p, resultType);
  }

  /** What the join store has on top after the last refresh. */
  lemma RunJoinOnTop(s: Scheme, states: seq<State>, events: seq<Event>, m: nat, t1: Table, t2: Table)
    requires Run(s, states, events) && m < |events| && IsLastRefresh(s, states, events, m)
    requires t1.name == COURSES && t2.name == STUDENTS && HasColumn(t1.table, 0) && HasColumn(t2.table, 2)
    requires PairPresent(states[m + 1].tables) && JoinReady(states[m + 1].tables)
    requires SamePartners(states[m + 1].tables[COURSES], states[m + 1].tables[STUDENTS], t1, t2)
    ensures PairName() in Last(states).catalog
    ensures JoinOnTop(s, Lookup(states[m].catalog, PairName()), Lookup(Last(states).catalog, PairName()), t1, 0, t2, 2)
  {
    hide Step, Run, Lookup, PairName, Refreshes, JoinIn, Overlay, HasColumn, JoinOnTop, SamePartners;
    RunStates(s, states, events);
    var u1, u2 := states[m + 1].tables[COURSES], states[m + 1].tables[STUDENTS];
    ReadyColumns(states[m + 1].tables);
    var j := RefreshStep(s, states, events, m);
    QuietKeepsJoin(s, states, events, m + 1, |events|);
    JoinOver(s, Lookup(states[m].catalog, PairName()), u1, 0, u2, 2, j);
    SamePartnersOnTop(s, Lookup(states[m].catalog, PairName()), Lookup(Last(states).catalog, PairName()),
                      u1, u2, t1, t2);
  }

  lemma SamePartnersOnTop(s: Scheme, a: MultiMap, b: MultiMap, u1: Table, u2: Table, t1: Table, t2: Table)
    requires u1.name == t1.name && u2.name == t2.name && HasColumn(u1.table, 0) && HasColumn(u2.table, 2)
    requires HasColumn(t1.table, 0) && HasColumn(t2.table, 2) && SamePartners(u1, u2, t1, t2)
    requires JoinOnTop(s, a, b, u1, 0, u2, 2)
    ensures JoinOnTop(s, a, b, t1, 0, t2, 2)
  {
    hide Indexed, Partners, RowTags, Beyond, Get;
    forall r: nat
      ensures Get(b, Indexed(t1.name, r))
           == RowTags(s, t2.name, Partners(t1, 0, t2, 2, r)) + LeftPartners(a, t1, 0, t2, 2, r)
    {
      assert Partners(u1, 0, u2, 2, r) == Partners(t1, 0, t2, 2, r);
    }
  }

  /** The uploads that a join query is answered from: the last stored courses and students, and a last
      refresh with tables in which every row has the same partners. */
  ghost predicate JoinedBy(s: Scheme, states: seq<State>, events: seq<Event>, a: nat, b: nat, m: nat) {
    && Run(s, states, events) && a < |events| && b < |events| && m < |events|
    && events[a].t.name == COURSES && IsLastStored(s, events, a) && OthersApart(events, COURSES)
    && events[b].t.name == STUDENTS && IsLastStored(s, events, b) && OthersApart(events, STUDENTS)
    && HasColumn(events[a].t.table, 0) && HasColumn(events[b].t.table, 2)
    && IsLastRefresh(s, states, events, m) && JoinReady(states[m + 1].tables)
    && SamePartners(states[m + 1].tables[COURSES], states[m + 1].tables[STUDENTS], events[a].t, events[b].t)
  }

  lemma JoinedByStores(s: Scheme, states: seq<State>, events: seq<Event>, a: nat, b: nat, m: nat)
    requires JoinedBy(s, states, events, a, b, m)
    ensures |states| == |events| + 1
    ensures var t1, t2 := events[a].t, events[b].t;
            && WellFormed(t1.table, t1.columnsType) && WellFormed(t2.table, t2.columnsType)
            && HasColumn(t1.table, 0) && HasColumn(t2.table, 2)
            && OnTop(s, states[a].catalog, Last(states).catalog, t1)
            && OnTop(s, states[b].catalog, Last(states).catalog, t2)
            && PairName() in Last(states).catalog
            && JoinOnTop(s, Lookup(states[m].catalog, PairName()), Lookup(Last(states).catalog, PairName()),
                         t1, 0, t2, 2)
  {
    hide Run, OthersApart, IsLastStored, HasColumn, WellFormed, OnTop, JoinOnTop, SamePartners, Lookup, PairName;
    RunStates(s, states, events);
    RunOnTop(s, states, events, a, |events|);
    RunOnTop(s, states, events, b, |events|);
    RunJoinOnTop(s, states, events, m, events[a].t, events[b].t);
  }

  lemma JoinIsServed(s: Scheme, states: seq<State>, events: seq<Event>, m: nat, t1: Table, t2: Table)
    requires PrfInjective(s) && Run(s, states, events) && m < |events|
    requires t1.name == COURSES && t2.name == STUDENTS && HasColumn(t1.table, 0) && HasColumn(t2.table, 2)
    requires JoinPrevails(s, states, events, m, t1, t2)
    ensures PairName() in Last(states).catalog
    ensures JoinIn(s, Lookup(Last(states).catalog, PairName()), t1, 0, t2, 2)
  {
    hide PrfInjective, Run, SamePartners, JoinNotLonger, EarlierJoinsNotLonger, JoinIn, Lookup, PairName;
    RunJoinIff(s, states, events, m, t1, t2);
  }

  /** When the latest tables and the last refresh prevail, the join query shows the entry asked for, whether
      there is such an entry or not. */
  lemma PrevailingJoin(s: Scheme, states: seq<State>, events: seq<Event>, tables: StoredTables, a: nat, b: nat, m: nat,
                       c: nat, v: string, p: nat, out: Option<Result<seq<seq<string>>>>)
    requires Assumptions(s) && LabelsDistinct(s) && Run(s, states, events) && a < |events| && b < |events|
    requires events[a].t.name == COURSES && Prevails(s, states, events, a) && OthersApart(events, COURSES)
    requires events[b].t.name == STUDENTS && Prevails(s, states, events, b) && OthersApart(events, STUDENTS)
    requires Represents(s, Last(states).catalog, tables)
    requires var t1, t2 := events[a].t, events[b].t;
             && WellFormed(t1.table, t1.columnsType) && WellFormed(t2.table, t2.columnsType)
             && HasColumn(t1.table, 0) && HasColumn(t2.table, 2)
             && m < |events| && JoinPrevails(s, states, events, m, t1, t2)
             && c < |t1.table[0]| && EntryInScope(s, t2, p) && Tag(s, ValueKey(COURSES, c, v)) in s.tags
             && RepliesTo(s, tables, JoinPlan(s, COURSES, c, v, 0, STUDENTS, 2, p), out)
    ensures ShowsEntry(s, "string", out, events[b].t, p,
                       PlainJoin(events[a].t.table, c, v, 0, events[b].t.table, 2))
  {
    hide Assumptions, LabelsDistinct, Run, OthersApart, Prevails, JoinPrevails, Represents, Tag, ValueKey, Serves,
      RunPlans, JoinPlan, Replies, FindsEntry, ShowsEntry, PlainJoin, EntryInScope, Homomorphic, JoinIn, JoinName;
    var t1, t2 := events[a].t, events[b].t;
    RunStates(s, states, events);
    PrevailsIsLastStored(s, states, events, a);
    PrevailsIsLastStored(s, states, events, b);
    RunServesIff(s, states, events, a);
    RunServesIff(s, states, events, b);
    LabelsAreDistinctNow(s);
    JoinIsServed(s, states, events, m, t1, t2);
    JoinQuery(s, Last(states).catalog, tables, t1, c, v, 0, t2, 2, p);
    EntryIsShown(s, "string", RunPlans(s, tables, JoinPlan(s, COURSES, c, v, 0, STUDENTS, 2, p), None), out, t2, p,
                 PlainJoin(t1.table, c, v, 0, t2.table, 2));
  }

  /** After any such run the join query finds, and in a text column shows, the plaintext answer exactly when
      nothing that is left leads it to an entry. */
  lemma RunAnswersJoin(s: Scheme, states: seq<State>, events: seq<Event>, tables: StoredTables, a: nat, b: nat, m: nat,
                       c: nat, v: string, p: nat, out: Option<Result<seq<seq<string>>>>)
    requires Assumptions(s) && LabelsDistinct(s) && JoinedBy(s, states, events, a, b, m)
    requires Represents(s, Last(states).catalog, tables)
    requires var t1, t2 := events[a].t, events[b].t;
             && WellFormed(t1.table, t1.columnsType) && WellFormed(t2.table, t2.columnsType)
             && c < |t1.table[0]| && p < Position(t2.columnsType, |t2.table[0]|)
             && Tag(s, ValueKey(COURSES, c, v)) in s.tags
             && RepliesTo(s, tables, JoinPlan(s, COURSES, c, v, 0, STUDENTS, 2, p), out)
    ensures var t1, t2 := events[a].t, events[b].t;
            var col := ColumnAt(t2.columnsType, |t2.table[0]|, p);
            var found := RunPlans(s, tables, JoinPlan(s, COURSES, c, v, 0, STUDENTS, 2, p), None);
            var answer := PlainJoin(t1.table, c, v, 0, t2.table, 2);
            var clear := JoinClear(s, tables, states[a].catalog, Lookup(states[m].catalog, PairName()), t1, c, v, 0, t2,
                                   2, p);
            && (Finds(s, found, t2, col, answer) <==> clear)
            && (t2.columnsType[col] == "string" ==> (ShowsAnswer(s, out, t2, col, answer) <==> clear))
  {
    hide Assumptions, LabelsDistinct, JoinedBy, Represents, Tag, ValueKey, RunPlans, JoinPlan, Replies, Finds,
      ShowsAnswer, PlainJoin, Homomorphic, OnTop, JoinOnTop, JoinClear, Position, ColumnAt, Lookup, JoinName;
    JoinedByNames(s, states, events, a, b, m);
    JoinedByStores(s, states, events, a, b, m);
    LabelsAreDistinctNow(s);
    var t1, t2 := events[a].t, events[b].t;
    OnTopStores(s, states[b].catalog, Last(states).catalog, t2);
    JoinQueryOverIff(s, states[a].catalog, Last(states).catalog, tables, Lookup(states[m].catalog, PairName()),
                     t1, c, v, 0, t2, 2, p);
    var col := ColumnAt(t2.columnsType, |t2.table[0]|, p);
    if t2.columnsType[col] == "string" {
      ShownIffFound(s, RunPlans(s, tables, JoinPlan(s, COURSES, c, v, 0, STUDENTS, 2, p), None), out, t2, col,
                    PlainJoin(t1.table, c, v, 0, t2.table, 2));
    }
  }

  lemma JoinedByNames(s: Scheme, states: seq<State>, events: seq<Event>, a: nat, b: nat, m: nat)
    requires JoinedBy(s, states, events, a, b, m)
    ensures a < |events| && b < |events| && m < |events| && |states| == |events| + 1
    ensures events[a].t.name == COURSES && events[b].t.name == STUDENTS && Run(s, states, events)
    ensures OthersApart(events, COURSES) && OthersApart(events, STUDENTS)
    ensures IsLastStored(s, events, a) && IsLastStored(s, events, b) && IsLastRefresh(s, states, events, m)
  {
    hide OthersApart, IsLastStored, HasColumn, IsLastRefresh, Step;
  }

  /** After any such run the number shown for the sum of a column is the true sum exactly when the
      ciphertexts left behind it do not change it modulo the plain modulus. */
  lemma RunAnswersSum(s: Scheme, states: seq<State>, events: seq<Event>, tables: StoredTables, i: nat, c: nat,
                      out: Option<Result<seq<seq<string>>>>)
    requires Assumptions(s) && LabelsDistinct(s) && Run(s, states, events) && i < |events|
    requires OthersApart(events, events[i].t.name) && Represents(s, Last(states).catalog, tables)
    requires IsLastStored(s, events, i) && WellFormed(events[i].t.table, events[i].t.columnsType)
    requires c < |events[i].t.table[0]| && events[i].t.columnsType[c] == "int"
    requires Tag(s, Indexed(events[i].t.name, c)) in s.tags
    requires var left := LeftCells(states[i].catalog, events[i].t, c);
             forall k :: 0 <= k < |left| ==> s.isCipher(left[k])
    requires RepliesTo(s, tables, SumPlan(s, events[i].t.name, c, "int"), out)
    ensures IntColumn(s, events[i].t.table, c) && 0 < s.modulus
    ensures var total := Sum(Numbers(s, events[i].t.table, c));
            out == Some(Ok([[Dec(total)]])) <==>
            (total + Sum(Decrypted(s, LeftCells(states[i].catalog, events[i].t, c)))) % s.modulus == total
  {
    hide Assumptions, LabelsDistinct, Run, OthersApart, Represents, Tag, Indexed, RepliesTo, SumPlan, OnTop,
      LeftCells, IsLastStored, IntColumn, Sum, Decrypted, Print;
    RunStates(s, states, events);
    RunOnTop(s, states, events, i, |events|);
    SumQueryOverIff(s, states[i].catalog, Last(states).catalog, tables, events[i].t, c, out);
  }
}
