/** The join store of courses and students over runs of uploads. */
module Joins {
  import opened Keys
  import opened Scheme
  import opened Tables
  import opened MultiMaps
  import opened DataMapper
  import opened Catalogs
  import opened Service
  import opened Serving
  import opened Reuploads
  import opened Runs

  function PairName(): string {
    JoinName(COURSES, 0, STUDENTS, 2)
  }

  /** Upload `i` brings the join up to date: it is by table, it succeeds, and both tables are there. */
  ghost predicate Refreshes(s: Scheme, states: seq<State>, events: seq<Event>, i: nat)
    requires |states| == |events| + 1 && i < |events|
  {
    && events[i].ByTable? && PairPresent(states[i + 1].tables)
    && WellFormed(events[i].t.table, events[i].t.columnsType)
    && Storable(s, events[i].t.table, events[i].t.columnsType)
  }

  ghost predicate EverRefreshed(s: Scheme, states: seq<State>, events: seq<Event>)
    requires |states| == |events| + 1
  {
    exists i: nat :: i < |events| && Refreshes(s, states, events, i)
  }

  /** Upload `m` is the last one that brought the join up to date. */
  ghost predicate IsLastRefresh(s: Scheme, states: seq<State>, events: seq<Event>, m: nat)
    requires |states| == |events| + 1 && m < |events|
  {
    Refreshes(s, states, events, m) && forall k: nat :: m < k < |events| ==> !Refreshes(s, states, events, k)
  }

  lemma {:induction false} LastRefreshExists(s: Scheme, states: seq<State>, events: seq<Event>, b: nat)
    returns (m: nat)
    requires |states| == |events| + 1 && b <= |events|
    requires exists i: nat :: i < b && Refreshes(s, states, events, i)
    ensures m < b && Refreshes(s, states, events, m)
    ensures forall k: nat :: m < k < b ==> !Refreshes(s, states, events, k)
    decreases b
  {
    hide Refreshes;
    if Refreshes(s, states, events, b - 1) {
      m := b - 1;
    } else {
      m := LastRefreshExists(s, states, events, b - 1);
    }
  }

  // ----- one upload -----

  lemma MiddleKeepsJoin(s: Scheme, cat: Catalog, t: Table, mid: Catalog)
    requires WellFormed(t.table, t.columnsType) && Uploaded(s, cat, t, mid)
    ensures Lookup(mid, PairName()) == Lookup(cat, PairName()) && (PairName() in mid <==> PairName() in cat)
  {
    hide Uploaded, Lookup, JoinName;
    JoinNameIsOther(COURSES, 0, STUDENTS, 2);
    UploadKeepsOthers(s, cat, t, mid, PairName());
  }

  lemma QuietStep(s: Scheme, states: seq<State>, events: seq<Event>, i: nat)
    requires Run(s, states, events) && i < |events| && !Refreshes(s, states, events, i)
    ensures Lookup(states[i + 1].catalog, PairName()) == Lookup(states[i].catalog, PairName())
    ensures PairName() in states[i + 1].catalog <==> PairName() in states[i].catalog
  {
    hide Step, Run, Storable, WellFormed, Uploaded, Joined, Lookup, JoinName, HasColumn;
    RunStepAt(s, states, events, i);
    var t := events[i].t;
    if Storable(s, t.table, t.columnsType) {
      var mid := StepMiddle(s, states[i], events[i], states[i + 1]);
      MiddleKeepsJoin(s, states[i].catalog, t, mid);
    }
  }

  /** Between refreshes the join store stays as it is. */
  lemma {:induction false} QuietKeepsJoin(s: Scheme, states: seq<State>, events: seq<Event>, a: nat, b: nat)
    requires Run(s, states, events) && a <= b <= |events|
    requires forall k: nat :: a <= k < b ==> !Refreshes(s, states, events, k)
    ensures Lookup(states[b].catalog, PairName()) == Lookup(states[a].catalog, PairName())
    ensures PairName() in states[b].catalog <==> PairName() in states[a].catalog
    decreases b - a
  {
    hide Step, Refreshes, Lookup, PairName;
    if a < b {
      QuietKeepsJoin(s, states, events, a, b - 1);
      QuietStep(s, states, events, b - 1);
    }
  }

  lemma JoinedParts(s: Scheme, mid: Catalog, t1: Table, t2: Table, next: Catalog) returns (j: MultiMap)
    requires t1.name == COURSES && t2.name == STUDENTS && HasColumn(t1.table, 0) && HasColumn(t2.table, 2)
    requires Joined(s, mid, t1, 0, t2, 2, next)
    ensures JoinIn(s, j, t1, 0, t2, 2) && Total(j) == |JoinPairs(t1.table, 0, t2.table, 2)|
    ensures PairName() in next && Lookup(next, PairName()) == Overlay(Lookup(mid, PairName()), j)
  {
    hide HasColumn, IsJoinIndex, JoinIn, Overlay, JoinName, JoinPairs, Total;
    j :| IsJoinIndex(s, j, t1.name, t1.table, 0, t2.name, t2.table, 2)
         && Total(j) == |JoinPairs(t1.table, 0, t2.table, 2)|
         && next == Merge(mid, JoinName(t1.name, 0, t2.name, 2), j);
    JoinIndexServes(s, t1, 0, t2, 2, j);
  }

  /** A refresh merges the join of the tables that are remembered then over what the store held. */
  lemma RefreshStep(s: Scheme, states: seq<State>, events: seq<Event>, i: nat) returns (j: MultiMap)
    requires Run(s, states, events) && i < |events| && Refreshes(s, states, events, i)
    ensures JoinReady(states[i + 1].tables)
    ensures JoinIn(s, j, states[i + 1].tables[COURSES], 0, states[i + 1].tables[STUDENTS], 2)
    ensures states[i + 1].tables[COURSES].name == COURSES && states[i + 1].tables[STUDENTS].name == STUDENTS
    ensures PairName() in states[i + 1].catalog
    ensures Lookup(states[i + 1].catalog, PairName()) == Overlay(Lookup(states[i].catalog, PairName()), j)
  {
    hide Step, Run, Storable, WellFormed, Uploaded, Joined, Lookup, PairName, HasColumn, JoinIn, Overlay;
    RunStepAt(s, states, events, i);
    RunNames(s, states, events, i + 1);
    var mid := StepMiddle(s, states[i], events[i], states[i + 1]);
    MiddleKeepsJoin(s, states[i].catalog, events[i].t, mid);
    j := JoinedParts(s, mid, states[i + 1].tables[COURSES], states[i + 1].tables[STUDENTS], states[i + 1].catalog);
  }

  // ----- runs -----

  /** No row of these tables has fewer partners than it had in a join that one of the first `b` uploads
      wrote. */
  ghost predicate EarlierJoinsNotLonger(s: Scheme, states: seq<State>, events: seq<Event>, b: nat, t1: Table,
      t2: Table)
    requires |states| == |events| + 1 && b <= |events| && HasColumn(t1.table, 0) && HasColumn(t2.table, 2)
  {
    forall k: nat :: k < b && Refreshes(s, states, events, k) ==> KeptPartners(states[k + 1].tables, t1, t2)
  }

  ghost predicate KeptPartners(tables: map<string, Table>, t1: Table, t2: Table)
    requires HasColumn(t1.table, 0) && HasColumn(t2.table, 2)
  {
    && PairPresent(tables) && JoinReady(tables)
    && NoPartnersLost(tables[COURSES], tables[STUDENTS], t1, t2, 0, 2)
  }

  lemma {:induction false} JoinHistory(s: Scheme, states: seq<State>, events: seq<Event>, b: nat, t1: Table, t2: Table)
    requires Run(s, states, events) && b <= |events| && t1.name == COURSES
    requires HasColumn(t1.table, 0) && HasColumn(t2.table, 2)
    ensures JoinNotLonger(Lookup(states[b].catalog, PairName()), t1, 0, t2, 2) <==>
            JoinNotLonger(Lookup(states[0].catalog, PairName()), t1, 0, t2, 2)
            && EarlierJoinsNotLonger(s, states, events, b, t1, t2)
    decreases b
  {
    hide Step, Run, Lookup, PairName, JoinNotLonger, NoPartnersLost, JoinIn, Overlay, Refreshes, HasColumn;
    RunStates(s, states, events);
    if b > 0 {
      JoinHistory(s, states, events, b - 1, t1, t2);
      if Refreshes(s, states, events, b - 1) {
        RefreshedPair(s, states, events, b - 1);
        var j := RefreshStep(s, states, events, b - 1);
        var u1, u2 := states[b].tables[COURSES], states[b].tables[STUDENTS];
        ReadyColumns(states[b].tables);
        JoinNotLongerAfter(s, Lookup(states[b - 1].catalog, PairName()), u1, u2, j, t1, t2, 0, 2);
      } else {
        QuietStep(s, states, events, b - 1);
      }
    }
  }

  lemma RefreshedPair(s: Scheme, states: seq<State>, events: seq<Event>, i: nat)
    requires |states| == |events| + 1 && i < |events| && Refreshes(s, states, events, i)
    ensures PairPresent(states[i + 1].tables)
  {
  }

  lemma ReadyColumns(tables: map<string, Table>)
    requires JoinReady(tables) && PairPresent(tables)
    ensures HasColumn(tables[COURSES].table, 0) && HasColumn(tables[STUDENTS].table, 2)
  {
  }

  /** Every row has the same partners. */
  ghost predicate SamePartners(u1: Table, u2: Table, t1: Table, t2: Table)
    requires HasColumn(u1.table, 0) && HasColumn(u2.table, 2) && HasColumn(t1.table, 0) && HasColumn(t2.table, 2)
  {
    forall r: nat :: Partners(u1, 0, u2, 2, r) == Partners(t1, 0, t2, 2, r)
  }

  /** After any run, with names repeated at will, over whatever the database held: the join store is right
      for the tables of the last refresh exactly when none of its lists was ever longer, neither before the
      run nor at an older refresh. It is then right for tables that were uploaded since, by file or without
      success, exactly when every row has the same partners in them. */
  lemma RunJoinIff(s: Scheme, states: seq<State>, events: seq<Event>, m: nat, t1: Table, t2: Table)
    requires PrfInjective(s) && Run(s, states, events) && m < |events| && IsLastRefresh(s, states, events, m)
    requires t1.name == COURSES && t2.name == STUDENTS && HasColumn(t1.table, 0) && HasColumn(t2.table, 2)
    ensures JoinReady(states[m + 1].tables) && PairName() in Last(states).catalog
    ensures var u1, u2 := states[m + 1].tables[COURSES], states[m + 1].tables[STUDENTS];
            var mm := Lookup(Last(states).catalog, PairName());
            && (JoinIn(s, mm, u1, 0, u2, 2) <==>
                && JoinNotLonger(Lookup(states[0].catalog, PairName()), u1, 0, u2, 2)
                && EarlierJoinsNotLonger(s, states, events, m, u1, u2))
            && (JoinIn(s, mm, u1, 0, u2, 2) ==> (JoinIn(s, mm, t1, 0, t2, 2) <==> SamePartners(u1, u2, t1, t2)))
  {
    hide PrfInjective, Step, Run, Lookup, PairName, JoinNotLonger, NoPartnersLost, JoinIn, Overlay, Refreshes,
      HasColumn,
      EarlierJoinsNotLonger, Partners;
    RunStates(s, states, events);
    RefreshedPair(s, states, events, m);
    var j := RefreshStep(s, states, events, m);
    ReadyColumns(states[m + 1].tables);
    var u1, u2 := states[m + 1].tables[COURSES], states[m + 1].tables[STUDENTS];
    QuietKeepsJoin(s, states, events, m + 1, |events|);
    JoinOverIff(s, Lookup(states[m].catalog, PairName()), u1, 0, u2, 2, j);
    JoinHistory(s, states, events, m, u1, u2);
    if JoinIn(s, Lookup(Last(states).catalog, PairName()), u1, 0, u2, 2) {
      StaleJoinIff(s, Lookup(Last(states).catalog, PairName()), u1, u2, t1, t2, 0, 2);
    }
  }

  /** The last refresh was with tables in which every row has the same partners as in these, and no list of
      the join store was ever longer. */
  ghost predicate JoinPrevails(s: Scheme, states: seq<State>, events: seq<Event>, m: nat, t1: Table, t2: Table)
    requires |states| == |events| + 1 && m < |events| && HasColumn(t1.table, 0) && HasColumn(t2.table, 2)
  {
    && IsLastRefresh(s, states, events, m) && JoinReady(states[m + 1].tables)
    && var u1, u2 := states[m + 1].tables[COURSES], states[m + 1].tables[STUDENTS];
       && SamePartners(u1, u2, t1, t2) && JoinNotLonger(Lookup(states[0].catalog, PairName()), u1, 0, u2, 2)
       && EarlierJoinsNotLonger(s, states, events, m, u1, u2)
  }

  /** Without a refresh, in particular after uploads by file alone, the join store is what it was before
      the run. */
  lemma UnrefreshedJoin(s: Scheme, states: seq<State>, events: seq<Event>)
    requires Run(s, states, events) && !EverRefreshed(s, states, events)
    ensures Lookup(Last(states).catalog, PairName()) == Lookup(states[0].catalog, PairName())
    ensures PairName() in Last(states).catalog <==> PairName() in states[0].catalog
  {
    hide Step, Refreshes, Lookup, PairName;
    QuietKeepsJoin(s, states, events, 0, |events|);
  }

  // ----- names that are not repeated -----

  lemma SameSince(s: Scheme, states: seq<State>, events: seq<Event>, n: string, b: nat)
    requires Run(s, states, events) && NamesApart(events) && b <= |events| && n in states[b].tables
    ensures n in Last(states).tables && Last(states).tables[n] == states[b].tables[n]
  {
    hide Step, Apart, Run, NamesApart;
    RunStates(s, states, events);
    RunRemembersNames(s, states, events, n, b);
    var i :| 0 <= i < b && events[i].t.name == n;
    NamesApartFrom(events, i);
    RunRemembers(s, states, events, i, b);
    RunRemembers(s, states, events, i, |events|);
  }

  lemma SamePairSince(s: Scheme, states: seq<State>, events: seq<Event>, b: nat)
    requires Run(s, states, events) && NamesApart(events) && b <= |events| && PairPresent(states[b].tables)
    ensures PairPresent(Last(states).tables) && JoinReady(Last(states).tables) && JoinReady(states[b].tables)
    ensures states[b].tables[COURSES] == Last(states).tables[COURSES]
    ensures states[b].tables[STUDENTS] == Last(states).tables[STUDENTS]
  {
    hide Step, Run, NamesApart, HasColumn;
    RunStates(s, states, events);
    SameSince(s, states, events, COURSES, b);
    SameSince(s, states, events, STUDENTS, b);
    RunNames(s, states, events, b);
    RunNames(s, states, events, |events|);
  }

  /** After any run under names that are apart, over a database without the join, once courses and students
      are both there in whichever order: the join table exists and is right exactly when some upload by
      table succeeded with both there, and otherwise it does not exist. */
  lemma NewJoinIff(s: Scheme, states: seq<State>, events: seq<Event>)
    requires PrfInjective(s) && Run(s, states, events) && NamesApart(events)
    requires PairName() !in states[0].catalog && PairPresent(Last(states).tables)
    ensures JoinReady(Last(states).tables)
    ensures var st := Last(states);
            && (PairName() in st.catalog <==> EverRefreshed(s, states, events))
            && (PairName() in st.catalog && JoinIn(s, Lookup(st.catalog, PairName()), st.tables[COURSES], 0,
                st.tables[STUDENTS], 2)
                <==> EverRefreshed(s, states, events))
  {
    hide PrfInjective, Step, Run, NamesApart, PairName, JoinNotLonger, NoPartnersLost, JoinIn, Overlay, Refreshes,
      HasColumn, Partners;
    RunStates(s, states, events);
    var n := |events|;
    SamePairSince(s, states, events, n);
    RunNames(s, states, events, n);
    ReadyColumns(Last(states).tables);
    if EverRefreshed(s, states, events) {
      var m := LastRefreshExists(s, states, events, n);
      RefreshedPair(s, states, events, m);
      SamePairSince(s, states, events, m + 1);
      var t1, t2 := Last(states).tables[COURSES], Last(states).tables[STUDENTS];
      RunJoinIff(s, states, events, m, t1, t2);
      NothingJoined(t1, t2);
      forall k: nat | k < m && Refreshes(s, states, events, k) ensures KeptPartners(states[k + 1].tables, t1, t2) {
        RefreshedPair(s, states, events, k);
        SamePairSince(s, states, events, k + 1);
        NoneLostToItself(t1, t2);
      }
    } else {
      UnrefreshedJoin(s, states, events);
    }
  }

  lemma NothingJoined(t1: Table, t2: Table)
    requires HasColumn(t1.table, 0) && HasColumn(t2.table, 2)
    ensures JoinNotLonger(map[], t1, 0, t2, 2)
  {
  }

  lemma NoneLostToItself(t1: Table, t2: Table)
    requires HasColumn(t1.table, 0) && HasColumn(t2.table, 2)
    ensures NoPartnersLost(t1, t2, t1, t2, 0, 2)
  {
  }
}
