/** Uploading a table again under the same name: which lists are right afterwards, and what stays of the
    old table. */
module Reuploads {
  import opened Keys
  import opened Scheme
  import opened Cells
  import opened Tables
  import opened MultiMaps
  import opened DataMapper
  import opened Catalogs
  import opened Service
  import opened Serving

  // ----- how long the lists of a table are, from its plaintext -----

  function RowLength(t: Table, r: nat): nat
    requires WellFormed(t.table, t.columnsType)
  {
    if r < |t.table| then Position(t.columnsType, |t.table[0]|) else 0
  }

  function ColLength(t: Table, c: nat): nat
    requires WellFormed(t.table, t.columnsType)
  {
    if c < |t.table[0]| && Supported(t.columnsType[c]) then |t.table| else 0
  }

  function ValueCount(t: Table, c: nat, v: string): nat
    requires WellFormed(t.table, t.columnsType)
  {
    if c < |t.table[0]| then |Matches(t.table, c, v, |t.table|)| else 0
  }

  /** No list of any index is shorter for `t` than it was for `u`. */
  ghost predicate NothingShrank(u: Table, t: Table)
    requires WellFormed(u.table, u.columnsType) && WellFormed(t.table, t.columnsType)
  {
    && (forall i: nat :: RowLength(u, i) <= RowLength(t, i) && ColLength(u, i) <= ColLength(t, i))
    && (forall c: nat, v :: ValueCount(u, c, v) <= ValueCount(t, c, v))
  }

  /** No list under the keys of the table's name is longer than the table's own. */
  ghost predicate NothingLonger(cat: Catalog, t: Table)
    requires WellFormed(t.table, t.columnsType)
  {
    && (forall i: nat {:trigger Indexed(t.name, i)} ::
          && |Get(Lookup(cat, ROW_TABLE), Indexed(t.name, i))| <= RowLength(t, i)
          && |Get(Lookup(cat, COLUMN_TABLE), Indexed(t.name, i))| <= ColLength(t, i))
    && (forall c: nat, v {:trigger ValueKey(t.name, c, v)} ::
          |Get(Lookup(cat, VALUE_TABLE), ValueKey(t.name, c, v))| <= ValueCount(t, c, v))
  }

  lemma OverLength(next: seq<string>, prior: seq<string>)
    ensures |Over(next, prior)| == if |next| < |prior| then |prior| else |next|
    ensures |prior| <= |next| <==> Over(next, prior) == next
  {
  }

  lemma RowListLength(s: Scheme, mm: MultiMap, t: Table, r: nat)
    requires WellFormed(t.table, t.columnsType) && RowsIn(s, mm, t)
    ensures |Get(mm, Indexed(t.name, r))| == RowLength(t, r)
  {
    hide Indexed;
    assert r < |t.table| ==> Indexed(t.name, r) in mm;
  }

  lemma ColListLength(s: Scheme, mm: MultiMap, t: Table, c: nat)
    requires WellFormed(t.table, t.columnsType) && ColsIn(s, mm, t)
    ensures |Get(mm, Indexed(t.name, c))| == ColLength(t, c)
  {
    hide Indexed, Encodes;
    assert c < |t.table[0]| ==> Indexed(t.name, c) in mm;
  }

  lemma ValueListLength(s: Scheme, mm: MultiMap, t: Table, c: nat, v: string)
    requires WellFormed(t.table, t.columnsType) && ValuesIn(s, mm, t)
    ensures |Get(mm, ValueKey(t.name, c, v))| == ValueCount(t, c, v)
  {
    hide ValueKey, Matches;
  }

  // ----- an index merged over what its store held -----

  lemma RowsOverIff(s: Scheme, mm: MultiMap, t: Table, r: MultiMap)
    requires WellFormed(t.table, t.columnsType) && RowsIn(s, r, t)
    ensures RowsIn(s, Overlay(mm, r), t) <==> forall i: nat :: |Get(mm, Indexed(t.name, i))| <= RowLength(t, i)
  {
    hide Indexed, RowEncodes, Over, RowLength;
    forall i: nat
      ensures |Get(r, Indexed(t.name, i))| == RowLength(t, i)
      ensures |Get(mm, Indexed(t.name, i))| <= |Get(Overlay(mm, r), Indexed(t.name, i))|
      ensures |Get(mm, Indexed(t.name, i))| <= RowLength(t, i) ==>
                Get(Overlay(mm, r), Indexed(t.name, i)) == Get(r, Indexed(t.name, i))
    {
      RowListLength(s, r, t, i);
      OverLength(Get(r, Indexed(t.name, i)), Get(mm, Indexed(t.name, i)));
      OverlayGet(mm, r, Indexed(t.name, i));
    }
    if RowsIn(s, Overlay(mm, r), t) {
      forall i: nat ensures |Get(mm, Indexed(t.name, i))| <= RowLength(t, i) {
        RowListLength(s, Overlay(mm, r), t, i);
      }
    }
  }

  lemma ColsOverIff(s: Scheme, mm: MultiMap, t: Table, c: MultiMap)
    requires WellFormed(t.table, t.columnsType) && ColsIn(s, c, t)
    ensures ColsIn(s, Overlay(mm, c), t) <==> forall i: nat :: |Get(mm, Indexed(t.name, i))| <= ColLength(t, i)
  {
    hide Indexed, ColEncodes, Over, ColLength;
    forall i: nat
      ensures |Get(c, Indexed(t.name, i))| == ColLength(t, i)
      ensures |Get(mm, Indexed(t.name, i))| <= |Get(Overlay(mm, c), Indexed(t.name, i))|
      ensures |Get(mm, Indexed(t.name, i))| <= ColLength(t, i) ==>
                Get(Overlay(mm, c), Indexed(t.name, i)) == Get(c, Indexed(t.name, i))
    {
      ColListLength(s, c, t, i);
      OverLength(Get(c, Indexed(t.name, i)), Get(mm, Indexed(t.name, i)));
      OverlayGet(mm, c, Indexed(t.name, i));
    }
    if ColsIn(s, Overlay(mm, c), t) {
      forall i: nat ensures |Get(mm, Indexed(t.name, i))| <= ColLength(t, i) {
        ColListLength(s, Overlay(mm, c), t, i);
      }
    }
  }

  lemma ValuesOverIff(s: Scheme, mm: MultiMap, t: Table, v: MultiMap)
    requires WellFormed(t.table, t.columnsType) && ValuesIn(s, v, t)
    ensures ValuesIn(s, Overlay(mm, v), t) <==>
            forall c: nat, w :: |Get(mm, ValueKey(t.name, c, w))| <= ValueCount(t, c, w)
  {
    hide ValueKey, Over, RowTags, Matches, ValueCount;
    forall c: nat, w
      ensures Get(Overlay(mm, v), ValueKey(t.name, c, w)) == Get(v, ValueKey(t.name, c, w))
              <==> |Get(mm, ValueKey(t.name, c, w))| <= ValueCount(t, c, w)
    {
      ValueListLength(s, v, t, c, w);
      OverLength(Get(v, ValueKey(t.name, c, w)), Get(mm, ValueKey(t.name, c, w)));
      OverlayGet(mm, v, ValueKey(t.name, c, w));
    }
    if ValuesIn(s, Overlay(mm, v), t) {
      forall c: nat, w ensures |Get(mm, ValueKey(t.name, c, w))| <= ValueCount(t, c, w) {
        assert Get(Overlay(mm, v), ValueKey(t.name, c, w)) == Get(v, ValueKey(t.name, c, w));
      }
    }
  }

  /** An uploaded table is served exactly when no list that stood under its keys was longer than its own:
      otherwise the tail of that list is still found behind the new one. */
  lemma UploadServesIff(s: Scheme, cat: Catalog, t: Table, next: Catalog)
    requires WellFormed(t.table, t.columnsType) && Uploaded(s, cat, t, next)
    ensures Serves(s, next, t) <==> NothingLonger(cat, t)
  {
    hide RowsIn, ColsIn, ValuesIn, Uploaded, AreIndexes, Overlay, RowLength, ColLength, ValueCount, Indexed, ValueKey;
    var r, v, c := UploadParts(s, cat, t, next);
    IndexesServe(s, t, r, v, c);
    RowsOverIff(s, Lookup(cat, ROW_TABLE), t, r);
    ColsOverIff(s, Lookup(cat, COLUMN_TABLE), t, c);
    ValuesOverIff(s, Lookup(cat, VALUE_TABLE), t, v);
  }

  lemma ServedLengths(s: Scheme, cat: Catalog, u: Table, t: Table)
    requires WellFormed(u.table, u.columnsType) && WellFormed(t.table, t.columnsType) && u.name == t.name
    requires Serves(s, cat, u)
    ensures NothingLonger(cat, t) <==> NothingShrank(u, t)
  {
    hide RowsIn, ColsIn, ValuesIn, RowLength, ColLength, ValueCount, Indexed, ValueKey;
    forall i: nat
      ensures |Get(Lookup(cat, ROW_TABLE), Indexed(t.name, i))| == RowLength(u, i)
      ensures |Get(Lookup(cat, COLUMN_TABLE), Indexed(t.name, i))| == ColLength(u, i)
    {
      RowListLength(s, Lookup(cat, ROW_TABLE), u, i);
      ColListLength(s, Lookup(cat, COLUMN_TABLE), u, i);
    }
    forall c: nat, v ensures |Get(Lookup(cat, VALUE_TABLE), ValueKey(t.name, c, v))| == ValueCount(u, c, v) {
      ValueListLength(s, Lookup(cat, VALUE_TABLE), u, c, v);
    }
    if NothingLonger(cat, t) {
      forall i: nat ensures RowLength(u, i) <= RowLength(t, i) && ColLength(u, i) <= ColLength(t, i) {
        assert |Get(Lookup(cat, ROW_TABLE), Indexed(t.name, i))| <= RowLength(t, i);
      }
      forall c: nat, v ensures ValueCount(u, c, v) <= ValueCount(t, c, v) {
        assert |Get(Lookup(cat, VALUE_TABLE), ValueKey(t.name, c, v))| <= ValueCount(t, c, v);
      }
    }
  }

  /** A table that is uploaded over one that was served is served exactly when no list shrank: no fewer
      rows, no fewer stored columns, and no text that became rarer in its column. */
  lemma ReuploadServesIff(s: Scheme, cat: Catalog, u: Table, t: Table, next: Catalog)
    requires WellFormed(u.table, u.columnsType) && WellFormed(t.table, t.columnsType) && u.name == t.name
    requires Serves(s, cat, u) && Uploaded(s, cat, t, next)
    ensures Serves(s, next, t) <==> NothingShrank(u, t)
  {
    hide Serves, Uploaded, NothingLonger, NothingShrank;
    UploadServesIff(s, cat, t, next);
    ServedLengths(s, cat, u, t);
  }

  lemma UploadedLengths(s: Scheme, cat: Catalog, u: Table, next: Catalog)
    requires WellFormed(u.table, u.columnsType) && Uploaded(s, cat, u, next)
    ensures forall i: nat {:trigger Indexed(u.name, i)} ::
              && |Get(Lookup(next, ROW_TABLE), Indexed(u.name, i))|
                 == Longer(|Get(Lookup(cat, ROW_TABLE), Indexed(u.name, i))|, RowLength(u, i))
              && |Get(Lookup(next, COLUMN_TABLE), Indexed(u.name, i))|
                 == Longer(|Get(Lookup(cat, COLUMN_TABLE), Indexed(u.name, i))|, ColLength(u, i))
    ensures forall c: nat, v {:trigger ValueKey(u.name, c, v)} ::
              |Get(Lookup(next, VALUE_TABLE), ValueKey(u.name, c, v))|
              == Longer(|Get(Lookup(cat, VALUE_TABLE), ValueKey(u.name, c, v))|, ValueCount(u, c, v))
  {
    hide RowsIn, ColsIn, ValuesIn, Uploaded, AreIndexes, Overlay, RowLength, ColLength, ValueCount, Indexed, ValueKey,
      Over;
    var r, v, c := UploadParts(s, cat, u, next);
    IndexesServe(s, u, r, v, c);
    forall i: nat
      ensures |Get(Lookup(next, ROW_TABLE), Indexed(u.name, i))|
           == Longer(|Get(Lookup(cat, ROW_TABLE), Indexed(u.name, i))|, RowLength(u, i))
      ensures |Get(Lookup(next, COLUMN_TABLE), Indexed(u.name, i))|
           == Longer(|Get(Lookup(cat, COLUMN_TABLE), Indexed(u.name, i))|, ColLength(u, i))
    {
      RowListLength(s, r, u, i);
      ColListLength(s, c, u, i);
      OverlayLength(Lookup(cat, ROW_TABLE), r, Indexed(u.name, i));
      OverlayLength(Lookup(cat, COLUMN_TABLE), c, Indexed(u.name, i));
    }
    forall d: nat, w
      ensures |Get(Lookup(next, VALUE_TABLE), ValueKey(u.name, d, w))|
           == Longer(|Get(Lookup(cat, VALUE_TABLE), ValueKey(u.name, d, w))|, ValueCount(u, d, w))
    {
      ValueListLength(s, v, u, d, w);
      OverlayLength(Lookup(cat, VALUE_TABLE), v, ValueKey(u.name, d, w));
    }
  }

  function Longer(a: nat, b: nat): nat {
    if a < b then b else a
  }

  lemma OverlayLength(prior: MultiMap, next: MultiMap, key: string)
    ensures |Get(Overlay(prior, next), key)| == Longer(|Get(prior, key)|, |Get(next, key)|)
  {
    OverlayGet(prior, next, key);
    OverLength(Get(next, key), Get(prior, key));
  }

  /** An upload of `u` adds to what stands in the way of a later `t` of the same name just the lists that
      are longer for `u`. */
  lemma NothingLongerAfter(s: Scheme, cat: Catalog, u: Table, next: Catalog, t: Table)
    requires WellFormed(u.table, u.columnsType) && WellFormed(t.table, t.columnsType) && u.name == t.name
    requires Uploaded(s, cat, u, next)
    ensures NothingLonger(next, t) <==> NothingLonger(cat, t) && NothingShrank(u, t)
  {
    hide Uploaded, RowLength, ColLength, ValueCount, Indexed, ValueKey, Get, Lookup;
    UploadedLengths(s, cat, u, next);
    if NothingLonger(next, t) {
      forall i: nat
        ensures RowLength(u, i) <= RowLength(t, i) && ColLength(u, i) <= ColLength(t, i)
      {
        assert |Get(Lookup(next, ROW_TABLE), Indexed(u.name, i))| <= RowLength(t, i);
      }
      forall c: nat, v ensures ValueCount(u, c, v) <= ValueCount(t, c, v) {
        assert |Get(Lookup(next, VALUE_TABLE), ValueKey(u.name, c, v))| <= ValueCount(t, c, v);
      }
    }
  }

  // ----- the join store -----

  /** No list under a row of the first table is longer than its list of partners. */
  ghost predicate JoinNotLonger(mm: MultiMap, t1: Table, j1: nat, t2: Table, j2: nat)
    requires HasColumn(t1.table, j1) && HasColumn(t2.table, j2)
  {
    forall r: nat {:trigger Indexed(t1.name, r)} ::
      |Get(mm, Indexed(t1.name, r))| <= |Partners(t1, j1, t2, j2, r)|
  }

  /** No row has fewer partners than it had. */
  ghost predicate NoPartnersLost(u1: Table, u2: Table, t1: Table, t2: Table, j1: nat, j2: nat)
    requires HasColumn(u1.table, j1) && HasColumn(u2.table, j2)
    requires HasColumn(t1.table, j1) && HasColumn(t2.table, j2)
  {
    forall r: nat :: |Partners(u1, j1, u2, j2, r)| <= |Partners(t1, j1, t2, j2, r)|
  }

  /** A join that is merged over what its store held is served exactly when no list there was longer. */
  lemma JoinOverIff(s: Scheme, mm: MultiMap, t1: Table, j1: nat, t2: Table, j2: nat, j: MultiMap)
    requires HasColumn(t1.table, j1) && HasColumn(t2.table, j2) && JoinIn(s, j, t1, j1, t2, j2)
    ensures JoinIn(s, Overlay(mm, j), t1, j1, t2, j2) <==> JoinNotLonger(mm, t1, j1, t2, j2)
  {
    hide Indexed, Over, RowTags, Partners;
    forall r: nat
      ensures Get(Overlay(mm, j), Indexed(t1.name, r)) == Get(j, Indexed(t1.name, r))
              <==> |Get(mm, Indexed(t1.name, r))| <= |Partners(t1, j1, t2, j2, r)|
    {
      OverLength(Get(j, Indexed(t1.name, r)), Get(mm, Indexed(t1.name, r)));
      OverlayGet(mm, j, Indexed(t1.name, r));
    }
    if JoinIn(s, Overlay(mm, j), t1, j1, t2, j2) {
      forall r: nat ensures |Get(mm, Indexed(t1.name, r))| <= |Partners(t1, j1, t2, j2, r)| {
        assert Get(Overlay(mm, j), Indexed(t1.name, r)) == Get(j, Indexed(t1.name, r));
      }
    }
  }

  lemma JoinLengths(s: Scheme, mm: MultiMap, u1: Table, u2: Table, t1: Table, t2: Table, j1: nat, j2: nat)
    requires HasColumn(u1.table, j1) && HasColumn(u2.table, j2) && JoinIn(s, mm, u1, j1, u2, j2)
    requires HasColumn(t1.table, j1) && HasColumn(t2.table, j2) && u1.name == t1.name
    ensures JoinNotLonger(mm, t1, j1, t2, j2) <==> NoPartnersLost(u1, u2, t1, t2, j1, j2)
  {
    hide Indexed, Partners, Get;
    assert forall r: nat :: |Get(mm, Indexed(t1.name, r))| == |Partners(u1, j1, u2, j2, r)|;
  }

  /** A join of tables that were uploaded again, merged over the join of their older versions, is served
      exactly when no row lost a partner. */
  lemma ReuploadJoinIff(s: Scheme, mm: MultiMap, u1: Table, u2: Table, t1: Table, t2: Table, j1: nat, j2: nat,
      j: MultiMap)
    requires HasColumn(u1.table, j1) && HasColumn(u2.table, j2) && JoinIn(s, mm, u1, j1, u2, j2)
    requires HasColumn(t1.table, j1) && HasColumn(t2.table, j2) && JoinIn(s, j, t1, j1, t2, j2)
    requires u1.name == t1.name
    ensures JoinIn(s, Overlay(mm, j), t1, j1, t2, j2) <==> NoPartnersLost(u1, u2, t1, t2, j1, j2)
  {
    hide JoinIn, JoinNotLonger, NoPartnersLost, Overlay;
    JoinOverIff(s, mm, t1, j1, t2, j2, j);
    JoinLengths(s, mm, u1, u2, t1, t2, j1, j2);
  }

  lemma JoinNotLongerAfter(s: Scheme, mm: MultiMap, u1: Table, u2: Table, j: MultiMap, t1: Table, t2: Table,
      j1: nat, j2: nat)
    requires HasColumn(u1.table, j1) && HasColumn(u2.table, j2) && JoinIn(s, j, u1, j1, u2, j2)
    requires HasColumn(t1.table, j1) && HasColumn(t2.table, j2) && u1.name == t1.name
    ensures JoinNotLonger(Overlay(mm, j), t1, j1, t2, j2) <==>
            JoinNotLonger(mm, t1, j1, t2, j2) && NoPartnersLost(u1, u2, t1, t2, j1, j2)
  {
    hide Indexed, Partners, Get, Overlay;
    forall r: nat
      ensures |Get(Overlay(mm, j), Indexed(t1.name, r))|
           == Longer(|Get(mm, Indexed(t1.name, r))|, |Partners(u1, j1, u2, j2, r)|)
    {
      OverlayLength(mm, j, Indexed(t1.name, r));
    }
    if JoinNotLonger(Overlay(mm, j), t1, j1, t2, j2) {
      forall r: nat ensures |Partners(u1, j1, u2, j2, r)| <= |Partners(t1, j1, t2, j2, r)| {
        assert |Get(Overlay(mm, j), Indexed(t1.name, r))| <= |Partners(t1, j1, t2, j2, r)|;
      }
    }
  }

  /** A join store that is right for two tables is right for two others of the same names exactly when
      all rows have the same partners. */
  lemma StaleJoinIff(s: Scheme, mm: MultiMap, u1: Table, u2: Table, t1: Table, t2: Table, j1: nat, j2: nat)
    requires PrfInjective(s) && u1.name == t1.name && u2.name == t2.name
    requires HasColumn(u1.table, j1) && HasColumn(u2.table, j2) && JoinIn(s, mm, u1, j1, u2, j2)
    requires HasColumn(t1.table, j1) && HasColumn(t2.table, j2)
    ensures JoinIn(s, mm, t1, j1, t2, j2) <==>
            forall r: nat :: Partners(u1, j1, u2, j2, r) == Partners(t1, j1, t2, j2, r)
  {
    hide Indexed, Partners, RowTags;
    forall r: nat
      ensures Get(mm, Indexed(t1.name, r)) == RowTags(s, u2.name, Partners(u1, j1, u2, j2, r))
    {
    }
    if JoinIn(s, mm, t1, j1, t2, j2) {
      forall r: nat ensures Partners(u1, j1, u2, j2, r) == Partners(t1, j1, t2, j2, r) {
        assert Get(mm, Indexed(t1.name, r)) == RowTags(s, t2.name, Partners(t1, j1, t2, j2, r));
        RowTagsInjective(s, t2.name, Partners(u1, j1, u2, j2, r), Partners(t1, j1, t2, j2, r));
      }
    }
  }

  lemma RowTagsInjective(s: Scheme, name: string, a: seq<nat>, b: seq<nat>)
    requires PrfInjective(s) && RowTags(s, name, a) == RowTags(s, name, b)
    ensures a == b
  {
    hide Tag, Indexed;
    assert |a| == |RowTags(s, name, a)| == |b|;
    forall i | 0 <= i < |a| ensures a[i] == b[i] {
      assert RowTags(s, name, a)[i] == RowTags(s, name, b)[i];
      TagInjective(s, Indexed(name, a[i]), Indexed(name, b[i]));
      IndexedInjective(name, a[i], name, b[i]);
    }
  }
}
