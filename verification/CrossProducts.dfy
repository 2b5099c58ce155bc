/** The plaintext answer of a join: filtering the cross product, and following selected rows instead. */
module CrossProducts {
  import opened Tables

  /** The rows that `WHERE T1.j1 = T2.j2 AND T1.c = v` selects from the cross product. */
  predicate Selected(rows1: Rows, c: nat, v: string, j1: nat, rows2: Rows, j2: nat, r1: nat, r2: nat)
    requires HasColumn(rows1, c) && HasColumn(rows1, j1) && HasColumn(rows2, j2) && r1 < |rows1| && r2 < |rows2|
  {
    rows1[r1][j1] == rows2[r2][j2] && rows1[r1][c] == v
  }

  /** The selected pairs in the order of nested loops, up to row `n1` of the first and row `n2` of the
      second table. */
  function Cross(rows1: Rows, c: nat, v: string, j1: nat, rows2: Rows, j2: nat, n1: nat, n2: nat): seq<(nat, nat)>
    requires HasColumn(rows1, c) && HasColumn(rows1, j1) && HasColumn(rows2, j2)
    requires n2 <= |rows2| && (n1 < |rows1| || (n1 == |rows1| && n2 == 0))
    decreases n1, n2
  {
    if n2 > 0 then
      Cross(rows1, c, v, j1, rows2, j2, n1, n2 - 1)
      + if Selected(rows1, c, v, j1, rows2, j2, n1, n2 - 1) then [(n1, n2 - 1)] else []
    else if n1 > 0 then Cross(rows1, c, v, j1, rows2, j2, n1 - 1, |rows2|)
    else []
  }

  predicate Before(p: (nat, nat), q: (nat, nat)) {
    p.0 < q.0 || (p.0 == q.0 && p.1 < q.1)
  }

  /** They are exactly the selected pairs of the cross product, each once and in order. */
  lemma {:induction false} CrossExact(rows1: Rows, c: nat, v: string, j1: nat, rows2: Rows, j2: nat, n1: nat, n2: nat)
    requires HasColumn(rows1, c) && HasColumn(rows1, j1) && HasColumn(rows2, j2)
    requires n2 <= |rows2| && (n1 < |rows1| || (n1 == |rows1| && n2 == 0))
    ensures var pairs := Cross(rows1, c, v, j1, rows2, j2, n1, n2);
            && (forall p :: p in pairs <==>
                  && p.0 < |rows1| && p.1 < |rows2| && Before(p, (n1, n2))
                  && Selected(rows1, c, v, j1, rows2, j2, p.0, p.1))
            && (forall i, j :: 0 <= i < j < |pairs| ==> Before(pairs[i], pairs[j]))
    decreases n1, n2
  {
    var pairs := Cross(rows1, c, v, j1, rows2, j2, n1, n2);
    if n2 > 0 {
      CrossExact(rows1, c, v, j1, rows2, j2, n1, n2 - 1);
      var front := Cross(rows1, c, v, j1, rows2, j2, n1, n2 - 1);
      forall i | 0 <= i < |front| ensures Before(front[i], (n1, n2 - 1)) {
        assert front[i] in front;
      }
      assert forall p: (nat, nat) :: Before(p, (n1, n2)) <==> Before(p, (n1, n2 - 1)) || p == (n1, n2 - 1);
    } else if n1 > 0 {
      CrossExact(rows1, c, v, j1, rows2, j2, n1 - 1, |rows2|);
      assert forall p: (nat, nat) :: p.1 < |rows2| ==> (Before(p, (n1, 0)) <==> Before(p, (n1 - 1, |rows2|)));
    }
  }

  function Seconds(pairs: seq<(nat, nat)>): (rs: seq<nat>)
    ensures |rs| == |pairs|
  {
    seq(|pairs|, i requires 0 <= i < |pairs| => pairs[i].1)
  }

  /** The rows of the second table that join with the given rows of the first, one list after the other. */
  function JoinedRows(rows1: Rows, j1: nat, rows2: Rows, j2: nat, rs: seq<nat>): seq<nat>
    requires HasColumn(rows1, j1) && HasColumn(rows2, j2) && Below(rs, |rows1|)
  {
    if rs == [] then []
    else
      var last := |rs| - 1;
      JoinedRows(rows1, j1, rows2, j2, rs[..last]) + Matches(rows2, j2, rows1[rs[last]][j1], |rows2|)
  }

  lemma SecondsAppend(pairs: seq<(nat, nat)>, p: (nat, nat))
    ensures Seconds(pairs + [p]) == Seconds(pairs) + [p.1]
  {
  }

  lemma JoinedRowsAppend(rows1: Rows, j1: nat, rows2: Rows, j2: nat, rs: seq<nat>, r: nat)
    requires HasColumn(rows1, j1) && HasColumn(rows2, j2) && r < |rows1| && Below(rs, |rows1|)
    ensures JoinedRows(rows1, j1, rows2, j2, rs + [r])
         == JoinedRows(rows1, j1, rows2, j2, rs) + Matches(rows2, j2, rows1[r][j1], |rows2|)
  {
    assert (rs + [r])[..|rs|] == rs;
  }

  /** First selecting rows of the one table and then following each to its partners in the other, up
      to row `n1` and among the partners of that row up to `n2`. */
  function Nested(rows1: Rows, c: nat, v: string, j1: nat, rows2: Rows, j2: nat, n1: nat, n2: nat): seq<nat>
    requires HasColumn(rows1, c) && HasColumn(rows1, j1) && HasColumn(rows2, j2)
    requires n2 <= |rows2| && (n1 < |rows1| || (n1 == |rows1| && n2 == 0))
  {
    MatchesBelow(rows1, c, v, n1);
    JoinedRows(rows1, j1, rows2, j2, Matches(rows1, c, v, n1))
    + if n1 < |rows1| && rows1[n1][c] == v then Matches(rows2, j2, rows1[n1][j1], n2) else []
  }

  lemma NestedStart(rows1: Rows, c: nat, v: string, j1: nat, rows2: Rows, j2: nat)
    requires HasColumn(rows1, c) && HasColumn(rows1, j1) && HasColumn(rows2, j2)
    ensures Nested(rows1, c, v, j1, rows2, j2, 0, 0) == []
  {
  }

  lemma NestedStep(rows1: Rows, c: nat, v: string, j1: nat, rows2: Rows, j2: nat, n1: nat, n2: nat)
    requires HasColumn(rows1, c) && HasColumn(rows1, j1) && HasColumn(rows2, j2)
    requires n2 < |rows2| && n1 < |rows1|
    ensures Nested(rows1, c, v, j1, rows2, j2, n1, n2 + 1)
         == Nested(rows1, c, v, j1, rows2, j2, n1, n2)
            + if Selected(rows1, c, v, j1, rows2, j2, n1, n2) then [n2] else []
  {
    hide JoinedRows;
    MatchesBelow(rows1, c, v, n1);
    var front := JoinedRows(rows1, j1, rows2, j2, Matches(rows1, c, v, n1));
    var partners := Matches(rows2, j2, rows1[n1][j1], n2);
    assert (front + partners) + [n2] == front + (partners + [n2]);
    assert partners + [] == partners && front + [] == front;
  }

  lemma NestedRow(rows1: Rows, c: nat, v: string, j1: nat, rows2: Rows, j2: nat, n1: nat)
    requires HasColumn(rows1, c) && HasColumn(rows1, j1) && HasColumn(rows2, j2) && n1 < |rows1|
    ensures Nested(rows1, c, v, j1, rows2, j2, n1 + 1, 0) == Nested(rows1, c, v, j1, rows2, j2, n1, |rows2|)
  {
    hide JoinedRows;
    MatchesBelow(rows1, c, v, n1);
    var front := Matches(rows1, c, v, n1);
    JoinedRowsAppend(rows1, j1, rows2, j2, front, n1);
    assert front + [] == front;
  }

  /** Filtering the cross product is the same as following the selected rows to their partners. */
  lemma {:induction false} CrossIsNested(rows1: Rows, c: nat, v: string, j1: nat, rows2: Rows, j2: nat, n1: nat,
      n2: nat)
    requires HasColumn(rows1, c) && HasColumn(rows1, j1) && HasColumn(rows2, j2)
    requires n2 <= |rows2| && (n1 < |rows1| || (n1 == |rows1| && n2 == 0))
    ensures Seconds(Cross(rows1, c, v, j1, rows2, j2, n1, n2)) == Nested(rows1, c, v, j1, rows2, j2, n1, n2)
    decreases n1, n2
  {
    if n2 > 0 {
      hide Nested, Selected;
      CrossIsNested(rows1, c, v, j1, rows2, j2, n1, n2 - 1);
      NestedStep(rows1, c, v, j1, rows2, j2, n1, n2 - 1);
      SecondsAppend(Cross(rows1, c, v, j1, rows2, j2, n1, n2 - 1), (n1, n2 - 1));
    } else if n1 > 0 {
      hide Nested, Selected;
      CrossIsNested(rows1, c, v, j1, rows2, j2, n1 - 1, |rows2|);
      NestedRow(rows1, c, v, j1, rows2, j2, n1 - 1);
    } else {
      hide Nested;
      NestedStart(rows1, c, v, j1, rows2, j2);
    }
  }

  lemma {:induction false} JoinedRowsBound(rows1: Rows, j1: nat, rows2: Rows, j2: nat, rs: seq<nat>)
    requires HasColumn(rows1, j1) && HasColumn(rows2, j2) && Below(rs, |rows1|)
    ensures Below(JoinedRows(rows1, j1, rows2, j2, rs), |rows2|)
  {
    if rs != [] {
      var last := |rs| - 1;
      JoinedRowsBound(rows1, j1, rows2, j2, rs[..last]);
      MatchesBelow(rows2, j2, rows1[rs[last]][j1], |rows2|);
    }
  }

  /** The rows of the second table that are in the answer of a join. */
  function PlainJoin(rows1: Rows, c: nat, v: string, j1: nat, rows2: Rows, j2: nat): seq<nat>
    requires HasColumn(rows1, c) && HasColumn(rows1, j1) && HasColumn(rows2, j2)
  {
    Seconds(Cross(rows1, c, v, j1, rows2, j2, |rows1|, 0))
  }

  lemma PlainJoinFollows(rows1: Rows, c: nat, v: string, j1: nat, rows2: Rows, j2: nat)
    requires HasColumn(rows1, c) && HasColumn(rows1, j1) && HasColumn(rows2, j2)
    ensures Below(Matches(rows1, c, v, |rows1|), |rows1|)
    ensures PlainJoin(rows1, c, v, j1, rows2, j2)
         == JoinedRows(rows1, j1, rows2, j2, Matches(rows1, c, v, |rows1|))
    ensures Below(PlainJoin(rows1, c, v, j1, rows2, j2), |rows2|)
  {
    hide Cross, Seconds, JoinedRows, Matches;
    MatchesBelow(rows1, c, v, |rows1|);
    CrossIsNested(rows1, c, v, j1, rows2, j2, |rows1|, 0);
    JoinedRowsBound(rows1, j1, rows2, j2, Matches(rows1, c, v, |rows1|));
    var rs := JoinedRows(rows1, j1, rows2, j2, Matches(rows1, c, v, |rows1|));
    assert rs + [] == rs;
  }
}
