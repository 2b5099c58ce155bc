/** The text keys of the four indexes and of the flattened entries, and when two of them agree. */
module Keys {
  import opened Numerals

  /** `name + "," + to_string(n)`: the key of a row (`T,r`), of a column (`T,c`), and the text that is
      hashed for entry `n` of the list opened by a tag. */
  function Indexed(name: string, n: nat): string {
    name + "," + Dec(n)
  }

  /** `T,c,v`: the key of the rows of table `T` whose column `c` holds the text `v`. */
  function ValueKey(name: string, c: nat, v: string): string {
    Indexed(name, c) + "," + v
  }

  lemma DecHasNoComma(n: nat)
    ensures ',' !in Dec(n)
  {
    assert AllDigits(Dec(n), 10);
  }

  /** The number behind the last comma and the name before it are determined, whatever commas the
      name itself holds. */
  lemma IndexedInjective(a: string, m: nat, b: string, n: nat)
    requires Indexed(a, m) == Indexed(b, n)
    ensures a == b && m == n
  {
    DecHasNoComma(m);
    DecHasNoComma(n);
    var s, x, y := Indexed(a, m), Dec(m), Dec(n);
    assert s[|a|] == ',' && s[|b|] == ',';
    assert forall i :: |a| < i < |s| ==> s[i] == x[i - |a| - 1];
    assert forall i :: |b| < i < |s| ==> s[i] == y[i - |b| - 1];
    assert |a| == |b|;
    assert s[..|a|] == a && s[..|b|] == b;
    assert s[|a| + 1..] == x && s[|b| + 1..] == y;
    PrintInjective(m, n, 10, false);
  }

  /** Within one table, the column and the text are determined even when the text holds commas. */
  lemma ValueKeyInjective(name: string, c: nat, v: string, d: nat, w: string)
    requires ValueKey(name, c, v) == ValueKey(name, d, w)
    ensures c == d && v == w
  {
    DecHasNoComma(c);
    DecHasNoComma(d);
    var s, x, y := ValueKey(name, c, v), Dec(c), Dec(d);
    var t := s[|name| + 1..];
    assert t == x + "," + v && t == y + "," + w;
    assert t[|x|] == ',' && t[|y|] == ',';
    assert forall i :: 0 <= i < |x| ==> t[i] == x[i];
    assert forall i :: 0 <= i < |y| ==> t[i] == y[i];
    assert |x| == |y|;
    assert t[..|x|] == x && t[..|y|] == y;
    assert t[|x| + 1..] == v && t[|y| + 1..] == w;
    PrintInjective(c, d, 10, false);
  }

  /** `b` reads like `a` followed by a column number. */
  ghost predicate Shadows(a: string, b: string) {
    exists c: nat :: Indexed(a, c) + "," <= b + ","
  }

  /** Two table names that can never produce the same value key. */
  ghost predicate Apart(a: string, b: string) {
    a != b && !Shadows(a, b) && !Shadows(b, a)
  }

  lemma ShorterNameShadows(a: string, c: nat, v: string, b: string, d: nat, w: string)
    requires ValueKey(a, c, v) == ValueKey(b, d, w) && |a| < |b|
    ensures Shadows(a, b)
  {
    DecHasNoComma(c);
    var s, x := ValueKey(a, c, v), Dec(c);
    assert s[|b|] == ',' && s[..|b| + 1] == b + ",";
    assert forall i :: |a| < i <= |a| + |x| ==> s[i] == x[i - |a| - 1];
    assert |b| > |a| + |x|;
    assert Indexed(a, c) + "," == s[..|a| + 2 + |x|] == (b + ",")[..|a| + 2 + |x|];
  }

  /** Names that are not apart share a key: some column and text of the one read like some column
      and text of the other. */
  lemma ShadowingNamesClash(a: string, b: string) returns (c: nat, v: string)
    requires Shadows(a, b)
    ensures ValueKey(a, c, v) == ValueKey(b, 0, "")
  {
    c :| Indexed(a, c) + "," <= b + ",";
    var n := |Indexed(a, c)| + 1;
    v := (b + ",")[n..] + "0,";
    assert Dec(0) == "0";
    assert b + "," == Indexed(a, c) + "," + (b + ",")[n..];
  }

  /** Two tables have a value key in common exactly when their names are not apart. */
  lemma ValueKeysClashIff(a: string, b: string)
    ensures (exists c: nat, v, d: nat, w :: ValueKey(a, c, v) == ValueKey(b, d, w)) <==> !Apart(a, b)
  {
    if c: nat, v, d: nat, w :| ValueKey(a, c, v) == ValueKey(b, d, w) {
      if |a| < |b| {
        ShorterNameShadows(a, c, v, b, d, w);
      } else if |b| < |a| {
        ShorterNameShadows(b, d, w, a, c, v);
      } else {
        assert ValueKey(a, c, v)[..|a|] == a && ValueKey(b, d, w)[..|b|] == b;
      }
    }
    if a == b {
      assert ValueKey(a, 0, "") == ValueKey(b, 0, "");
    } else if Shadows(a, b) {
      var c, v := ShadowingNamesClash(a, b);
    } else if Shadows(b, a) {
      var c, v := ShadowingNamesClash(b, a);
      assert ValueKey(a, 0, "") == ValueKey(b, c, v);
    }
  }

  lemma CommaFreeNotShadowed(a: string, b: string)
    requires ',' !in b
    ensures !Shadows(a, b)
  {
    forall c: nat ensures !(Indexed(a, c) + "," <= b + ",") {
      var s := Indexed(a, c) + ",";
      assert s[|a|] == ',' && |a| + 1 < |s|;
    }
  }

  /** Different names without a comma are apart. */
  lemma CommaFreeNamesApart(a: string, b: string)
    requires a != b && ',' !in a && ',' !in b
    ensures Apart(a, b)
  {
    CommaFreeNotShadowed(a, b);
    CommaFreeNotShadowed(b, a);
  }

  /** A name with a comma can answer for another table: column 2 of table `t,1` holding `x` has the
      key of column 1 of table `t` holding `2,x`. */
  lemma CommaInNameClashes()
    ensures ValueKey("t", 1, "2,x") == ValueKey("t,1", 2, "x")
    ensures !Apart("t", "t,1")
  {
    assert Dec(1) == "1" && Dec(2) == "2";
    ValueKeysClashIff("t", "t,1");
  }
}
