/** The label function of the server extension, and where it confuses counters. */
module ServerLabels {
  import opened Numerals
  import opened Keys
  import opened Cells
  import opened Hex
  import opened Scheme

  /** `test_enc`: the text `tag,counter` padded with `0` to whole blocks and encrypted. */
  function ServerLabel(encrypt: string -> seq<Byte>, tag: string, counter: nat): string {
    HexOf(encrypt(Padded(Indexed(tag, counter), '0')))
  }

  function Power10(m: nat): nat {
    if m == 0 then 1 else 10 * Power10(m - 1)
  }

  /** Writing zeros behind a positive decimal multiplies it by a power of ten. */
  lemma {:induction false} DecTimesPower(n: nat, m: nat)
    requires n > 0
    ensures Dec(n * Power10(m)) == Dec(n) + Repeat('0', m)
  {
    if m == 0 {
      assert Dec(n) + Repeat('0', 0) == Dec(n);
    } else {
      var k := n * Power10(m - 1);
      DecTimesPower(n, m - 1);
      assert n * Power10(m) == 10 * k;
      PowerPositive(m - 1);
      ProductPositive(n, Power10(m - 1));
      assert Dec(10 * k) == Dec(k) + ['0'];
      assert Repeat('0', m) == Repeat('0', m - 1) + ['0'];
    }
  }

  lemma {:induction false} PowerPositive(m: nat)
    ensures Power10(m) > 0
  {
    if m > 0 {
      PowerPositive(m - 1);
    }
  }

  lemma ProductPositive(a: nat, b: nat)
    requires a > 0 && b > 0
    ensures a * b > 0
  {
  }

  /** `j` is `i` with `m` zeros written behind it, for some `m`; 0 stands only for itself. */
  ghost predicate ZerosBehind(i: nat, j: nat) {
    i == j || (i > 0 && exists m: nat :: j == i * Power10(m))
  }

  lemma FilledOutIff(tag: string, i: nat, j: nat)
    ensures FilledOut(Indexed(tag, i), Indexed(tag, j), '0') <==> ZerosBehind(i, j)
  {
    var a, b := Indexed(tag, i), Indexed(tag, j);
    var prefix := tag + ",";
    assert a == prefix + Dec(i) && b == prefix + Dec(j);
    if FilledOut(a, b, '0') {
      var m := |b| - |a|;
      assert Dec(j) == b[|prefix|..] == Dec(i) + Repeat('0', m);
      if i > 0 {
        DecTimesPower(i, m);
        PrintInjective(j, i * Power10(m), 10, false);
      } else {
        assert Dec(j)[0] == '0';
      }
    }
    if i > 0 && exists m: nat :: j == i * Power10(m) {
      var m: nat :| j == i * Power10(m);
      DecTimesPower(i, m);
      assert b == a + Repeat('0', m);
    } else if i == j {
      assert b == a + Repeat('0', 0);
    }
  }

  /** Two counters of one tag get the same label from the server exactly when they fill the same
      number of blocks and one is the other times a power of ten. */
  lemma ServerLabelsEqualIff(encrypt: string -> seq<Byte>, tag: string, i: nat, j: nat)
    requires forall x, y :: encrypt(x) == encrypt(y) ==> x == y
    ensures ServerLabel(encrypt, tag, i) == ServerLabel(encrypt, tag, j) <==>
            && PaddedLength(|Indexed(tag, i)|) == PaddedLength(|Indexed(tag, j)|)
            && (ZerosBehind(i, j) || ZerosBehind(j, i))
  {
    hide Indexed, HexOf, Padded, ZerosBehind;
    PaddedEqualIff(Indexed(tag, i), Indexed(tag, j), '0');
    FilledOutIff(tag, i, j);
    FilledOutIff(tag, j, i);
    if ServerLabel(encrypt, tag, i) == ServerLabel(encrypt, tag, j) {
      HexInjective(encrypt(Padded(Indexed(tag, i), '0')), encrypt(Padded(Indexed(tag, j), '0')));
    }
  }

  /** In particular entries 1 and 10 of every tag share a label: a tag is hex of whole blocks, so both
      texts end in the same block. */
  lemma OneAndTenCollide(encrypt: string -> seq<Byte>, tag: string)
    requires |tag| % 16 == 0
    ensures ServerLabel(encrypt, tag, 1) == ServerLabel(encrypt, tag, 10)
  {
    assert Dec(1) == "1" && Dec(10) == "10";
    assert Padded(Indexed(tag, 1), '0') == Padded(Indexed(tag, 10), '0');
  }

  /** The label of the client tells them apart whenever its digest does. */
  lemma ClientLabelsDiffer(s: Scheme, tag: string, i: nat, j: nat)
    requires CollisionFree(s) && tag in s.tags && i <= s.limit && j <= s.limit && i != j
    ensures Label(s, tag, i) != Label(s, tag, j)
  {
    LabelsAreDistinct(s);
  }
}
