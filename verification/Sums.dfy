/** Adding up a column under encryption: the aggregate `SUM_ex` over `add_ex`. */
module Sums {
  import opened Scheme

  /** The aggregate starts with the first value and adds each further one; it needs at least one. */
  function AddUp(s: Scheme, ciphers: seq<string>): string
    requires |ciphers| > 0
  {
    var last := |ciphers| - 1;
    if last == 0 then ciphers[0] else s.bfvAdd(AddUp(s, ciphers[..last]), ciphers[last])
  }

  function Sum(values: seq<nat>): nat {
    if values == [] then 0 else Sum(values[..|values| - 1]) + values[|values| - 1]
  }

  method SumEx(s: Scheme, ciphers: seq<string>) returns (state: string)
    requires |ciphers| > 0
    ensures state == AddUp(s, ciphers)
  {
    state := ciphers[0];
    for i := 1 to |ciphers|
      invariant state == AddUp(s, ciphers[..i])
    {
      assert ciphers[..i + 1][..i] == ciphers[..i];
      state := s.bfvAdd(state, ciphers[i]);
    }
    assert ciphers[..|ciphers|] == ciphers;
  }

  lemma {:induction false} TimesAtLeast(t: int, p: int, q: int)
    requires t > 0 && p < q
    ensures t * p + t <= t * q
    decreases q - p
  {
    assert t * q == t * (q - 1) + t;
    if p < q - 1 {
      TimesAtLeast(t, p, q - 1);
    }
  }

  lemma DivisionUnique(a: int, t: int, q: int, r: int)
    requires t > 0 && a == t * q + r && 0 <= r < t
    ensures a % t == r
  {
    var p := a / t;
    if p < q {
      TimesAtLeast(t, p, q);
    } else if q < p {
      TimesAtLeast(t, q, p);
    }
  }

  lemma ModAdd(a: nat, b: nat, t: nat)
    requires t > 0
    ensures (a % t + b) % t == (a + b) % t
  {
    var x := a % t + b;
    assert t * (a / t) + t * (x / t) == t * (a / t + x / t);
    DivisionUnique(a + b, t, a / t + x / t, x % t);
  }

  lemma AddDecrypts(s: Scheme, a: string, m: nat, b: string, n: nat)
    requires Homomorphic(s) && DecryptsCell(s, m, a) && DecryptsCell(s, n, b)
    ensures DecryptsCell(s, (m + n) % s.modulus, s.bfvAdd(a, b))
  {
  }

  /** The ciphertext that was added up decrypts to the plaintext sum modulo the plain modulus. */
  lemma {:induction false} AddUpDecrypts(s: Scheme, ciphers: seq<string>, values: seq<nat>)
    requires Homomorphic(s) && |ciphers| == |values| > 0
    requires forall i :: 0 <= i < |values| ==> values[i] < s.modulus && DecryptsCell(s, values[i], ciphers[i])
    ensures DecryptsCell(s, Sum(values) % s.modulus, AddUp(s, ciphers))
  {
    hide Homomorphic, DecryptsCell;
    var last := |values| - 1;
    if last == 0 {
      assert values[..0] == [];
      assert Sum(values) == values[0];
      SmallMod(values[0], s.modulus);
    } else {
      var front := AddUp(s, ciphers[..last]);
      AddUpDecrypts(s, ciphers[..last], values[..last]);
      AddDecrypts(s, front, Sum(values[..last]) % s.modulus, ciphers[last], values[last]);
      ModAdd(Sum(values[..last]), values[last], s.modulus);
    }
  }

  lemma SmallMod(x: nat, t: nat)
    requires t > 0
    ensures x % t == x <==> x < t
  {
  }

  lemma {:induction false} SumAtMost(values: seq<nat>, max: nat)
    requires forall i :: 0 <= i < |values| ==> values[i] <= max
    ensures Sum(values) <= |values| * max
  {
    if values != [] {
      var last := |values| - 1;
      SumAtMost(values[..last], max);
      assert |values| * max == last * max + max;
    }
  }

  /** The encrypted sum is the true sum exactly when the true sum is below the modulus, and so in
      particular when the number of rows times the largest cell is. */
  lemma SumExactIff(s: Scheme, ciphers: seq<string>, values: seq<nat>, max: nat)
    requires Homomorphic(s) && |ciphers| == |values| > 0
    requires forall i :: 0 <= i < |values| ==> values[i] <= max < s.modulus && DecryptsCell(s, values[i], ciphers[i])
    ensures s.bfvDecrypt(AddUp(s, ciphers)) == Sum(values) <==> Sum(values) < s.modulus
    ensures |values| * max < s.modulus ==> s.bfvDecrypt(AddUp(s, ciphers)) == Sum(values)
  {
    AddUpDecrypts(s, ciphers, values);
    SmallMod(Sum(values), s.modulus);
    SumAtMost(values, max);
  }
}
