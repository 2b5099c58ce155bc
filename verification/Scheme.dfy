/** The foreign cryptography as parameters, with what is assumed of it, and the tags and labels the
    client derives from it. */
module Scheme {
  import opened Numerals
  import opened Keys
  import opened Hex

  datatype Scheme = Scheme(
    /** AES-CBC under the fixed key and IV, as `get_prf` calls it. */
    prf: string -> seq<Byte>,
    /** The first 16 bytes of SHA-512. */
    digest: string -> seq<Byte>,
    /** AES-CBC with OpenSSL's own padding block, and the bytes that decrypting without the final
        call yields. */
    aesEncrypt: string -> string,
    aesDecrypt: string -> string,
    /** What is read behind the bytes that a decryption wrote. */
    stale: nat -> char,
    /** What comes of a ciphertext that is too long for the decryption buffer or no whole number of
        blocks. */
    misread: string -> string,
    /** BFV on a constant plaintext: encryption draws a coin, addition works on ciphertexts. */
    modulus: nat,
    bfvEncrypt: (nat, int) -> string,
    bfvDecrypt: string -> nat,
    bfvAdd: (string, string) -> string,
    isCipher: string -> bool,
    /** The tags and counters for which digests are assumed not to collide: a 16-byte digest cannot
        be injective on all texts. */
    tags: set<string>,
    limit: nat)

  ghost predicate PrfInjective(s: Scheme) {
    forall x, y :: s.prf(x) == s.prf(y) ==> x == y
  }

  ghost predicate CollisionFree(s: Scheme) {
    forall a, i: nat, b, j: nat {:trigger Indexed(a, i), Indexed(b, j)} ::
      (&& a in s.tags && b in s.tags && i <= s.limit && j <= s.limit
       && s.digest(Indexed(a, i)) == s.digest(Indexed(b, j)))
      ==> Indexed(a, i) == Indexed(b, j)
  }

  ghost predicate SymmetricInverts(s: Scheme) {
    forall p :: |p| % 16 == 0 ==> s.aesDecrypt(s.aesEncrypt(p)) == p && |s.aesEncrypt(p)| == |p| + 16
  }

  ghost predicate DecryptsCell(s: Scheme, m: nat, cipher: string) {
    s.isCipher(cipher) && s.bfvDecrypt(cipher) == m
  }

  ghost predicate EncryptionInverts(s: Scheme) {
    forall m: nat, coin :: m < s.modulus ==> DecryptsCell(s, m, s.bfvEncrypt(m, coin))
  }

  ghost predicate AdditionHomomorphic(s: Scheme)
    requires 0 < s.modulus
  {
    forall a, b {:trigger s.bfvAdd(a, b)} :: s.isCipher(a) && s.isCipher(b) ==>
      DecryptsCell(s, (s.bfvDecrypt(a) + s.bfvDecrypt(b)) % s.modulus, s.bfvAdd(a, b))
  }

  ghost predicate Homomorphic(s: Scheme) {
    && 0 < s.modulus <= INT_MAX + 1
    && EncryptionInverts(s)
    && (forall c :: s.isCipher(c) ==> s.bfvDecrypt(c) < s.modulus)
    && AdditionHomomorphic(s)
  }

  ghost predicate Assumptions(s: Scheme) {
    PrfInjective(s) && CollisionFree(s) && SymmetricInverts(s) && Homomorphic(s)
  }

  // ----- tags and labels -----

  /** `prfFunctionReturnString`: the tag that opens the list of a key. */
  function Tag(s: Scheme, key: string): string {
    HexOf(s.prf(key))
  }

  /** `getHashEncryption` of `tag,i`: where entry `i` of the list opened by `tag` is stored. */
  function Label(s: Scheme, tag: string, i: nat): string {
    HexOf(s.digest(Indexed(tag, i)))
  }

  lemma TagInjective(s: Scheme, k: string, l: string)
    requires PrfInjective(s) && Tag(s, k) == Tag(s, l)
    ensures k == l
  {
    HexInjective(s.prf(k), s.prf(l));
  }

  /** Within the scope a label determines the tag and the counter. */
  ghost predicate LabelsDistinct(s: Scheme) {
    forall a, i: nat, b, j: nat {:trigger Label(s, a, i), Label(s, b, j)} ::
      a in s.tags && b in s.tags && i <= s.limit && j <= s.limit && Label(s, a, i) == Label(s, b, j)
      ==> a == b && i == j
  }

  lemma LabelsAreDistinct(s: Scheme)
    requires CollisionFree(s)
    ensures LabelsDistinct(s)
  {
    forall a, i: nat, b, j: nat
      | a in s.tags && b in s.tags && i <= s.limit && j <= s.limit && Label(s, a, i) == Label(s, b, j)
      ensures a == b && i == j
    {
      HexInjective(s.digest(Indexed(a, i)), s.digest(Indexed(b, j)));
      IndexedInjective(a, i, b, j);
    }
  }

  // ----- an instance -----

  function Spread(text: string): seq<Byte> {
    if text == [] then []
    else
      CharParts(text[0] as int);
      [text[0] as int / 65536, text[0] as int / 256 % 256, text[0] as int % 256] + Spread(text[1..])
  }

  /** A character is determined by three bytes. */
  lemma CharParts(n: nat)
    requires n < 0x110000
    ensures n / 65536 < 256
    ensures n == 65536 * (n / 65536) + 256 * (n / 256 % 256) + n % 256
  {
    assert n / 256 / 256 == n / 65536;
  }

  lemma {:induction false} SpreadInjective(a: string, b: string)
    requires Spread(a) == Spread(b)
    ensures a == b
  {
    if a != [] && b != [] {
      var x, y := Spread(a), Spread(b);
      assert x[0] == y[0] && x[1] == y[1] && x[2] == y[2];
      CharParts(a[0] as int);
      CharParts(b[0] as int);
      assert x[3..] == Spread(a[1..]) && y[3..] == Spread(b[1..]);
      SpreadInjective(a[1..], b[1..]);
      assert a[0] as int == b[0] as int;
      assert a == [a[0]] + a[1..] && b == [b[0]] + b[1..];
    }
  }

  /** Plain stand-ins that meet every assumption, for any scope and any modulus. */
  function Plain(modulus: nat, tags: set<string>, limit: nat): Scheme
    requires 0 < modulus
  {
    Scheme(
      text => Spread(text), text => Spread(text),
      p => p + PADDING_BLOCK, c => if |c| < 16 then [] else c[..|c| - 16], _ => '#', _ => [],
      modulus, (m: nat, _) => Wide(m), c => Read(c), (a, b) => Wide((Read(a) + Read(b)) % modulus),
      c => Read(c) < modulus && c == Wide(Read(c)),
      tags, limit)
  }

  const PADDING_BLOCK := "################"

  /** A ciphertext is long: here the number stands behind 128 other characters. */
  function Wide(m: nat): (c: string)
    ensures |c| > 128
  {
    seq(128, _ => '#') + Dec(m)
  }

  function Read(c: string): nat {
    if |c| > 128 && AllDigits(c[128..], 10) then Value(c[128..], 10) else 0
  }

  lemma ReadOfWide(m: nat)
    ensures Read(Wide(m)) == m
  {
    hide Print, Value, AllDigits;
    ValueOfPrint(m, 10, false);
    assert Wide(m)[128..] == Dec(m);
  }

  lemma PlainEncryptionInverts(s: Scheme, m: nat, coin: int)
    requires m < s.modulus && s == Plain(s.modulus, s.tags, s.limit)
    ensures DecryptsCell(s, m, s.bfvEncrypt(m, coin))
  {
    ReadOfWide(m);
    assert s.bfvEncrypt(m, coin) == Wide(m);
  }

  lemma PlainAdditionHomomorphic(s: Scheme, a: string, b: string)
    requires 0 < s.modulus && s == Plain(s.modulus, s.tags, s.limit)
    ensures DecryptsCell(s, (s.bfvDecrypt(a) + s.bfvDecrypt(b)) % s.modulus, s.bfvAdd(a, b))
  {
    var sum := (Read(a) + Read(b)) % s.modulus;
    ReadOfWide(sum);
    assert s.bfvAdd(a, b) == Wide(sum);
  }

  /** The assumptions are consistent. */
  lemma PlainIsValid(modulus: nat, tags: set<string>, limit: nat)
    requires 0 < modulus <= INT_MAX + 1
    ensures Assumptions(Plain(modulus, tags, limit))
  {
    var s := Plain(modulus, tags, limit);
    assert EncryptionInverts(s) by {
      forall m: nat, coin | m < s.modulus ensures DecryptsCell(s, m, s.bfvEncrypt(m, coin)) {
        PlainEncryptionInverts(s, m, coin);
      }
    }
    assert AdditionHomomorphic(s) by {
      forall a, b | s.isCipher(a) && s.isCipher(b)
        ensures DecryptsCell(s, (s.bfvDecrypt(a) + s.bfvDecrypt(b)) % s.modulus, s.bfvAdd(a, b))
      {
        PlainAdditionHomomorphic(s, a, b);
      }
    }
    forall x, y | Spread(x) == Spread(y) ensures x == y {
      SpreadInjective(x, y);
    }
    forall p ensures (p + PADDING_BLOCK)[..|p + PADDING_BLOCK| - 16] == p {
    }
    assert forall x :: s.prf(x) == Spread(x) && s.digest(x) == Spread(x);
  }
}
