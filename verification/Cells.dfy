/** How one cell is padded, encrypted, decrypted and printed again. */
module Cells {
  import opened Wrappers
  import opened Numerals
  import opened Scheme

  // ----- padding -----

  function PaddedLength(n: nat): nat {
    if n % 16 == 0 then n else n - n % 16 + 16
  }

  function Repeat(fill: char, n: nat): (s: string)
    ensures |s| == n && forall i :: 0 <= i < n ==> s[i] == fill
  {
    seq(n, _ => fill)
  }

  function Padded(text: string, fill: char): string {
    text + Repeat(fill, PaddedLength(|text|) - |text|)
  }

  /** `padding16` of the client (`fill` is `#`) and of the server extension (`fill` is `0`). */
  method Padding16(plainText: string, hexData: array<char>, fill: char)
    requires hexData.Length >= PaddedLength(|plainText|)
    modifies hexData
    ensures hexData[..PaddedLength(|plainText|)] == Padded(plainText, fill)
    ensures hexData[PaddedLength(|plainText|)..] == old(hexData[PaddedLength(|plainText|)..])
  {
    var padLength := |plainText|;
    if |plainText| % 16 != 0 {
      padLength := |plainText| - |plainText| % 16 + 16;
    }
    for i := 0 to padLength
      invariant forall j :: 0 <= j < i ==> hexData[j] == Padded(plainText, fill)[j]
      invariant hexData[padLength..] == old(hexData[padLength..])
    {
      if i < |plainText| {
        hexData[i] := plainText[i];
      } else {
        hexData[i] := fill;
      }
    }
  }

  /** The padded length is the least multiple of 16 that is at least the length. */
  lemma PaddedLengthIsLeast(n: nat, m: nat)
    requires m % 16 == 0 && n <= m
    ensures PaddedLength(n) % 16 == 0 && n <= PaddedLength(n) <= m
  {
    assert (n - n % 16) % 16 == 0;
    assert n % 16 != 0 ==> n - n % 16 + 16 <= m;
  }

  /** `longer` is `shorter` followed by fill characters only. */
  ghost predicate FilledOut(shorter: string, longer: string, fill: char) {
    |shorter| <= |longer| && longer == shorter + Repeat(fill, |longer| - |shorter|)
  }

  lemma PadsEqualOneWay(a: string, b: string, fill: char)
    requires |a| <= |b|
    ensures Padded(a, fill) == Padded(b, fill) <==>
            PaddedLength(|a|) == PaddedLength(|b|) && FilledOut(a, b, fill)
  {
    var p, q := Padded(a, fill), Padded(b, fill);
    if p == q {
      assert b == q[..|b|] == p[..|b|] == a + Repeat(fill, |b| - |a|);
    }
    if PaddedLength(|a|) == PaddedLength(|b|) && FilledOut(a, b, fill) {
      assert p == q;
    }
  }

  /** Two texts pad to the same block exactly when they fill the same number of blocks and one is
      the other followed by fill characters. */
  lemma PaddedEqualIff(a: string, b: string, fill: char)
    ensures Padded(a, fill) == Padded(b, fill) <==>
            PaddedLength(|a|) == PaddedLength(|b|) && (FilledOut(a, b, fill) || FilledOut(b, a, fill))
  {
    if |a| <= |b| {
      PadsEqualOneWay(a, b, fill);
    } else {
      PadsEqualOneWay(b, a, fill);
    }
  }

  /** So padding is injective on texts that do not end in the fill character. */
  lemma PaddedInjective(a: string, b: string, fill: char)
    requires Padded(a, fill) == Padded(b, fill)
    requires |a| == |b| || ((a != [] ==> a[|a| - 1] != fill) && (b != [] ==> b[|b| - 1] != fill))
    ensures a == b
  {
    PaddedEqualIff(a, b, fill);
  }

  // ----- text cells -----

  /** `getSymmetricEncryption`. */
  function Sealed(s: Scheme, text: string): string {
    s.aesEncrypt(Padded(text, '#'))
  }

  /** The text before the first `c`. */
  function CutAt(text: string, c: char): (front: string)
    ensures c !in front && front <= text
    ensures |front| < |text| ==> text[|front|] == c
  {
    if text == [] || text[0] == c then []
    else
      var rest := CutAt(text[1..], c);
      assert [text[0]] + text[1..] == text;
      [text[0]] + rest
  }

  /** The bytes handed on after decrypting: the last block is counted by OpenSSL as withheld, and the
      length of the blocks before it is added twice, so as many stale bytes follow. */
  function BufferAfter(s: Scheme, plain: string): string {
    plain + seq(|plain|, i requires 0 <= i < |plain| => s.stale(|plain| + i))
  }

  const BUFFER_SIZE := 128

  predicate IsReadable(cipher: string) {
    |cipher| <= BUFFER_SIZE && |cipher| % 16 == 0
  }

  /** Both buffers have a fixed size: a longer ciphertext is written past the end of the first one. When
      it is no whole number of blocks, the final call is made and fails. In both cases nothing is known of
      the result. */
  function Unsealed(s: Scheme, cipher: string): string {
    if IsReadable(cipher) then CutAt(BufferAfter(s, s.aesDecrypt(cipher)), '#') else s.misread(cipher)
  }

  /** `find_first_of`. */
  method FindFirstOf(str: string, c: char) returns (pos: int)
    ensures pos == if c in str then |CutAt(str, c)| else -1
  {
    pos := 0;
    while pos < |str|
      invariant 0 <= pos <= |str| && c !in str[..pos]
    {
      if str[pos] == c {
        assert |CutAt(str, c)| == pos;
        return;
      }
      pos := pos + 1;
    }
    pos := -1;
  }

  /** `decryptSymmetricEncryption`. */
  method DecryptSymmetricEncryption(s: Scheme, cipher: string) returns (res: string)
    ensures res == Unsealed(s, cipher)
  {
    if !IsReadable(cipher) {
      return s.misread(cipher);
    }
    res := BufferAfter(s, s.aesDecrypt(cipher));
    var last := FindFirstOf(res, '#');
    if last != -1 {
      res := res[..last];
    }
  }

  /** The ciphertext of the text, one block longer than its padded form, fits the decryption buffer. */
  predicate FitsBuffer(text: string) {
    PaddedLength(|text|) + 16 <= BUFFER_SIZE
  }

  /** When a text survives encryption and decryption: its ciphertext fits the buffer, it holds no fill
      character, and a text that fills its blocks exactly is followed by a stale one. Only an overflow
      that happens to give back the text could save a longer one. */
  predicate Survives(s: Scheme, text: string) {
    if FitsBuffer(text) then '#' !in text && (|text| % 16 == 0 && text != [] ==> s.stale(|text|) == '#')
    else s.misread(Sealed(s, text)) == text
  }

  lemma PaddedIsWhole(n: nat)
    ensures PaddedLength(n) % 16 == 0 && n <= PaddedLength(n) <= n + 15
  {
    assert (n - n % 16) % 16 == 0;
  }

  /** What decrypting the ciphertext of a text comes to. */
  lemma UnsealedSealed(s: Scheme, text: string)
    requires SymmetricInverts(s)
    ensures Unsealed(s, Sealed(s, text))
         == if FitsBuffer(text) then CutAt(BufferAfter(s, Padded(text, '#')), '#') else s.misread(Sealed(s, text))
  {
    hide CutAt, BufferAfter, PaddedLength;
    PaddedIsWhole(|text|);
    assert |Padded(text, '#')| == PaddedLength(|text|);
  }

  /** The buffer starts with the text, and what follows it. */
  lemma BufferHolds(s: Scheme, text: string)
    ensures var buffer := BufferAfter(s, Padded(text, '#'));
            && |text| <= |buffer| && text == buffer[..|text|]
            && (|text| % 16 != 0 ==> |text| < |buffer| && buffer[|text|] == '#')
            && (|text| % 16 == 0 && text != [] ==> |text| < |buffer| && buffer[|text|] == s.stale(|text|))
            && (text == [] ==> buffer == [])
  {
  }

  lemma CutGivesIff(text: string, buffer: string, c: char)
    requires |text| <= |buffer| && text == buffer[..|text|]
    ensures CutAt(buffer, c) == text <==> c !in text && (|text| < |buffer| ==> buffer[|text|] == c)
  {
    var front := CutAt(buffer, c);
    if c !in text && (|text| < |buffer| ==> buffer[|text|] == c) {
      assert forall i :: 0 <= i < |text| ==> text[i] == buffer[i] && text[i] in text;
      assert |front| == |text|;
    }
  }

  /** The limit in characters. */
  lemma FitsBufferIff(text: string)
    ensures FitsBuffer(text) <==> |text| <= 112
  {
  }

  lemma SymmetricRoundTrip(s: Scheme, text: string)
    requires SymmetricInverts(s)
    ensures Unsealed(s, Sealed(s, text)) == text <==> Survives(s, text)
  {
    hide CutAt, BufferAfter, Padded, Unsealed, Sealed, FitsBuffer;
    UnsealedSealed(s, text);
    if FitsBuffer(text) {
      BufferHolds(s, text);
      CutGivesIff(text, BufferAfter(s, Padded(text, '#')), '#');
    }
  }

  /** A text of up to 112 characters without a fill character that does not fill its blocks comes back,
      whatever follows it in the buffer; one that does comes back exactly when a fill character follows. */
  lemma ShortTextSurvives(s: Scheme, text: string)
    requires SymmetricInverts(s) && |text| <= 112 && '#' !in text
    ensures |text| % 16 != 0 || text == "" ==> Unsealed(s, Sealed(s, text)) == text
    ensures |text| % 16 == 0 && text != "" ==>
              (Unsealed(s, Sealed(s, text)) == text <==> s.stale(|text|) == '#')
  {
    hide Unsealed, Sealed, FitsBuffer;
    FitsBufferIff(text);
    SymmetricRoundTrip(s, text);
  }

  /** A text that fills its blocks is followed by as many stale characters as it has itself. */
  lemma StaleIsShown(s: Scheme, text: string)
    requires SymmetricInverts(s) && |text| <= 112 && |text| % 16 == 0 && '#' !in text
    requires forall k :: |text| <= k < 2 * |text| ==> s.stale(k) != '#'
    ensures var res := Unsealed(s, Sealed(s, text));
            |res| == 2 * |text| && res[..|text|] == text && forall k :: |text| <= k < |res| ==> res[k] == s.stale(k)
  {
    hide CutAt, Unsealed, Sealed, FitsBuffer, BufferAfter, PaddedLength;
    FitsBufferIff(text);
    UnsealedSealed(s, text);
    WholeBuffer(s, text);
    var buffer := BufferAfter(s, Padded(text, '#'));
    CutGivesIff(buffer, buffer, '#');
  }

  lemma WholeBuffer(s: Scheme, text: string)
    requires |text| % 16 == 0 && '#' !in text
    requires forall k :: |text| <= k < 2 * |text| ==> s.stale(k) != '#'
    ensures var buffer := BufferAfter(s, Padded(text, '#'));
            && |buffer| == 2 * |text| && buffer[..|text|] == text && buffer[..|buffer|] == buffer && '#' !in buffer
            && forall k :: |text| <= k < |buffer| ==> buffer[k] == s.stale(k)
  {
    assert Padded(text, '#') == text;
    var buffer := BufferAfter(s, text);
    forall k | 0 <= k < |buffer| ensures buffer[k] != '#' && (k < |text| ==> buffer[k] == text[k]) {
      assert k < |text| ==> buffer[k] in text;
    }
  }

  /** A ciphertext of more than 128 bytes, or of no whole number of blocks, is misread; of any other, what is
      shown is what was decrypted and the stale characters, up to the first fill character. */
  lemma ReadableIff(s: Scheme, cipher: string)
    ensures |cipher| > 128 || |cipher| % 16 != 0 ==> Unsealed(s, cipher) == s.misread(cipher)
    ensures |cipher| <= 128 && |cipher| % 16 == 0 ==>
              '#' !in Unsealed(s, cipher) && Unsealed(s, cipher) <= BufferAfter(s, s.aesDecrypt(cipher))
  {
  }

  // ----- integer cells -----

  /** `decryptData`: the decrypted coefficient is printed by SEAL in upper-case hex and read again. */
  function DecryptData(s: Scheme, cipher: string): Result<int> {
    HexStringToInt(Print(s.bfvDecrypt(cipher), 16, true))
  }

  /** `insertIntoRowByHomomorphicEncryption`: a coefficient that is not below the plain modulus is
      refused by the encryptor. */
  method InsertIntoRowByHomomorphicEncryption(s: Scheme, row: seq<string>, value: int)
    returns (res: Result<seq<string>>)
    requires Homomorphic(s) && INT_MIN <= value <= INT_MAX
    ensures res.Ok? <==> 0 <= value < s.modulus
    ensures res.Ok? ==> |res.value| == |row| + 1 && res.value[..|row|] == row
                        && DecryptsCell(s, value, res.value[|row|])
    ensures res.Raised? ==> res.error == InvalidPlaintext
  {
    var plaintext := IntToHexString(value);
    ValueOfPrint(if value >= 0 then value else value + 0x1_0000_0000, 16, false);
    var coefficient := Value(plaintext, 16);
    if coefficient >= s.modulus {
      return Raised(InvalidPlaintext);
    }
    var coin: int := *;
    res := Ok(row + [s.bfvEncrypt(coefficient, coin)]);
  }

  // ----- cells of either type -----

  predicate Supported(columnType: string) {
    columnType == "string" || columnType == "int"
  }

  /** The exception that storing a cell throws, if any. */
  function Fault(s: Scheme, columnType: string, text: string): Option<Error> {
    if columnType == "int" then
      match Stoi(text, 10)
      case Raised(e) => Some(e)
      case Ok(p) => if 0 <= p.number < s.modulus then None else Some(InvalidPlaintext)
    else None
  }

  /** The number of an integer cell that can be stored. */
  function NumberOf(s: Scheme, text: string): (n: nat)
    requires Fault(s, "int", text) == None
    ensures n < s.modulus
  {
    Stoi(text, 10).value.number
  }

  /** `cipher` is a stored form of the cell `text` in a column of this type. */
  ghost predicate Encodes(s: Scheme, columnType: string, text: string, cipher: string) {
    if columnType == "string" then cipher == Sealed(s, text)
    else columnType == "int" && Fault(s, columnType, text) == None
         && DecryptsCell(s, NumberOf(s, text), cipher)
  }

  /** One pass of `decryptedResult` over a field: an unsupported type leaves an empty text. */
  function DecryptField(s: Scheme, resultType: string, field: string): Result<string> {
    if resultType == "string" then Ok(Unsealed(s, field))
    else if resultType == "int" then
      match DecryptData(s, field)
      case Raised(e) => Raised(e)
      case Ok(n) => Ok(if n >= 0 then Dec(n) else "-" + Dec(-n))
    else Ok("")
  }

  /** A column of any other type is shown as empty texts. */
  lemma OtherTypesShowNothing(s: Scheme, resultType: string, field: string)
    requires resultType != "string" && resultType != "int"
    ensures DecryptField(s, resultType, field) == Ok("")
  {
  }

  /** What a user sees of a cell: text cut at the first fill character, a number in plain decimal. */
  function Shown(s: Scheme, columnType: string, text: string): string
    requires Supported(columnType) && Fault(s, columnType, text) == None
  {
    if columnType == "string" then Unsealed(s, Sealed(s, text)) else Dec(NumberOf(s, text))
  }

  lemma DecryptEncoded(s: Scheme, columnType: string, text: string, cipher: string)
    requires Homomorphic(s) && Encodes(s, columnType, text, cipher)
    ensures Supported(columnType) && Fault(s, columnType, text) == None
    ensures DecryptField(s, columnType, cipher) == Ok(Shown(s, columnType, text))
  {
    if columnType == "int" {
      HexStringToIntOfPrint(s.bfvDecrypt(cipher), true);
    }
  }

  predicate Faithful(s: Scheme, columnType: string, text: string) {
    if columnType == "string" then Survives(s, text) else Canonical(text)
  }

  /** A stored cell is shown as it was entered exactly when it is faithful. */
  lemma ShownIff(s: Scheme, columnType: string, text: string)
    requires SymmetricInverts(s) && Supported(columnType) && Fault(s, columnType, text) == None
    ensures Shown(s, columnType, text) == text <==> Faithful(s, columnType, text)
  {
    if columnType == "string" {
      SymmetricRoundTrip(s, text);
    } else {
      DecimalRoundTrip(text);
    }
  }

  /** A text with the fill character in it comes back cut short. */
  lemma FillCharacterIsLost(s: Scheme)
    requires SymmetricInverts(s)
    ensures Shown(s, "string", "C#") == "C"
  {
    hide CutAt, BufferAfter;
    UnsealedSealed(s, "C#");
    BufferHolds(s, "C#");
    var buffer := BufferAfter(s, Padded("C#", '#'));
    assert buffer[..1] == "C#"[..1] == "C" && buffer[1] == "C#"[1];
    CutGivesIff("C", buffer, '#');
  }

  /** A text of 113 characters or more can be lost whatever it holds. */
  lemma LongTextIsLost(modulus: nat, tags: set<string>, limit: nat, text: string)
    requires 0 < modulus <= INT_MAX + 1 && |text| > 112
    ensures Assumptions(Plain(modulus, tags, limit))
    ensures Shown(Plain(modulus, tags, limit), "string", text) == ""
  {
    hide CutAt, BufferAfter, Padded, PrfInjective, CollisionFree, Homomorphic, Unsealed, Sealed, SymmetricInverts;
    var s := Plain(modulus, tags, limit);
    PlainIsValid(modulus, tags, limit);
    PaddedIsWhole(|text|);
    UnsealedSealed(s, text);
  }

  /** A number with a minus is refused when it is stored, and minus zero is stored as zero. */
  lemma MinusIsRefused(s: Scheme, digits: string)
    requires digits != [] && AllDigits(digits, 10) && Value(digits, 10) <= 0x8000_0000 && 0 < s.modulus
    ensures Fault(s, "int", "-" + digits) == if Value(digits, 10) > 0 then Some(InvalidPlaintext) else None
    ensures Value(digits, 10) == 0 ==> NumberOf(s, "-" + digits) == 0
  {
    hide Value;
    assert "" + "-" + (digits + "") == "-" + digits;
    StoiReads("", "-", digits, "");
  }

  /** A plus, spaces in front and text behind the digits are dropped from what is stored. */
  lemma OnlyTheNumberIsStored(s: Scheme, spaces: string, digits: string, rest: string)
    requires forall i :: 0 <= i < |spaces| ==> IsSpace(spaces[i])
    requires digits != [] && AllDigits(digits, 10) && (rest != [] ==> !IsDigit(rest[0], 10))
    requires Value(digits, 10) < s.modulus && Value(digits, 10) <= 2147483647
    ensures forall sign :: sign == "" || sign == "+" ==>
              && Fault(s, "int", spaces + sign + (digits + rest)) == None
              && NumberOf(s, spaces + sign + (digits + rest)) == Value(digits, 10)
  {
    hide Value;
    StoiReads(spaces, "", digits, rest);
    StoiReads(spaces, "+", digits, rest);
  }

  /** Numbers beyond the range of an `int` are refused with another exception than text is. */
  lemma RangeOfNumbers(s: Scheme, digits: string)
    requires digits != [] && AllDigits(digits, 10) && Value(digits, 10) > 2147483647
    ensures Fault(s, "int", digits) == Some(OutOfRange)
  {
    StoiOfDigits(digits, 10);
  }

  lemma MinusFive(s: Scheme)
    requires 0 < s.modulus
    ensures Fault(s, "int", "-5") == Some(InvalidPlaintext)
  {
    assert "5"[..0] == [];
    assert Value("5", 10) == 5;
    assert "-" + "5" == "-5";
    MinusIsRefused(s, "5");
  }

  /** A number with leading zeros comes back without them. */
  lemma LeadingZerosAreLost(s: Scheme)
    requires s.modulus > 7
    ensures Fault(s, "int", "007") == None && Shown(s, "int", "007") == "7"
  {
    assert "007"[..2] == "00" && "00"[..1] == "0" && "0"[..0] == [];
    assert Value("00", 10) == 0;
    assert Value("007", 10) == 7;
    StoiOfDigits("007", 10);
    assert Dec(7) == "7";
  }
}
