/** Printing and reading integers: `to_string`, `stoi`, `intToHexString`, `hexStringToInt` and the
    coefficient printer of SEAL. */
module Numerals {
  import opened Wrappers

  const INT_MAX: int := 0x7fff_ffff
  const INT_MIN: int := -0x8000_0000

  /** The two bases in use. Working with them by case keeps the arithmetic linear. */
  type Base = b: nat | b == 10 || b == 16 witness 10

  function Quotient(n: nat, base: Base): nat {
    if base == 10 then n / 10 else n / 16
  }

  function Remainder(n: nat, base: Base): nat {
    if base == 10 then n % 10 else n % 16
  }

  function Shift(n: nat, base: Base): nat {
    if base == 10 then 10 * n else 16 * n
  }

  /** What `DigitValue` gives for a character that is a digit in no base. */
  const NO_DIGIT: nat := 99

  function DigitChar(d: nat, upper: bool): (c: char)
    requires d < 16
    ensures DigitValue(c) == d
    ensures c != ',' && c != ' '
  {
    if d < 10 then (48 + d) as char
    else if upper then (55 + d) as char
    else (87 + d) as char
  }

  function DigitValue(c: char): nat {
    var n := c as int;
    if 48 <= n < 58 then n - 48
    else if 65 <= n < 71 then n - 55
    else if 97 <= n < 103 then n - 87
    else NO_DIGIT
  }

  predicate IsDigit(c: char, base: Base) {
    DigitValue(c) < base
  }

  predicate AllDigits(s: string, base: Base) {
    forall i :: 0 <= i < |s| ==> IsDigit(s[i], base)
  }

  /** Positional printing without leading zeros. */
  function Print(n: nat, base: Base, upper: bool): (s: string)
    ensures |s| > 0 && AllDigits(s, base)
    ensures s[0] == '0' ==> n == 0
    ensures n == 0 ==> s == "0"
    decreases n
  {
    if n < base then [DigitChar(n, upper)]
    else Print(Quotient(n, base), base, upper) + [DigitChar(Remainder(n, base), upper)]
  }

  /** `to_string` on a non-negative integer. */
  function Dec(n: nat): string {
    Print(n, 10, false)
  }

  /** The number a string of digits denotes. */
  function Value(s: string, base: Base): nat
    requires AllDigits(s, base)
  {
    if s == [] then 0 else Shift(Value(s[..|s| - 1], base), base) + DigitValue(s[|s| - 1])
  }

  lemma {:induction false} ValueOfPrint(n: nat, base: Base, upper: bool)
    ensures Value(Print(n, base, upper), base) == n
    decreases n
  {
    var s := Print(n, base, upper);
    if n < base {
      assert s[..0] == [];
    } else {
      ValueOfPrint(Quotient(n, base), base, upper);
      assert s[..|s| - 1] == Print(Quotient(n, base), base, upper);
    }
  }

  lemma PrintInjective(m: nat, n: nat, base: Base, upper: bool)
    requires Print(m, base, upper) == Print(n, base, upper)
    ensures m == n
  {
    ValueOfPrint(m, base, upper);
    ValueOfPrint(n, base, upper);
  }

  /** A decimal text as `to_string` writes it: digits only, and no superfluous zero in front. */
  predicate Canonical(s: string) {
    |s| > 0 && AllDigits(s, 10) && (|s| > 1 ==> s[0] != '0')
  }

  lemma {:induction false} CanonicalValuePositive(s: string)
    requires Canonical(s) && s != "0"
    ensures Value(s, 10) > 0
  {
    assert s == s[..|s| - 1] + [s[|s| - 1]];
    if |s| > 1 {
      var front := s[..|s| - 1];
      assert front[0] == s[0];
      CanonicalValuePositive(front);
    } else {
      assert DigitValue(s[0]) == 0 ==> s == "0";
    }
  }

  lemma {:induction false} PrintOfValue(s: string)
    requires Canonical(s)
    ensures Dec(Value(s, 10)) == s
  {
    var front, last := s[..|s| - 1], s[|s| - 1];
    assert s == front + [last];
    assert DigitChar(DigitValue(last), false) == last;
    if |s| == 1 {
      assert front == [];
    } else {
      assert front[0] == s[0];
      CanonicalValuePositive(front);
      PrintOfValue(front);
      var v, d := Value(front, 10), DigitValue(last);
      assert (v * 10 + d) / 10 == v && (v * 10 + d) % 10 == d;
    }
  }

  lemma PrintIsCanonical(n: nat)
    ensures Canonical(Dec(n))
  {
    if n >= 10 {
      assert Dec(n)[0] == Dec(n / 10)[0];
    }
  }

  // ----- stoi -----

  predicate IsSpace(c: char) {
    c == ' ' || 9 <= c as int <= 13
  }

  function SkipSpaces(s: string): (rest: string)
    ensures |rest| <= |s|
    ensures s != [] && !IsSpace(s[0]) ==> rest == s
  {
    if s != [] && IsSpace(s[0]) then SkipSpaces(s[1..]) else s
  }

  /** The longest prefix of digits. */
  function DigitPrefix(s: string, base: Base): (p: string)
    ensures AllDigits(p, base) && p <= s
    ensures AllDigits(s, base) ==> p == s
  {
    if s != [] && IsDigit(s[0], base) then
      var p := DigitPrefix(s[1..], base);
      assert [s[0]] + p <= [s[0]] + s[1..] == s;
      [s[0]] + p
    else []
  }

  predicate HasHexPrefix(s: string, base: Base) {
    base == 16 && |s| >= 3 && s[0] == '0' && (s[1] == 'x' || s[1] == 'X') && IsDigit(s[2], 16)
  }

  /** The number and how many characters were left unread behind it. */
  datatype Parsed = Parsed(number: int, unread: nat)

  /** Reading the digits behind the sign. */
  function Magnitude(u: string, negative: bool, base: Base): Result<Parsed> {
    var w := if HasHexPrefix(u, base) then u[2..] else u;
    var digits := DigitPrefix(w, base);
    if digits == [] then Raised(InvalidArgument)
    else
      var magnitude: int := Value(digits, base);
      var number := if negative then -magnitude else magnitude;
      if INT_MIN <= number <= INT_MAX then Ok(Parsed(number, |w| - |digits|)) else Raised(OutOfRange)
  }

  function Stoi(s: string, base: Base): Result<Parsed> {
    var t := SkipSpaces(s);
    if t != [] && (t[0] == '-' || t[0] == '+') then Magnitude(t[1..], t[0] == '-', base)
    else Magnitude(t, false, base)
  }

  /** `stoi` reads back a plain string of digits. */
  lemma StoiOfDigits(s: string, base: Base)
    requires |s| > 0 && AllDigits(s, base)
    ensures Stoi(s, base) == if Value(s, base) <= INT_MAX then Ok(Parsed(Value(s, base), 0)) else Raised(OutOfRange)
  {
    hide Value;
    assert IsDigit(s[0], base);
    assert SkipSpaces(s) == s;
    assert s[0] != '-' && s[0] != '+';
    assert |s| > 1 ==> IsDigit(s[1], base) && !HasHexPrefix(s, base);
    assert DigitPrefix(s, base) == s;
  }

  /** The white space that `stoi` skips: space, tab, line feed, vertical tab, form feed, carriage return. */
  lemma SpacesAre(c: char)
    ensures IsSpace(c) <==> c as int in {32, 9, 10, 11, 12, 13}
  {
  }

  lemma {:induction false} SpacesAreSkipped(spaces: string, t: string)
    requires forall i :: 0 <= i < |spaces| ==> IsSpace(spaces[i])
    requires t != [] && !IsSpace(t[0])
    ensures SkipSpaces(spaces + t) == t
  {
    if spaces == [] {
      assert spaces + t == t;
    } else {
      assert (spaces + t)[1..] == spaces[1..] + t;
      SpacesAreSkipped(spaces[1..], t);
    }
  }

  lemma {:induction false} DigitsAreRead(digits: string, rest: string, base: Base)
    requires AllDigits(digits, base) && (rest != [] ==> !IsDigit(rest[0], base))
    ensures DigitPrefix(digits + rest, base) == digits
  {
    if digits == [] {
      assert digits + rest == rest;
    } else {
      assert (digits + rest)[1..] == digits[1..] + rest;
      DigitsAreRead(digits[1..], rest, base);
      assert digits == [digits[0]] + digits[1..];
    }
  }

  predicate IsSign(sign: string) {
    sign == "" || sign == "+" || sign == "-"
  }

  lemma SpacesAndSign(spaces: string, sign: string, u: string, base: Base)
    requires (forall i :: 0 <= i < |spaces| ==> IsSpace(spaces[i])) && IsSign(sign) && u != []
    requires sign == "" ==> !IsSpace(u[0]) && u[0] != '+' && u[0] != '-'
    ensures Stoi(spaces + sign + u, base) == Magnitude(u, sign == "-", base)
  {
    hide Magnitude;
    var t := sign + u;
    assert spaces + sign + u == spaces + t;
    SpacesAreSkipped(spaces, t);
    if sign == "" {
      assert t == u;
    } else {
      assert t[0] == sign[0] && t[1..] == u;
    }
  }

  lemma MagnitudeOfDigits(digits: string, rest: string, negative: bool)
    requires digits != [] && AllDigits(digits, 10) && (rest != [] ==> !IsDigit(rest[0], 10))
    ensures var m: int := Value(digits, 10);
            var n := if negative then -m else m;
            Magnitude(digits + rest, negative, 10)
            == if -2147483648 <= n <= 2147483647 then Ok(Parsed(n, |rest|)) else Raised(OutOfRange)
  {
    hide Value, DigitPrefix;
    DigitsAreRead(digits, rest, 10);
  }

  /** `stoi` skips spaces, takes a sign, reads digits as far as they go and leaves the text behind them; the
      number must lie in the range of an `int`. */
  lemma StoiReads(spaces: string, sign: string, digits: string, rest: string)
    requires (forall i :: 0 <= i < |spaces| ==> IsSpace(spaces[i])) && IsSign(sign)
    requires digits != [] && AllDigits(digits, 10) && (rest != [] ==> !IsDigit(rest[0], 10))
    ensures var m: int := Value(digits, 10);
            var n := if sign == "-" then -m else m;
            Stoi(spaces + sign + (digits + rest), 10)
            == if -2147483648 <= n <= 2147483647 then Ok(Parsed(n, |rest|)) else Raised(OutOfRange)
  {
    hide Value, Stoi, Magnitude;
    assert IsDigit(digits[0], 10) && (digits + rest)[0] == digits[0];
    SpacesAndSign(spaces, sign, digits + rest, 10);
    MagnitudeOfDigits(digits, rest, sign == "-");
  }

  lemma MagnitudeInHex(prefix: string, digits: string, rest: string, negative: bool)
    requires (prefix == "0x" || prefix == "0X") && digits != [] && AllDigits(digits, 16)
    requires rest != [] ==> !IsDigit(rest[0], 16)
    ensures var m: int := Value(digits, 16);
            var n := if negative then -m else m;
            Magnitude(prefix + (digits + rest), negative, 16)
            == if -2147483648 <= n <= 2147483647 then Ok(Parsed(n, |rest|)) else Raised(OutOfRange)
  {
    hide Value, DigitPrefix;
    var u := prefix + (digits + rest);
    assert u[0] == '0' && u[1] == prefix[1] && u[2] == digits[0] && IsDigit(digits[0], 16);
    assert HasHexPrefix(u, 16) && u[2..] == digits + rest;
    DigitsAreRead(digits, rest, 16);
  }

  /** In hexadecimal it also takes `0x` in front. */
  lemma StoiReadsHex(spaces: string, sign: string, prefix: string, digits: string, rest: string)
    requires (forall i :: 0 <= i < |spaces| ==> IsSpace(spaces[i])) && IsSign(sign)
    requires (prefix == "0x" || prefix == "0X") && digits != [] && AllDigits(digits, 16)
    requires rest != [] ==> !IsDigit(rest[0], 16)
    ensures var m: int := Value(digits, 16);
            var n := if sign == "-" then -m else m;
            Stoi(spaces + sign + (prefix + (digits + rest)), 16)
            == if -2147483648 <= n <= 2147483647 then Ok(Parsed(n, |rest|)) else Raised(OutOfRange)
  {
    hide Value, Stoi, Magnitude;
    assert (prefix + (digits + rest))[0] == '0';
    SpacesAndSign(spaces, sign, prefix + (digits + rest), 16);
    MagnitudeInHex(prefix, digits, rest, sign == "-");
  }

  /** Without a digit behind spaces and sign it refuses the text. */
  lemma StoiRefuses(spaces: string, sign: string, rest: string)
    requires (forall i :: 0 <= i < |spaces| ==> IsSpace(spaces[i])) && IsSign(sign)
    requires rest != [] && !IsDigit(rest[0], 10)
    requires sign == "" ==> !IsSpace(rest[0]) && rest[0] != '+' && rest[0] != '-'
    ensures Stoi(spaces + sign + rest, 10) == Raised(InvalidArgument)
  {
    hide Stoi;
    SpacesAndSign(spaces, sign, rest, 10);
    assert DigitPrefix(rest, 10) == [];
  }

  /** The empty text, and spaces or a sign alone, are refused as well. */
  lemma StoiRefusesNothing()
    ensures Stoi("", 10) == Stoi(" ", 10) == Stoi("-", 10) == Stoi("+", 10) == Raised(InvalidArgument)
  {
    assert SkipSpaces(" ") == SkipSpaces("");
    assert "-"[1..] == "+"[1..] == "";
  }

  /** `intToHexString`: a negative `int` is printed as its 32-bit two's complement. */
  function IntToHexString(num: int): string
    requires INT_MIN <= num <= INT_MAX
  {
    Print(if num >= 0 then num else num + 0x1_0000_0000, 16, false)
  }

  /** `hexStringToInt` of the client: the whole string must be read. */
  function HexStringToInt(hex: string): Result<int> {
    if hex == [] then Raised(InvalidArgument)
    else
      match Stoi(hex, 16)
      case Raised(e) => Raised(e)
      case Ok(p) => if p.unread == 0 then Ok(p.number) else Raised(InvalidArgument)
  }

  /** Text behind the digits makes the reader refuse what `stoi` accepts. */
  lemma HexStringToIntReadsAll(digits: string, rest: string)
    requires digits != [] && AllDigits(digits, 16) && rest != [] && !IsDigit(rest[0], 16)
    requires Value(digits, 16) <= 2147483647 && !HasHexPrefix(digits + rest, 16)
    ensures HexStringToInt(digits + rest) == Raised(InvalidArgument)
  {
    hide Value;
    var s := digits + rest;
    assert s[0] == digits[0] && IsDigit(s[0], 16);
    assert SkipSpaces(s) == s;
    DigitsAreRead(digits, rest, 16);
  }

  /** A negative number is printed in eight digits; its two's complement has the top bit set. */
  lemma MinusOneInHex()
    ensures IntToHexString(-1) == "ffffffff" && IntToHexString(255) == "ff"
  {
    assert Print(0xfff_ffff, 16, false) == "fffffff" by {
      assert Print(0xf, 16, false) == "f";
      assert Print(0xff, 16, false) == "ff";
      assert Print(0xfff, 16, false) == "fff";
      assert Print(0xffff, 16, false) == "ffff";
      assert Print(0xf_ffff, 16, false) == "fffff";
      assert Print(0xff_ffff, 16, false) == "ffffff";
    }
  }

  /** The client's hex reader inverts every hex printer below 2^31, whatever the letter case. */
  lemma HexStringToIntOfPrint(n: nat, upper: bool)
    ensures HexStringToInt(Print(n, 16, upper)) == if n <= INT_MAX then Ok(n) else Raised(OutOfRange)
  {
    ValueOfPrint(n, 16, upper);
    StoiOfDigits(Print(n, 16, upper), 16);
  }

  /** Printing an `int` and reading it back succeeds exactly on the non-negative ones. */
  lemma HexRoundTrip(num: int)
    requires INT_MIN <= num <= INT_MAX
    ensures HexStringToInt(IntToHexString(num)) == if num >= 0 then Ok(num) else Raised(OutOfRange)
  {
    HexStringToIntOfPrint(if num >= 0 then num else num + 0x1_0000_0000, false);
  }

  /** A text that `stoi` reads as a non-negative number is the text `to_string` writes for that
      number exactly when it is canonical. */
  lemma DecimalRoundTrip(text: string)
    requires Stoi(text, 10).Ok? && Stoi(text, 10).value.number >= 0
    ensures Dec(Stoi(text, 10).value.number) == text <==> Canonical(text)
  {
    PrintIsCanonical(Stoi(text, 10).value.number);
    if Canonical(text) {
      StoiOfDigits(text, 10);
      PrintOfValue(text);
    }
  }
}
