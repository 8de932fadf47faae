/** The `%d` conversion and `atoi` (ISO/IEC 9899:2011, sections 7.21.6.5 and 7.22.1.2). */
module Decimal {
  import opened CStrings

  const ZERO: byte := 48
  const PLUS: byte := 43
  const MINUS: byte := 45

  const INT32_MIN := -0x8000_0000
  const INT32_MAX := 0x7FFF_FFFF

  type int32 = i: int | INT32_MIN <= i <= INT32_MAX

  predicate IsDigit(b: byte) {
    ZERO <= b <= ZERO + 9
  }

  predicate IsSpace(b: byte) {
    b == 32 || 9 <= b <= 13
  }

  function DigitOf(n: nat): byte {
    ZERO + n % 10
  }

  /** The decimal digits of n, most significant first. */
  function Digits(n: nat): Bytes {
    if n < 10 then [DigitOf(n)] else Digits(n / 10) + [DigitOf(n)]
  }

  /** What `%d` prints. */
  function FormatInt(i: int): Bytes {
    if i < 0 then [MINUS] + Digits(-i) else Digits(i)
  }

  /** Continues a number whose leading digits amount to `acc`, up to the first byte that is no digit. */
  function ParseDigits(s: Bytes, acc: nat): nat {
    if s == [] || !IsDigit(s[0]) then acc else ParseDigits(s[1..], acc * 10 + (s[0] - ZERO))
  }

  /** White space, an optional sign, then digits. */
  function ParseNumber(s: Bytes): int {
    if s == [] then 0
    else if IsSpace(s[0]) then ParseNumber(s[1..])
    else if s[0] == MINUS then 0 - ParseDigits(s[1..], 0) as int
    else if s[0] == PLUS then ParseDigits(s[1..], 0)
    else ParseDigits(s, 0)
  }

  /** The 32 low bits of `i`, read as a two's complement number. */
  function ToInt32(i: int): int32 {
    (i + 0x8000_0000) % 0x1_0000_0000 - 0x8000_0000
  }

  /**
   * `atoi`. A number that does not fit an int leaves the standard's result undefined; here its low 32 bits
   * are returned, and no result of this project depends on that choice.
   */
  function Atoi(s: Bytes): int32 {
    ToInt32(ParseNumber(s))
  }

  /** What `snprintf(buf, size, "%s", s)` leaves as text. */
  function SnprintfText(s: Bytes, size: nat): Bytes
    requires size > 0
  {
    if |s| < size then s else s[..size - 1]
  }

  lemma {:induction false} ParseDigitsAppend(a: Bytes, d: byte, acc: nat)
    requires forall i :: 0 <= i < |a| ==> IsDigit(a[i])
    requires IsDigit(d)
    ensures ParseDigits(a + [d], acc) == ParseDigits(a, acc) * 10 + (d - ZERO)
    decreases |a|
  {
    if a == [] {
      assert [d][1..] == [];
    } else {
      assert (a + [d])[1..] == a[1..] + [d];
      ParseDigitsAppend(a[1..], d, acc * 10 + (a[0] - ZERO));
    }
  }

  lemma {:induction false} DigitsAreDigits(n: nat)
    ensures |Digits(n)| > 0
    ensures forall i :: 0 <= i < |Digits(n)| ==> IsDigit(Digits(n)[i])
  {
    if n >= 10 {
      DigitsAreDigits(n / 10);
    }
  }

  lemma {:induction false} ParseDigitsOfDigits(n: nat)
    ensures ParseDigits(Digits(n), 0) == n
  {
    DigitsAreDigits(n);
    if n < 10 {
      assert Digits(n)[1..] == [];
    } else {
      DigitsAreDigits(n / 10);
      ParseDigitsAppend(Digits(n / 10), DigitOf(n), 0);
      ParseDigitsOfDigits(n / 10);
    }
  }

  /** Printing and reading back is the identity on every 32-bit integer. */
  lemma AtoiOfFormatInt(i: int32)
    ensures Atoi(FormatInt(i)) == i
    ensures NulFree(FormatInt(i))
  {
    AtoiOfPadded([], i, []);
    PaddedByNothing(FormatInt(i));
    FormatIntIsDecimal(i);
  }

  lemma PaddedByNothing(s: Bytes)
    ensures [] + s + [] == s
  {
  }

  lemma {:induction false} DigitsLength(n: nat, k: nat, bound: nat)
    requires bound == Pow10(k) && n < 10 * bound
    ensures |Digits(n)| <= k + 1
  {
    if n >= 10 && k > 0 {
      assert n / 10 < bound;
      DigitsLength(n / 10, k - 1, Pow10(k - 1));
    }
  }

  function Pow10(k: nat): nat {
    if k == 0 then 1 else 10 * Pow10(k - 1)
  }

  /** The text of a 32-bit integer has at most 11 characters, so it fits the server's 32-byte buffer. */
  lemma FormatIntLength(i: int32)
    ensures 1 <= |FormatInt(i)| <= 11
  {
    var n: nat := if i < 0 then -(i as int) else i;
    DigitsAreDigits(n);
    assert Pow10(1) == 10 && Pow10(2) == 100 && Pow10(3) == 1000 && Pow10(4) == 10000;
    assert Pow10(5) == 100000 && Pow10(6) == 1000000 && Pow10(7) == 10000000;
    assert Pow10(8) == 100000000 && Pow10(9) == 1000000000;
    DigitsLength(n, 9, Pow10(9));
  }

  /** The ASCII digits '0' to '9'. */
  predicate AllDigits(s: Bytes) {
    forall i :: 0 <= i < |s| ==> 48 <= s[i] <= 57
  }

  /** The number that a row of digits stands for. */
  function Value(digits: Bytes): int {
    if digits == [] then 0
    else
      var n := |digits| - 1;
      10 * Value(digits[..n]) + (digits[n] as int - 48)
  }

  lemma {:induction false} ParseIsValue(digits: Bytes)
    requires AllDigits(digits)
    ensures ParseDigits(digits, 0) == Value(digits)
  {
    if digits != [] {
      var n := |digits| - 1;
      ParseIsValue(digits[..n]);
      ParseDigitsAppend(digits[..n], digits[n], 0);
      assert digits == digits[..n] + [digits[n]];
    }
  }

  lemma {:induction false} ParseStops(digits: Bytes, rest: Bytes, acc: nat)
    requires AllDigits(digits) && (rest == [] || !(48 <= rest[0] <= 57))
    ensures ParseDigits(digits + rest, acc) == ParseDigits(digits, acc)
    decreases |digits|
  {
    if digits == [] {
      assert digits + rest == rest;
    } else {
      assert (digits + rest)[1..] == digits[1..] + rest;
      ParseStops(digits[1..], rest, acc * 10 + (digits[0] - ZERO));
    }
  }

  lemma {:induction false} BlanksSkipped(blanks: Bytes, s: Bytes)
    requires forall i :: 0 <= i < |blanks| ==> blanks[i] == 32 || 9 <= blanks[i] <= 13
    ensures ParseNumber(blanks + s) == ParseNumber(s)
    decreases |blanks|
  {
    if blanks == [] {
      assert blanks + s == s;
    } else {
      assert (blanks + s)[1..] == blanks[1..] + s;
      BlanksSkipped(blanks[1..], s);
    }
  }

  lemma SignedNumber(sign: Bytes, digits: Bytes, rest: Bytes)
    requires sign == [] || sign == [43] || sign == [45]
    requires AllDigits(digits) && (rest == [] || !(48 <= rest[0] <= 57)) && (sign != [] || digits != [])
    ensures ParseNumber(sign + digits + rest) == if sign == [45] then -Value(digits) else Value(digits)
  {
    ParseStops(digits, rest, 0);
    ParseIsValue(digits);
    var s := sign + digits + rest;
    if sign == [] {
      assert s == digits + rest;
    } else {
      assert s[1..] == digits + rest;
    }
  }

  /**
   * `atoi` reads white space, an optional '-' or '+', and decimal digits, and ignores the rest: "25.5" is 25. A number
   * that fits is returned as it is.
   */
  lemma AtoiReads(blanks: Bytes, sign: Bytes, digits: Bytes, rest: Bytes)
    requires forall i :: 0 <= i < |blanks| ==> blanks[i] == 32 || 9 <= blanks[i] <= 13
    requires sign == [] || sign == [43] || sign == [45]
    requires AllDigits(digits) && (rest == [] || !(48 <= rest[0] <= 57)) && (sign != [] || digits != [])
    ensures var i := if sign == [45] then -Value(digits) else Value(digits);
      -0x8000_0000 <= i <= 0x7FFF_FFFF ==> Atoi(blanks + sign + digits + rest) == i
  {
    SignedNumber(sign, digits, rest);
    BlanksSkipped(blanks, sign + digits + rest);
    SignedPadding(blanks, sign, digits, rest);
  }

  /** Text that is no number reads as 0. */
  lemma AtoiOfNoNumber(blanks: Bytes, rest: Bytes)
    requires forall i :: 0 <= i < |blanks| ==> blanks[i] == 32 || 9 <= blanks[i] <= 13
    requires rest != [] ==>
      !(48 <= rest[0] <= 57) && rest[0] != 32 && !(9 <= rest[0] <= 13) && rest[0] != 43 && rest[0] != 45
    ensures Atoi(blanks + rest) == 0
  {
    BlanksSkipped(blanks, rest);
  }

  lemma NatIsDecimal(n: nat)
    ensures AllDigits(Digits(n)) && Digits(n) != [] && (|Digits(n)| > 1 ==> Digits(n)[0] != 48) && Value(Digits(n)) == n
  {
    DigitsAreDigits(n);
    NoLeadingZero(n);
    ParseDigitsOfDigits(n);
    ParseIsValue(Digits(n));
  }

  lemma MinusInFront(digits: Bytes)
    ensures ([45] + digits)[1..] == digits
  {
  }

  /** `%d` prints a '-' for negative numbers, then the decimal digits, with no zero in front of others. */
  lemma FormatIntIsDecimal(i: int)
    ensures var digits := if i < 0 then FormatInt(i)[1..] else FormatInt(i);
      && FormatInt(i) == (if i < 0 then [45] else []) + digits
      && AllDigits(digits) && digits != [] && (|digits| > 1 ==> digits[0] != 48)
      && Value(digits) == if i < 0 then -i else i
  {
    NatIsDecimal(if i < 0 then -i else i);
    MinusInFront(Digits(if i < 0 then -i else i));
  }

  lemma SignedPadding(blanks: Bytes, sign: Bytes, digits: Bytes, rest: Bytes)
    ensures blanks + (sign + digits) + rest == blanks + sign + digits + rest
    ensures blanks + sign + digits + rest == blanks + (sign + digits + rest)
  {
  }

  /** Text that reads as a sign and digits also does so between blanks and other text. */
  lemma PaddedNumber(blanks: Bytes, text: Bytes, sign: Bytes, digits: Bytes, rest: Bytes)
    requires forall k :: 0 <= k < |blanks| ==> blanks[k] == 32 || 9 <= blanks[k] <= 13
    requires text == sign + digits && (sign == [] || sign == [45]) && AllDigits(digits) && digits != []
    requires rest != [] ==> !(48 <= rest[0] <= 57)
    ensures ParseNumber(blanks + text + rest) == if sign == [45] then -Value(digits) else Value(digits)
  {
    SignedPadding(blanks, sign, digits, rest);
    SignedNumber(sign, digits, rest);
    BlanksSkipped(blanks, sign + digits + rest);
  }

  /** A printed integer reads back with blanks in front of it and other text behind it, too. */
  lemma AtoiOfPadded(blanks: Bytes, i: int32, rest: Bytes)
    requires forall k :: 0 <= k < |blanks| ==> blanks[k] == 32 || 9 <= blanks[k] <= 13
    requires rest != [] ==> !(48 <= rest[0] <= 57)
    ensures Atoi(blanks + FormatInt(i) + rest) == i
  {
    FormatIntIsDecimal(i);
    PaddedNumber(blanks, FormatInt(i), if i < 0 then [45] else [], if i < 0 then FormatInt(i)[1..] else FormatInt(i), rest);
    ToInt32Keeps(ParseNumber(blanks + FormatInt(i) + rest));
  }

  lemma ToInt32Keeps(i: int)
    requires -0x8000_0000 <= i <= 0x7FFF_FFFF
    ensures ToInt32(i) == i
  {
  }

  lemma {:induction false} NoLeadingZero(n: nat)
    ensures |Digits(n)| > 0 && (n > 0 ==> Digits(n)[0] != 48)
    ensures |Digits(n)| > 1 ==> n > 0
  {
    if n >= 10 {
      NoLeadingZero(n / 10);
    }
  }

  /** The 32-bit number that is left of `i` differs from it by a multiple of 2 to the 32. */
  lemma ToInt32Wraps(i: int)
    ensures (i - ToInt32(i)) % 0x1_0000_0000 == 0
  {
    var q := (i + 0x8000_0000) / 0x1_0000_0000;
    assert i - ToInt32(i) == q * 0x1_0000_0000;
  }

  /** `snprintf` keeps as much of the text from its beginning as fits in front of the terminator. */
  lemma SnprintfKeepsFront(s: Bytes, size: nat)
    requires size > 0
    ensures SnprintfText(s, size) == s[..if |s| < size then |s| else size - 1]
  {
  }
}
