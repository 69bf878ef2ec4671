/** Number extraction as `istream >> int` and `istream >> uint16_t` do it:
    leading white space is skipped, reading stops at the first character that is
    not a digit, and what happens on failure is visible to the callers. */
module Numbers {
  import opened CppStrings

  const INT_MAX: int := 0x7FFF_FFFF
  const INT_MIN: int := -0x8000_0000
  const UINT16_MAX: int := 0xFFFF
  const UINT32_RANGE: int := 0x1_0000_0000

  type Base = b: int | b == 10 || b == 16 witness 10

  /** Untouched: the stream ended before a value was stored, so the variable keeps
      its old value. Failed: the fail bit is set and `stored` was written. */
  datatype Extraction = Untouched | Failed(stored: int) | Extracted(value: int)
  {
    /** The variable's value after the extraction. */
    function After(before: int): int {
      match this
      case Untouched => before
      case Failed(v) => v
      case Extracted(v) => v
    }
  }

  predicate IsSpace(c: char) {
    c == ' ' || c == '\t' || c == '\n' || c == '\r' || c == '\U{0B}' || c == '\U{0C}'
  }

  function SkipSpaces(s: string): string {
    if s != "" && IsSpace(s[0]) then SkipSpaces(s[1..]) else s
  }

  predicate IsDigit(c: char, base: Base) {
    || '0' <= c <= '9'
    || (base == 16 && ('a' <= c <= 'f' || 'A' <= c <= 'F'))
  }

  function DigitValue(c: char, base: Base): (v: int)
    requires IsDigit(c, base)
    ensures 0 <= v < base
  {
    if '0' <= c <= '9' then c as int - '0' as int
    else if 'a' <= c <= 'f' then c as int - 'a' as int + 10
    else c as int - 'A' as int + 10
  }

  predicate AllDigits(s: string, base: Base) {
    forall i :: 0 <= i < |s| ==> IsDigit(s[i], base)
  }

  /** The longest prefix of digits. */
  function DigitPrefix(s: string, base: Base): (d: string)
    ensures AllDigits(d, base)
  {
    if s != "" && IsDigit(s[0], base) then [s[0]] + DigitPrefix(s[1..], base) else ""
  }

  function Value(digits: string, base: Base): (v: int)
    requires AllDigits(digits, base)
    ensures v >= 0
  {
    if digits == "" then 0
    else Value(digits[..|digits| - 1], base) * base + DigitValue(digits[|digits| - 1], base)
  }

  /** `stream >> int` on a stream holding `s`. */
  function ExtractInt(s: string, base: Base): Extraction
  {
    var t := SkipSpaces(s);
    if t == "" then Untouched
    else
      var negative := t[0] == '-';
      var unsigned := if t[0] == '-' || t[0] == '+' then t[1..] else t;
      var body := if base == 16 && |unsigned| >= 2 && unsigned[0] == '0' && (unsigned[1] == 'x' || unsigned[1] == 'X')
                  then unsigned[2..] else unsigned;
      var digits := DigitPrefix(body, base);
      if digits == "" then Failed(0)
      else
        var v := if negative then -Value(digits, base) else Value(digits, base);
        if v > INT_MAX then Failed(INT_MAX)
        else if v < INT_MIN then Failed(INT_MIN)
        else Extracted(v)
  }

  /** `stream >> uint16_t` with exceptions on failure: None is the exception. A
      minus sign negates modulo 2^16. */
  function ExtractUint16(s: string): (r: Option<int>)
    ensures r.Some? ==> 0 <= r.value <= UINT16_MAX
  {
    var t := SkipSpaces(s);
    if t == "" then None
    else
      var unsigned := if t[0] == '-' || t[0] == '+' then t[1..] else t;
      var digits := DigitPrefix(unsigned, 10);
      if digits == "" || Value(digits, 10) > UINT16_MAX then None
      else if t[0] == '-' then Some((UINT16_MAX + 1 - Value(digits, 10)) % (UINT16_MAX + 1))
      else Some(Value(digits, 10))
  }

  /** `ft::stringToInt`: -1 stands for a failed conversion. */
  function StringToInt(s: string): int {
    match ExtractInt(s, 10)
    case Extracted(v) => v
    case _ => -1
  }

  /** Decimal notation, the inverse of the readers above. */
  function Decimal(n: nat): (s: string)
    ensures s != "" && AllDigits(s, 10)
  {
    var last := [('0' as int + n % 10) as char];
    if n < 10 then last else Decimal(n / 10) + last
  }

  lemma ValueOfDecimal(n: nat)
    ensures Value(Decimal(n), 10) == n
  {
    if n >= 10 {
      var s := Decimal(n);
      assert s[..|s| - 1] == Decimal(n / 10);
      ValueOfDecimal(n / 10);
    }
  }

  lemma DigitPrefixStops(digits: string, rest: string, base: Base)
    requires AllDigits(digits, base)
    requires rest == "" || !IsDigit(rest[0], base)
    ensures DigitPrefix(digits + rest, base) == digits
  {
    if digits == "" {
      assert digits + rest == rest;
    } else {
      assert (digits + rest)[1..] == digits[1..] + rest;
      DigitPrefixStops(digits[1..], rest, base);
    }
  }

  lemma HeadOfDigits(digits: string, rest: string)
    requires digits != ""
    ensures (digits + rest)[0] == digits[0]
    ensures |digits| >= 2 ==> (digits + rest)[1] == digits[1]
    ensures |digits| == 1 && rest != "" ==> (digits + rest)[1] == rest[0]
  {
  }

  /** Digits that spell a value of `int`, followed by anything that cannot extend
      them, are read as that value. */
  lemma ExtractDigits(digits: string, rest: string, base: Base)
    requires digits != "" && AllDigits(digits, base) && Value(digits, base) <= INT_MAX
    requires rest == "" || (!IsDigit(rest[0], base) && rest[0] != 'x' && rest[0] != 'X')
    ensures ExtractInt(digits + rest, base) == Extracted(Value(digits, base))
  {
    HeadOfDigits(digits, rest);
    DigitPrefixStops(digits, rest, base);
  }

  lemma StringToIntOfDecimal(n: nat)
    requires n <= INT_MAX
    ensures StringToInt(Decimal(n)) == n
  {
    ValueOfDecimal(n);
    ExtractDigits(Decimal(n), "", 10);
    assert Decimal(n) + "" == Decimal(n);
  }

  lemma ExtractUint16OfDecimal(n: nat)
    requires n <= UINT16_MAX
    ensures ExtractUint16(Decimal(n)) == Some(n)
  {
    ValueOfDecimal(n);
    DigitPrefixStops(Decimal(n), "", 10);
    assert Decimal(n) + "" == Decimal(n);
    assert IsDigit(Decimal(n)[0], 10);
  }
  // Hexadecimal notation.

  /** The sixteen digits, each at the position of its value. */
  const LOWER: string := "0123456789abcdef"
  const UPPER: string := "0123456789ABCDEF"

  function Hex(n: nat, digits: string): (s: string)
    requires |digits| == 16
    ensures s != ""
  {
    if n < 16 then [digits[n]] else Hex(n / 16, digits) + [digits[n % 16]]
  }

  /** A digit's value is its position, in either case, and nothing else is a digit. */
  lemma DigitsByPosition()
    ensures forall i :: 0 <= i < 16 ==> IsDigit(LOWER[i], 16) && DigitValue(LOWER[i], 16) == i
    ensures forall i :: 0 <= i < 16 ==> IsDigit(UPPER[i], 16) && DigitValue(UPPER[i], 16) == i
    ensures forall c :: IsDigit(c, 16) ==> c in LOWER || c in UPPER
    ensures forall c :: IsDigit(c, 10) <==> c in LOWER[..10]
  {
    forall c | IsDigit(c, 16)
      ensures c in LOWER || c in UPPER
    {
      if '0' <= c <= '9' {
        assert LOWER[c as int - '0' as int] == c;
      } else if 'a' <= c <= 'f' {
        assert LOWER[c as int - 'a' as int + 10] == c;
      } else {
        assert UPPER[c as int - 'A' as int + 10] == c;
      }
    }
    forall c
      ensures IsDigit(c, 10) <==> c in LOWER[..10]
    {
      if IsDigit(c, 10) {
        assert LOWER[..10][c as int - '0' as int] == c;
      }
    }
  }

  /** Hexadecimal notation is read back as the number it was made from. */
  lemma {:induction false} ValueOfHex(n: nat, digits: string)
    requires digits == LOWER || digits == UPPER
    ensures AllDigits(Hex(n, digits), 16) && Value(Hex(n, digits), 16) == n
    ensures n > 0 ==> Hex(n, digits)[0] != '0'
  {
    DigitsByPosition();
    var s := Hex(n, digits);
    if n >= 16 {
      ValueOfHex(n / 16, digits);
      assert s[..|s| - 1] == Hex(n / 16, digits);
      assert s[0] == Hex(n / 16, digits)[0];
    } else {
      assert s[..0] == "";
    }
  }
  // What the readers make of blanks, signs and prefixes.

  predicate AllBlanks(s: string) {
    forall i :: 0 <= i < |s| ==> s[i] in " \t\n\r\U{0B}\U{0C}"
  }

  lemma {:induction false} BlanksSkipped(blanks: string, text: string)
    requires AllBlanks(blanks) && (text != "" ==> !IsSpace(text[0]))
    ensures SkipSpaces(blanks + text) == text
  {
    if blanks == "" {
      assert blanks + text == text;
    } else {
      assert (blanks + text)[1..] == blanks[1..] + text;
      BlanksSkipped(blanks[1..], text);
    }
  }

  lemma SignedStart(sign: string, digits: string, rest: string)
    requires sign in {"", "+", "-"} && digits != "" && AllDigits(digits, 10)
    ensures var text := sign + (digits + rest);
            && text != "" && !IsSpace(text[0])
            && (if sign == "" then text[0] == digits[0] && text == digits + rest
                else text[0] == sign[0] && text[1..] == digits + rest)
  {
  }

  /** A decimal number behind blanks and a sign is read as what it says, cut off at the ends of
      the range of int; what follows it is not looked at. */
  lemma ReadsDecimal(blanks: string, sign: string, n: nat, rest: string)
    requires AllBlanks(blanks) && sign in {"", "+", "-"} && (rest == "" || !IsDigit(rest[0], 10))
    ensures var v := if sign == "-" then -(n as int) else n as int;
            ExtractInt(blanks + (sign + (Decimal(n) + rest)), 10)
            == if v > INT_MAX then Failed(INT_MAX) else if v < INT_MIN then Failed(INT_MIN) else Extracted(v)
  {
    SignedStart(sign, Decimal(n), rest);
    BlanksSkipped(blanks, sign + (Decimal(n) + rest));
    DigitPrefixStops(Decimal(n), rest, 10);
    ValueOfDecimal(n);
  }

  /** The same for a port, where a sign negates modulo 2^16 and anything too large fails. */
  lemma ReadsPort(blanks: string, sign: string, n: nat, rest: string)
    requires AllBlanks(blanks) && sign in {"", "+", "-"} && (rest == "" || !IsDigit(rest[0], 10))
    ensures ExtractUint16(blanks + (sign + (Decimal(n) + rest)))
            == if n > UINT16_MAX then None else if sign == "-" && n > 0 then Some(0x1_0000 - n) else Some(n)
  {
    SignedStart(sign, Decimal(n), rest);
    BlanksSkipped(blanks, sign + (Decimal(n) + rest));
    DigitPrefixStops(Decimal(n), rest, 10);
    ValueOfDecimal(n);
  }

  /** Without a number nothing is read: the variable keeps its value when there are only blanks,
      and is 0 otherwise. */
  lemma ReadsNothing(blanks: string, rest: string, base: Base)
    requires AllBlanks(blanks)
    requires rest != "" ==> !IsSpace(rest[0]) && !IsDigit(rest[0], base) && rest[0] != '-' && rest[0] != '+'
    ensures ExtractInt(blanks + rest, base) == if rest == "" then Untouched else Failed(0)
  {
    BlanksSkipped(blanks, rest);
  }

  /** A hexadecimal number may have the prefix `0x`. */
  lemma ReadsPrefixed(n: nat, digits: string, prefix: string, rest: string)
    requires n <= INT_MAX && (digits == LOWER || digits == UPPER) && prefix in {"0x", "0X"}
    requires rest == "" || !IsDigit(rest[0], 16)
    ensures ExtractInt(prefix + (Hex(n, digits) + rest), 16) == Extracted(n)
  {
    ValueOfHex(n, digits);
    DigitPrefixStops(Hex(n, digits), rest, 16);
    var text := prefix + (Hex(n, digits) + rest);
    assert text[0] == '0' && (text[1] == 'x' || text[1] == 'X') && text[2..] == Hex(n, digits) + rest;
  }
}
