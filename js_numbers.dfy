/** The two string-to-number conversions the backend uses: `parseInt` and `Number`.
    A result of `None` stands for `NaN`. */
module JsNumbers {
  import opened JsText

  /** StrWhiteSpaceChar of ECMAScript: the white space and line terminator code points. */
  predicate IsJsSpace(c: char)
  {
    var n := c as int;
    n == 0x09 || n == 0x0A || n == 0x0B || n == 0x0C || n == 0x0D || n == 0x20 ||
    n == 0xA0 || n == 0x1680 || (0x2000 <= n <= 0x200A) || n == 0x2028 || n == 0x2029 ||
    n == 0x202F || n == 0x205F || n == 0x3000 || n == 0xFEFF
  }

  /** `s` without its leading white space. */
  function TrimStart(s: string): string
  {
    if s != [] && IsJsSpace(s[0]) then TrimStart(s[1..]) else s
  }

  /** `s` without its trailing white space. */
  function TrimEnd(s: string): string
  {
    if s != [] && IsJsSpace(s[|s| - 1]) then TrimEnd(s[..|s| - 1]) else s
  }

  /** `parseInt(s, radix)` for the two forms the backend calls: with radix 10, and with no radix,
      where a `0x` or `0X` after the sign selects radix 16. Leading white space is skipped, one
      sign is read, then the longest run of digits; text after the run is ignored, and an empty
      run gives `NaN`. */
  function ParseInt(s: string, radix10: bool): Option<int>
  {
    var t := TrimStart(s);
    if t != [] && t[0] == '-' then Negate(ParseUnsigned(t[1..], radix10))
    else if t != [] && t[0] == '+' then ParseUnsigned(t[1..], radix10)
    else ParseUnsigned(t, radix10)
  }

  function Negate(v: Option<nat>): Option<int>
  {
    if v.None? then None else Some(-(v.value as int))
  }

  /** What `parseInt` reads after the sign: the leading run of digits, in radix 16 when the
      radix is not given and the text starts with `0x` or `0X`. */
  function ParseUnsigned(u: string, radix10: bool): Option<nat>
  {
    var hex := !radix10 && |u| >= 2 && u[0] == '0' && (u[1] == 'x' || u[1] == 'X');
    var digits := if hex then DigitPrefix(u[2..], 16) else DigitPrefix(u, 10);
    if digits == [] then None
    else if hex then Some(DigitsValue(digits, 16))
    else Some(DigitsValue(digits, 10))
  }

  /** `Number(s)` for a string: surrounding white space is ignored, the empty string is 0, and
      otherwise the whole text must be a signed decimal integer or an unsigned `0x`, `0o` or
      `0b` literal. */
  function NumberOf(s: string): Option<int>
  {
    var t := TrimEnd(TrimStart(s));
    if t == [] then Some(0)
    else if |t| >= 2 && t[0] == '0' && IsRadixLetter(t[1]) then PrefixedLiteral(t[1], t[2..])
    else if t[0] == '-' then Negate(WholeDecimal(t[1..]))
    else if t[0] == '+' then WholeDecimal(t[1..])
    else WholeDecimal(t)
  }

  predicate IsRadixLetter(c: char)
  {
    c == 'x' || c == 'X' || c == 'o' || c == 'O' || c == 'b' || c == 'B'
  }

  /** The value of an `0x`, `0o` or `0b` literal, given its letter and its digits. */
  function PrefixedLiteral(letter: char, body: string): Option<nat>
  {
    var radix := if letter == 'x' || letter == 'X' then 16 else if letter == 'o' || letter == 'O' then 8 else 2;
    if body != [] && AllRadixDigits(body, radix) then Some(DigitsValue(body, radix)) else None
  }

  /** The value of a text made only of decimal digits, and `NaN` for any other text. */
  function WholeDecimal(u: string): Option<nat>
  {
    if u != [] && AllRadixDigits(u, 10) then Some(DigitsValue(u, 10)) else None
  }

  lemma DigitsAreNotSpace(s: string, radix: nat)
    requires AllRadixDigits(s, radix)
    ensures forall i :: 0 <= i < |s| ==> !IsJsSpace(s[i])
  {
  }

  /** The digits before a non-digit: `parseInt` reads back a number written in decimal and stops
      at the first character that is not a digit. */
  lemma {:induction false} DigitPrefixOfDecimal(digits: string, rest: string, radix: nat)
    requires AllRadixDigits(digits, radix)
    requires rest == [] || !IsRadixDigit(rest[0], radix)
    ensures DigitPrefix(digits + rest, radix) == digits
  {
    if digits != [] {
      assert (digits + rest)[1..] == digits[1..] + rest;
      DigitPrefixOfDecimal(digits[1..], rest, radix);
      assert [digits[0]] + digits[1..] == digits;
    } else {
      assert digits + rest == rest;
    }
  }

  /** Text that starts with a digit has no leading white space and no sign. */
  lemma ParseIntUnsigned(s: string, radix10: bool)
    requires s != [] && IsRadixDigit(s[0], 10)
    ensures ParseInt(s, radix10) == ParseUnsigned(s, radix10)
  {
    assert '0' <= s[0] <= '9';
    assert TrimStart(s) == s;
  }

  /** A run of decimal digits not followed by a digit is read by `parseInt` as its value, unless
      without a radix it is a lone `0` followed by `x` or `X`, which starts a hexadecimal number. */
  lemma ParseUnsignedDecimal(digits: string, rest: string, radix10: bool)
    requires digits != [] && AllRadixDigits(digits, 10)
    requires rest == [] || !IsRadixDigit(rest[0], 10)
    requires radix10 || |digits| >= 2 || digits[0] != '0' || rest == [] || (rest[0] != 'x' && rest[0] != 'X')
    ensures ParseUnsigned(digits + rest, radix10) == Some(DigitsValue(digits, 10))
  {
    var s := digits + rest;
    assert !(!radix10 && |s| >= 2 && s[0] == '0' && (s[1] == 'x' || s[1] == 'X')) by {
      if !radix10 && |s| >= 2 {
        if |digits| >= 2 {
          assert s[1] == digits[1] && IsRadixDigit(digits[1], 10);
        } else {
          assert s[0] == digits[0] && s[1] == rest[0];
        }
      }
    }
    DigitPrefixOfDecimal(digits, rest, 10);
  }

  /** `parseInt(String(n) + rest)` is `n` whenever `rest` does not continue the digits (and,
      without a radix, does not turn `0` into `0x`). */
  lemma ParseDecimalPrefix(n: nat, rest: string, radix10: bool)
    requires rest == [] || !IsRadixDigit(rest[0], 10)
    requires radix10 || n != 0 || rest == [] || (rest[0] != 'x' && rest[0] != 'X')
    ensures ParseInt(Decimal(n) + rest, radix10) == Some(n)
  {
    var d := Decimal(n);
    var s := d + rest;
    assert s[0] == d[0];
    DecimalValue(n);
    ParseIntUnsigned(s, radix10);
    if n >= 10 {
      assert |d| >= 2;
    } else {
      assert d == [DigitChar(n)];
    }
    ParseUnsignedDecimal(d, rest, radix10);
  }

  /** The decimal text of a natural number parses back to it, with or without the radix. */
  lemma ParseIntOfDecimal(n: nat, radix10: bool)
    ensures ParseInt(Decimal(n), radix10) == Some(n)
  {
    assert Decimal(n) + [] == Decimal(n);
    ParseDecimalPrefix(n, [], radix10);
  }

  /** A negative integer's text, `-` and its magnitude's digits, parses back to it. */
  lemma ParseIntNegative(n: int, radix10: bool)
    requires n < 0
    ensures ParseInt(IntToString(n), radix10) == Some(n)
  {
    var m: nat := -n;
    var d := Decimal(m);
    var s := IntToString(n);
    assert s == "-" + d;
    assert TrimStart(s) == s;
    assert s[1..] == d + [];
    DecimalValue(m);
    if m < 10 {
      assert d == [DigitChar(m)];
    }
    ParseUnsignedDecimal(d, [], radix10);
  }

  /** Both `parseInt` forms read back `String(n)` for every integer `n`. */
  lemma ParseIntToString(n: int, radix10: bool)
    ensures ParseInt(IntToString(n), radix10) == Some(n)
  {
    if n < 0 {
      ParseIntNegative(n, radix10);
    } else {
      ParseIntOfDecimal(n, radix10);
    }
  }

  /** `parseInt` of text that starts with a lower-case letter is `NaN`. */
  lemma ParseIntOfWord(s: string, radix10: bool)
    requires s != [] && 'a' <= s[0] <= 'z'
    ensures ParseInt(s, radix10) == None
  {
    assert TrimStart(s) == s;
    assert !IsRadixDigit(s[0], 10);
  }

  /** Text that starts and ends with an ASCII letter is not a number. */
  lemma NumberOfWord(s: string)
    requires s != [] && 'a' <= s[0] <= 'z' && 'a' <= s[|s| - 1] <= 'z'
    ensures NumberOf(s) == None
  {
    assert TrimStart(s) == s;
    assert TrimEnd(s) == s;
    assert !IsRadixDigit(s[0], 10);
    assert NumberOf(s) == WholeDecimal(s);
  }

  /** Text that neither starts nor ends with white space is its own trim. */
  lemma TrimmedAlready(s: string)
    requires s != [] && !IsJsSpace(s[0]) && !IsJsSpace(s[|s| - 1])
    ensures TrimEnd(TrimStart(s)) == s
  {
  }

  /** `Number` of a run of decimal digits is the value they denote. */
  lemma NumberOfDigits(d: string)
    requires d != [] && AllRadixDigits(d, 10)
    ensures NumberOf(d) == Some(DigitsValue(d, 10))
  {
    DigitsAreNotSpace(d, 10);
    TrimmedAlready(d);
    assert IsRadixDigit(d[0], 10);
    if |d| >= 2 {
      assert IsRadixDigit(d[1], 10);
    }
  }

  /** `Number` of `-` and a run of decimal digits is minus the value they denote. */
  lemma NumberOfNegative(d: string)
    requires d != [] && AllRadixDigits(d, 10)
    ensures NumberOf("-" + d) == Some(-(DigitsValue(d, 10) as int))
  {
    var s := "-" + d;
    DigitsAreNotSpace(d, 10);
    assert s[|s| - 1] == d[|d| - 1];
    TrimmedAlready(s);
    assert s[1..] == d;
  }

  /** `Number(String(n))` is `n` for every integer `n`. */
  lemma NumberOfToString(n: int)
    ensures NumberOf(IntToString(n)) == Some(n)
  {
    var m := if n < 0 then -n else n;
    DecimalValue(m);
    if n < 0 {
      NumberOfNegative(Decimal(m));
    } else {
      NumberOfDigits(Decimal(m));
    }
  }
}
