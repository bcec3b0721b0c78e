/** Strings as the backend's JavaScript sees them: digits, decimal rendering,
    `split` on a set of single characters and `join`. */
module JsText {

  datatype Option<+T> = None | Some(value: T)

  /** The value of `c` as a digit in radixes up to 36 (`0`-`9`, then `a`-`z` or `A`-`Z`). */
  function DigitOf(c: char): (d: Option<nat>)
    ensures d.Some? ==> d.value < 36
  {
    if '0' <= c <= '9' then Some(c as int - '0' as int)
    else if 'a' <= c <= 'z' then Some(c as int - 'a' as int + 10)
    else if 'A' <= c <= 'Z' then Some(c as int - 'A' as int + 10)
    else None
  }

  predicate IsRadixDigit(c: char, radix: nat)
  {
    DigitOf(c).Some? && DigitOf(c).value < radix
  }

  predicate AllRadixDigits(s: string, radix: nat)
  {
    forall i :: 0 <= i < |s| ==> IsRadixDigit(s[i], radix)
  }

  /** The number a string of digits denotes, most significant digit first. */
  function DigitsValue(s: string, radix: nat): nat
    requires AllRadixDigits(s, radix)
  {
    if s == [] then 0 else DigitsValue(s[..|s| - 1], radix) * radix + DigitOf(s[|s| - 1]).value
  }

  /** The longest prefix of `s` made only of digits of `radix`. */
  function DigitPrefix(s: string, radix: nat): (p: string)
    ensures p <= s && AllRadixDigits(p, radix)
    ensures |p| < |s| ==> !IsRadixDigit(s[|p|], radix)
  {
    if s == [] || !IsRadixDigit(s[0], radix) then [] else [s[0]] + DigitPrefix(s[1..], radix)
  }

  function DigitChar(d: nat): (c: char)
    requires d < 10
    ensures DigitOf(c) == Some(d)
  {
    ('0' as int + d) as char
  }

  /** `String(n)` for a non-negative integer: its decimal digits. */
  function Decimal(n: nat): (s: string)
    ensures s != [] && AllRadixDigits(s, 10)
  {
    if n < 10 then [DigitChar(n)] else Decimal(n / 10) + [DigitChar(n % 10)]
  }

  /** The decimal digits of `n` denote `n`. */
  lemma {:induction false} DecimalValue(n: nat)
    ensures DigitsValue(Decimal(n), 10) == n
  {
    if n >= 10 {
      var s := Decimal(n);
      assert s[..|s| - 1] == Decimal(n / 10);
      DecimalValue(n / 10);
    }
  }

  /** Different numbers have different decimal renderings. */
  lemma DecimalInjective(m: nat, n: nat)
    ensures Decimal(m) == Decimal(n) ==> m == n
  {
    DecimalValue(m);
    DecimalValue(n);
  }

  /** `String(n)` for any integer. */
  function IntToString(n: int): string
  {
    if n < 0 then "-" + Decimal(-n) else Decimal(n)
  }

  /** How many characters of `s` belong to `chars`. */
  function Count(s: string, chars: set<char>): nat
  {
    if s == [] then 0 else (if s[0] in chars then 1 else 0) + Count(s[1..], chars)
  }

  lemma {:induction false} CountAppend(a: string, b: string, chars: set<char>)
    ensures Count(a + b, chars) == Count(a, chars) + Count(b, chars)
  {
    if a != [] {
      assert (a + b)[1..] == a[1..] + b;
      CountAppend(a[1..], b, chars);
    } else {
      assert a + b == b;
    }
  }

  lemma {:induction false} CountZero(s: string, chars: set<char>)
    ensures Count(s, chars) == 0 <==> forall i :: 0 <= i < |s| ==> s[i] !in chars
  {
    if s != [] {
      CountZero(s[1..], chars);
      assert forall i :: 1 <= i < |s| ==> s[i] == s[1..][i - 1];
    }
  }

  /** `s.split(re)` for a regular expression `re` matching exactly one character of `seps`:
      one more part than there are separators. */
  function Split(s: string, seps: set<char>): (parts: seq<string>)
    ensures |parts| == 1 + Count(s, seps)
  {
    if s == [] then [""]
    else
      var rest := Split(s[1..], seps);
      if s[0] in seps then [""] + rest
      else [[s[0]] + rest[0]] + rest[1..]
  }

  /** `parts.join(sep)`. */
  function Join(parts: seq<string>, sep: string): string
  {
    if |parts| == 0 then "" else if |parts| == 1 then parts[0] else parts[0] + sep + Join(parts[1..], sep)
  }

  /** Splitting a string at its first separator: the first part is the text before it, and the
      other parts are those of the text after it. */
  lemma {:induction false} SplitAtFirst(s: string, seps: set<char>, i: nat)
    requires i < |s| && s[i] in seps
    requires forall j :: 0 <= j < i ==> s[j] !in seps
    ensures Split(s, seps) == [s[..i]] + Split(s[i + 1..], seps)
  {
    if i > 0 {
      SplitAtFirst(s[1..], seps, i - 1);
      assert s[1..][..i - 1] == s[1..i];
      assert s[1..][i..] == s[i + 1..];
      assert [s[0]] + s[1..i] == s[..i];
    }
  }

  /** A string with no separator is split into itself alone. */
  lemma {:induction false} SplitNone(s: string, seps: set<char>)
    requires forall j :: 0 <= j < |s| ==> s[j] !in seps
    ensures Split(s, seps) == [s]
  {
    if s != [] {
      SplitNone(s[1..], seps);
      assert [s[0]] + s[1..] == s;
    }
  }

  /** Splitting undoes joining, when no part holds the one-character separator. */
  lemma {:induction false} SplitJoin(parts: seq<string>, c: char)
    requires |parts| > 0
    requires forall k, j :: 0 <= k < |parts| && 0 <= j < |parts[k]| ==> parts[k][j] != c
    ensures Split(Join(parts, [c]), {c}) == parts
  {
    if |parts| == 1 {
      SplitNone(parts[0], {c});
    } else {
      var tail := Join(parts[1..], [c]);
      var s := parts[0] + [c] + tail;
      assert s[..|parts[0]|] == parts[0];
      assert s[|parts[0]| + 1..] == tail;
      SplitAtFirst(s, {c}, |parts[0]|);
      SplitJoin(parts[1..], c);
    }
  }
}
