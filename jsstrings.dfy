/**
 * The few JavaScript string operations the record store relies on:
 * `startsWith`, `split(sep)[1]`, `n.toString()` and unary `+` on a string.
 */
module JsStrings {

  /** `s.startsWith(prefix)` */
  predicate StartsWith(s: string, prefix: string) {
    |prefix| <= |s| && s[..|prefix|] == prefix
  }

  lemma StartsWithAppend(prefix: string, rest: string)
    ensures StartsWith(prefix + rest, prefix)
  {
    assert (prefix + rest)[..|prefix|] == prefix;
  }

  /** A string that starts with `p + q` starts with `p`. */
  lemma StartsWithShorter(s: string, p: string, q: string)
    requires StartsWith(s, p + q)
    ensures StartsWith(s, p)
  {
    assert s[..|p|] == s[..|p + q|][..|p|] == (p + q)[..|p|] == p;
  }

  /** Index of the first occurrence of `c` in `s`, or `|s|` when `c` does not occur. */
  function IndexOf(s: string, c: char): (i: nat)
    ensures i <= |s|
    ensures i < |s| ==> s[i] == c
    ensures forall j :: 0 <= j < i ==> s[j] != c
    ensures i == |s| <==> c !in s
  {
    if s == [] then 0
    else if s[0] == c then 0
    else 1 + IndexOf(s[1..], c)
  }

  /** The text of `s` before the first `c` (all of `s` when `c` does not occur). */
  function TakeUntil(s: string, c: char): (r: string)
    ensures c !in r
    ensures c !in s ==> r == s
  {
    s[..IndexOf(s, c)]
  }

  /**
   * `s.split(sep)[1]`: the text between the first and the second `sep`, or
   * up to the end of `s` when there is no second one. JavaScript yields
   * `undefined` when `sep` does not occur at all; callers exclude that case.
   */
  function SecondSegment(s: string, sep: char): (r: string)
    requires sep in s
    ensures sep !in r
  {
    TakeUntil(s[IndexOf(s, sep) + 1..], sep)
  }

  /** Splitting `prefix + sep + id` gives back `id` up to its own first `sep`. */
  lemma SecondSegmentOfJoin(prefix: string, sep: char, id: string)
    requires sep !in prefix
    ensures sep in prefix + [sep] + id
    ensures SecondSegment(prefix + [sep] + id, sep) == TakeUntil(id, sep)
  {
    var s := prefix + [sep] + id;
    assert s[|prefix|] == sep;
    assert forall j :: 0 <= j < |prefix| ==> s[j] == prefix[j];
    assert IndexOf(s, sep) == |prefix|;
    assert s[|prefix| + 1..] == id;
  }

  predicate IsDigit(c: char) {
    '0' <= c <= '9'
  }

  predicate AllDigits(s: string) {
    forall i :: 0 <= i < |s| ==> IsDigit(s[i])
  }

  /** The value of a string of decimal digits (0 for the empty string). */
  function DigitsValue(s: string): nat
    requires AllDigits(s)
  {
    if s == [] then 0
    else 10 * DigitsValue(s[..|s| - 1]) + (s[|s| - 1] as int - '0' as int)
  }

  /** The whitespace `StringToNumber` trims, restricted to ASCII (and the no-break space). */
  predicate IsSpace(c: char) {
    c == ' ' || c == '\t' || c == '\n' || c == '\r' || c == '\U{0B}' || c == '\U{0C}' || c == '\U{A0}'
  }

  /** The number of whitespace characters `s` starts with. */
  function LeadingSpaces(s: string): (n: nat)
    ensures n <= |s|
    ensures forall i :: 0 <= i < n ==> IsSpace(s[i])
    ensures n == |s| || !IsSpace(s[n])
  {
    if s != [] && IsSpace(s[0]) then 1 + LeadingSpaces(s[1..]) else 0
  }

  /** The number of whitespace characters `s` ends with. */
  function TrailingSpaces(s: string): (n: nat)
    ensures n <= |s|
    ensures forall i :: |s| - n <= i < |s| ==> IsSpace(s[i])
    ensures n == |s| || !IsSpace(s[|s| - n - 1])
  {
    if s != [] && IsSpace(s[|s| - 1]) then 1 + TrailingSpaces(s[..|s| - 1]) else 0
  }

  /**
   * `s.trim()`: the slice of `s` after its leading whitespace and before
   * its trailing whitespace. Only whitespace is cut off, on either side,
   * and the result neither starts nor ends with whitespace.
   */
  function Trim(s: string): (r: string)
    ensures var a := LeadingSpaces(s);
      && a + |r| <= |s| && r == s[a..a + |r|]
      && (forall i :: 0 <= i < a ==> IsSpace(s[i]))
      && (forall i :: a + |r| <= i < |s| ==> IsSpace(s[i]))
    ensures r == [] || (!IsSpace(r[0]) && !IsSpace(r[|r| - 1]))
    ensures |s| > 0 && !IsSpace(s[0]) && !IsSpace(s[|s| - 1]) ==> r == s
  {
    var a := LeadingSpaces(s);
    if a == |s| then []
    else
      var b := TrailingSpaces(s);
      assert a < |s| - b;
      TrimmedBetween(s, a, b);
      s[a..|s| - b]
  }

  /**
   * Between `a` leading and `b` trailing whitespace characters, with a
   * non-space character at each end, lies a slice with no whitespace at
   * its ends.
   */
  lemma TrimmedBetween(s: string, a: nat, b: nat)
    requires a < |s| - b
    requires !IsSpace(s[a]) && !IsSpace(s[|s| - b - 1])
    ensures var r := s[a..|s| - b];
      && r == s[a..a + |r|]
      && (r == [] || (!IsSpace(r[0]) && !IsSpace(r[|r| - 1])))
      && (|s| > 0 && !IsSpace(s[0]) && !IsSpace(s[|s| - 1]) && a == 0 && b == 0 ==> r == s)
  {
  }

  /** A decimal integer literal: an optional sign and at least one digit. */
  predicate IsDecimalInteger(s: string) {
    if |s| > 0 && (s[0] == '-' || s[0] == '+') then |s| > 1 && AllDigits(s[1..])
    else |s| > 0 && AllDigits(s)
  }

  /** The value of a decimal integer literal. */
  function DecimalValue(s: string): int
    requires IsDecimalInteger(s)
  {
    if s[0] == '-' then -(DigitsValue(s[1..]) as int)
    else if s[0] == '+' then DigitsValue(s[1..])
    else DigitsValue(s)
  }

  /**
   * The result of unary `+` on a string. Surrounding whitespace is ignored;
   * a blank string gives 0 and an optionally signed decimal integer gives
   * its value, as in JavaScript. Every other string (a fraction, an
   * exponent, a hexadecimal literal, `Infinity`, or text that is not a
   * number) is kept as `Other`, without claiming what JavaScript makes of it.
   */
  datatype NumberValue = Int(value: int) | Other(text: string)

  function ToNumber(s: string): (v: NumberValue)
    ensures v.Int? <==> Trim(s) == [] || IsDecimalInteger(Trim(s))
    ensures Trim(s) == [] ==> v == Int(0)
    ensures IsDecimalInteger(Trim(s)) ==> v == Int(DecimalValue(Trim(s)))
    ensures v.Other? ==> v.text == Trim(s)
  {
    var t := Trim(s);
    if t == [] then Int(0)
    else if IsDecimalInteger(t) then Int(DecimalValue(t))
    else Other(t)
  }

  function DigitChar(d: nat): (c: char)
    requires d < 10
    ensures IsDigit(c) && c as int - '0' as int == d
  {
    ('0' as int + d) as char
  }

  /** `n.toString()` for a natural number: its decimal digits, without leading zeros. */
  function NatToString(n: nat): (s: string)
    ensures |s| >= 1 && AllDigits(s)
    ensures '#' !in s
  {
    if n < 10 then [DigitChar(n)]
    else NatToString(n / 10) + [DigitChar(n % 10)]
  }

  /** The digits of `n.toString()` have the value `n`. */
  lemma {:induction false} NatToStringValue(n: nat)
    ensures DigitsValue(NatToString(n)) == n
  {
    var s := NatToString(n);
    if n >= 10 {
      var init := NatToString(n / 10);
      NatToStringValue(n / 10);
      assert s == init + [DigitChar(n % 10)];
      assert s[..|s| - 1] == init;
      assert DigitsValue(s) == 10 * (n / 10) + n % 10;
    } else {
      assert s == [DigitChar(n)] && s[..|s| - 1] == [];
      assert DigitsValue(s) == 10 * DigitsValue([]) + n;
    }
  }

  /** A decimal integer literal with no whitespace is read as its value. */
  lemma ToNumberOfDecimal(s: string)
    requires IsDecimalInteger(s)
    ensures ToNumber(s) == Int(DecimalValue(s))
  {
    assert IsDigit(s[|s| - 1]) by {
      if |s| > 1 {
        assert s[|s| - 1] == s[1..][|s| - 2];
      }
    }
    assert !IsSpace(s[0]) && !IsSpace(s[|s| - 1]);
    assert Trim(s) == s;
  }

  /** A decimal integer literal padded with whitespace on either side is read as its value. */
  lemma ToNumberOfPadded(p: string, d: string, q: string)
    requires IsDecimalInteger(d)
    requires forall i :: 0 <= i < |p| ==> IsSpace(p[i])
    requires forall i :: 0 <= i < |q| ==> IsSpace(q[i])
    ensures ToNumber(p + d + q) == Int(DecimalValue(d))
  {
    var s := p + d + q;
    assert IsDigit(d[|d| - 1]) by {
      if |d| > 1 {
        assert d[|d| - 1] == d[1..][|d| - 2];
      }
    }
    assert s[|p|] == d[0] && s[|p| + |d| - 1] == d[|d| - 1];
    assert LeadingSpaces(s) == |p|;
    assert TrailingSpaces(s) == |q|;
    assert s[|p|..|s| - |q|] == d;
  }

  /** Unary `+` undoes `toString` on natural numbers. */
  lemma ToNumberOfNatToString(n: nat)
    ensures ToNumber(NatToString(n)) == Int(n)
  {
    NatToStringValue(n);
    ToNumberOfDecimal(NatToString(n));
  }

  /** `n.toString()` for any integer: a `-` before the digits of a negative number. */
  function IntToString(n: int): (s: string)
    ensures |s| >= 1 && '#' !in s
  {
    if n < 0 then "-" + NatToString(-n) else NatToString(n)
  }

  /** `n.toString()` is a decimal integer literal, unsigned or with `-`, of value `n`. */
  lemma IntToStringDecimal(n: int)
    ensures IsDecimalInteger(IntToString(n)) && IntToString(n)[0] != '+'
    ensures DecimalValue(IntToString(n)) == n
  {
    var s := IntToString(n);
    if n < 0 {
      NatToStringValue(-n);
      assert s[0] == '-' && s[1..] == NatToString(-n);
      assert DigitsValue(s[1..]) == -n;
    } else {
      NatToStringValue(n);
      assert s == NatToString(n) && IsDigit(s[0]);
    }
  }

  /** Unary `+` undoes `toString` on every integer. */
  lemma IntToStringRoundTrip(n: int)
    ensures ToNumber(IntToString(n)) == Int(n)
  {
    IntToStringDecimal(n);
    ToNumberOfDecimal(IntToString(n));
  }
}
