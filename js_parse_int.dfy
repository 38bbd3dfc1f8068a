/**
 * JavaScript's `parseInt(text, 10)`, which the game applies to the reps and
 * sets text fields. `None` stands for `NaN`: every numeric comparison with it
 * is false.
 */
module JsParse {
  import opened Options

  /** StrWhiteSpaceChar of ECMAScript: the WhiteSpace and LineTerminator code points. */
  predicate IsStrWhiteSpace(c: char) {
    || c == '\t' || c == '\n' || c == '\U{000B}' || c == '\U{000C}' || c == '\r'
    || c == ' ' || c == '\U{00A0}' || c == '\U{1680}' || ('\U{2000}' <= c <= '\U{200A}')
    || c == '\U{2028}' || c == '\U{2029}' || c == '\U{202F}' || c == '\U{205F}'
    || c == '\U{3000}' || c == '\U{FEFF}'
  }

  /** The digits of radix 10. */
  predicate IsDigit(c: char) {
    '0' <= c <= '9'
  }

  predicate AllDigits(d: string) {
    forall i :: 0 <= i < |d| ==> IsDigit(d[i])
  }

  function DigitValue(c: char): (v: nat)
    requires IsDigit(c)
    ensures v < 10
  {
    (c as int) - ('0' as int)
  }

  function DigitChar(v: nat): (c: char)
    requires v < 10
    ensures IsDigit(c) && DigitValue(c) == v
  {
    ('0' as int + v) as char
  }

  /** Drops the leading white space, as the first step of parseInt does. */
  function TrimStart(s: string): (t: string)
    ensures |t| <= |s| && t == s[|s| - |t|..]
  {
    if s != [] && IsStrWhiteSpace(s[0]) then TrimStart(s[1..]) else s
  }

  /** TrimStart drops white space only, and all of it. */
  lemma {:induction false} TrimStartDropsWhiteSpace(s: string)
    ensures var t := TrimStart(s);
      && (t == [] || !IsStrWhiteSpace(t[0]))
      && forall i :: 0 <= i < |s| - |t| ==> IsStrWhiteSpace(s[i])
  {
    if s != [] && IsStrWhiteSpace(s[0]) {
      var t := TrimStart(s[1..]);
      TrimStartDropsWhiteSpace(s[1..]);
      assert TrimStart(s) == t;
      forall i | 0 <= i < |s| - |t|
        ensures IsStrWhiteSpace(s[i])
      {
        if i > 0 {
          assert s[i] == s[1..][i - 1];
        }
      }
    }
  }

  /** The longest prefix of `s` made of digits. */
  function LeadingDigits(s: string): (d: string)
    ensures d <= s && AllDigits(d)
    ensures |d| == |s| || !IsDigit(s[|d|])
  {
    if s != [] && IsDigit(s[0]) then [s[0]] + LeadingDigits(s[1..]) else []
  }

  /** The value of a string of decimal digits, most significant first. */
  function DigitsValue(d: string): nat
    requires AllDigits(d)
  {
    if d == [] then 0 else DigitsValue(d[..|d| - 1]) * 10 + DigitValue(d[|d| - 1])
  }

  /** `t` after one sign character, if there is one. */
  function Unsigned(t: string): string {
    if t != [] && (t[0] == '-' || t[0] == '+') then t[1..] else t
  }

  /** parseInt on a text whose white space has been dropped already. */
  function ParseTrimmed(t: string): (r: Option<int>)
    ensures r == None <==> Unsigned(t) == [] || !IsDigit(Unsigned(t)[0])
    ensures r.Some? && r.value < 0 ==> t[0] == '-'
  {
    var d := LeadingDigits(Unsigned(t));
    var v: int := DigitsValue(d);
    if d == [] then None
    else if t[0] == '-' then Some(-v)
    else Some(v)
  }

  /**
   * parseInt(s, 10): skip white space, take an optional sign, then the longest
   * run of digits; `NaN` when that run is empty. Whatever follows the digits
   * is ignored ("12abc" gives 12).
   */
  function ParseInt(s: string): Option<int> {
    ParseTrimmed(TrimStart(s))
  }

  /**
   * parseInt is NaN exactly when no digit follows the white space and the
   * optional sign, and negative only after a minus sign.
   */
  lemma {:induction false} ParseIntCases(s: string)
    ensures var t := TrimStart(s);
      && (ParseInt(s) == None <==> Unsigned(t) == [] || !IsDigit(Unsigned(t)[0]))
      && (ParseInt(s).Some? && ParseInt(s).value < 0 ==> t[0] == '-')
  {
  }

  /** The decimal numeral of `n`, without leading zeros: JavaScript's String(n). */
  function Decimal(n: nat): (s: string)
    ensures |s| >= 1 && AllDigits(s)
  {
    if n < 10 then [DigitChar(n)] else Decimal(n / 10) + [DigitChar(n % 10)]
  }

  lemma {:induction false} DecimalValue(n: nat)
    ensures DigitsValue(Decimal(n)) == n
  {
    if n >= 10 {
      var d := Decimal(n);
      assert d[..|d| - 1] == Decimal(n / 10);
      DecimalValue(n / 10);
    }
  }

  /** Two naturals with the same numeral are equal. */
  lemma {:induction false} DecimalInjective(m: nat, n: nat)
    requires Decimal(m) == Decimal(n)
    ensures m == n
  {
    DecimalValue(m);
    DecimalValue(n);
  }

  lemma {:induction false} LeadingDigitsOf(d: string, rest: string)
    requires AllDigits(d)
    requires rest == [] || !IsDigit(rest[0])
    ensures LeadingDigits(d + rest) == d
  {
    if d != [] {
      assert (d + rest)[1..] == d[1..] + rest;
      LeadingDigitsOf(d[1..], rest);
    }
  }

  /** A text that starts with a digit or a sign has no white space to drop. */
  lemma {:induction false} TrimStartNoWhiteSpace(s: string)
    requires s != [] && (IsDigit(s[0]) || s[0] == '-')
    ensures TrimStart(s) == s
  {
    assert !IsStrWhiteSpace(s[0]);
  }

  /** A sign-free run of digits, followed by a non-digit or nothing, reads as its value. */
  lemma {:induction false} ParseTrimmedDigits(d: string, rest: string)
    requires d != [] && AllDigits(d)
    requires rest == [] || !IsDigit(rest[0])
    ensures ParseTrimmed(d + rest) == Some(DigitsValue(d))
  {
    var s := d + rest;
    assert s[0] == d[0];
    assert Unsigned(s) == s;
    LeadingDigitsOf(d, rest);
  }

  /** The same run after a minus sign reads as its negated value. */
  lemma {:induction false} ParseTrimmedNegative(d: string, rest: string)
    requires d != [] && AllDigits(d)
    requires rest == [] || !IsDigit(rest[0])
    ensures ParseTrimmed("-" + d + rest) == Some(-(DigitsValue(d) as int))
  {
    var s := "-" + d + rest;
    assert s[0] == '-' && s[1..] == d + rest;
    assert Unsigned(s) == d + rest;
    LeadingDigitsOf(d, rest);
    assert LeadingDigits(Unsigned(s)) == d;
  }

  /** After a minus sign there is no white space to drop. */
  lemma {:induction false} ParseIntNegativeDigits(d: string, rest: string)
    requires d != [] && AllDigits(d)
    requires rest == [] || !IsDigit(rest[0])
    ensures ParseInt("-" + d + rest) == Some(-(DigitsValue(d) as int))
  {
    var s := "-" + d + rest;
    assert s[0] == '-';
    TrimStartNoWhiteSpace(s);
    ParseTrimmedNegative(d, rest);
  }

  /** parseInt reads back the numeral of `n`, whatever non-digit text follows it. */
  lemma {:induction false} ParseIntOfDecimal(n: nat, rest: string)
    requires rest == [] || !IsDigit(rest[0])
    ensures ParseInt(Decimal(n) + rest) == Some(n)
  {
    var d := Decimal(n);
    assert (d + rest)[0] == d[0];
    TrimStartNoWhiteSpace(d + rest);
    ParseTrimmedDigits(d, rest);
    DecimalValue(n);
  }

  /** A leading minus sign negates the value read. */
  lemma {:induction false} ParseIntOfNegative(n: nat, rest: string)
    requires rest == [] || !IsDigit(rest[0])
    ensures ParseInt("-" + Decimal(n) + rest) == Some(-(n as int))
  {
    var d := Decimal(n);
    DecimalValue(n);
    assert -(DigitsValue(d) as int) == -(n as int);
    ParseIntNegativeDigits(d, rest);
  }

  /** Leading white space does not change what parseInt returns. */
  lemma {:induction false} ParseIntSkipsWhiteSpace(w: string, s: string)
    requires forall i :: 0 <= i < |w| ==> IsStrWhiteSpace(w[i])
    ensures ParseInt(w + s) == ParseInt(s)
  {
    TrimStartSkips(w, s);
  }

  lemma {:induction false} TrimStartSkips(w: string, s: string)
    requires forall i :: 0 <= i < |w| ==> IsStrWhiteSpace(w[i])
    ensures TrimStart(w + s) == TrimStart(s)
  {
    if w != [] {
      assert (w + s)[1..] == w[1..] + s;
      TrimStartSkips(w[1..], s);
    } else {
      assert w + s == s;
    }
  }
}
