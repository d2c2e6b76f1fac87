/** Decimal text of integers: Python's `str(int)`, `'{0:0Nd}'.format(int)` and `int(str)`. */
module Decimal {
  import opened Wrappers

  predicate IsDigit(c: char) {
    '0' <= c <= '9'
  }

  predicate AllDigits(s: string) {
    forall i :: 0 <= i < |s| ==> IsDigit(s[i])
  }

  function DigitChar(d: nat): (c: char)
    requires d < 10
    ensures IsDigit(c)
  {
    ('0' as int + d) as char
  }

  function DigitValue(c: char): (d: nat)
    requires IsDigit(c)
    ensures d < 10
  {
    c as int - '0' as int
  }

  function Pow10(k: nat): (p: nat)
    ensures p >= 1
  {
    if k == 0 then 1 else 10 * Pow10(k - 1)
  }

  /** The decimal digits of `n`, most significant first, without leading zeros. */
  function Digits(n: nat): (s: string)
    ensures |s| >= 1 && AllDigits(s)
    ensures n == 0 ==> s == "0"
    ensures n > 0 ==> s[0] != '0'
    decreases n
  {
    if n < 10 then [DigitChar(n)] else Digits(n / 10) + [DigitChar(n % 10)]
  }

  /** The number a string of decimal digits denotes (leading zeros allowed). */
  function Value(s: string): nat
    requires AllDigits(s)
  {
    if s == [] then 0 else Value(s[..|s| - 1]) * 10 + DigitValue(s[|s| - 1])
  }

  lemma {:induction false} ValueOfDigits(n: nat)
    ensures Value(Digits(n)) == n
  {
    if n >= 10 {
      var s := Digits(n);
      assert s[..|s| - 1] == Digits(n / 10);
      ValueOfDigits(n / 10);
    }
  }

  lemma {:induction false} DigitsLength(n: nat, k: nat)
    requires k >= 1 && n < Pow10(k)
    ensures |Digits(n)| <= k
  {
    if n >= 10 {
      assert k >= 2;
      DigitsLength(n / 10, k - 1);
    }
  }

  function Zeros(k: nat): (s: string)
    ensures |s| == k && AllDigits(s)
  {
    seq(k, i => '0')
  }

  lemma AllDigitsConcat(a: string, b: string)
    requires AllDigits(a) && AllDigits(b)
    ensures AllDigits(a + b)
  {
    var ab := a + b;
    forall i | 0 <= i < |ab| ensures IsDigit(ab[i]) {
      if i < |a| { assert ab[i] == a[i]; } else { assert ab[i] == b[i - |a|]; }
    }
  }

  lemma ShiftDigit(x: int, p: int, v: int, d: int)
    ensures (x * p + v) * 10 + d == x * (10 * p) + (v * 10 + d)
  {
  }

  lemma {:induction false} ValueConcat(a: string, b: string)
    requires AllDigits(a) && AllDigits(b)
    ensures AllDigits(a + b) && Value(a + b) == Value(a) * Pow10(|b|) + Value(b)
  {
    AllDigitsConcat(a, b);
    if b == [] {
      assert a + b == a;
    } else {
      var b' := b[..|b| - 1];
      assert (a + b)[..|a + b| - 1] == a + b';
      assert (a + b)[|a + b| - 1] == b[|b| - 1];
      ValueConcat(a, b');
      ShiftDigit(Value(a), Pow10(|b'|), Value(b'), DigitValue(b[|b| - 1]));
    }
  }

  lemma {:induction false} ValueOfZeros(k: nat)
    ensures Value(Zeros(k)) == 0
  {
    if k > 0 {
      assert Zeros(k)[..k - 1] == Zeros(k - 1);
      ValueOfZeros(k - 1);
    }
  }

  /** `s` padded on the left with zeros up to `width` characters. */
  function LeftPad(s: string, width: int): (r: string)
    ensures |r| == if |s| >= width then |s| else width
  {
    if |s| >= width then s else Zeros(width - |s|) + s
  }

  /** Python's `str(n)` for an `int`. */
  function Str(n: int): (s: string)
    ensures |s| >= 1
    ensures s[0] == '-' <==> n < 0
    ensures n >= 0 ==> AllDigits(s)
    ensures n < 0 ==> |s| >= 2 && AllDigits(s[1..]) && s[1] != '0'
  {
    if n < 0 then "-" + Digits(-n) else Digits(n)
  }

  /** Python's `'{0:0<width>d}'.format(n)`: the sign, then the digits zero-padded so that
      the whole text is at least `width` characters long. */
  function ZeroPadded(n: int, width: nat): (s: string)
    ensures |s| >= 1
  {
    if n < 0 then "-" + LeftPad(Digits(-n), width - 1) else LeftPad(Digits(n), width)
  }

  /** A number below 10^width renders as exactly `width` digits that denote it. */
  lemma ZeroPaddedFixed(n: nat, width: nat)
    requires width >= 1 && n < Pow10(width)
    ensures |ZeroPadded(n, width)| == width && AllDigits(ZeroPadded(n, width))
    ensures Value(ZeroPadded(n, width)) == n
  {
    DigitsLength(n, width);
    ValueOfDigits(n);
    var d := Digits(n);
    if |d| < width {
      ValueConcat(Zeros(width - |d|), d);
      ValueOfZeros(width - |d|);
    }
  }

  /** The characters Python's `int()` strips around a number (ASCII ones). */
  predicate IsSpace(c: char) {
    ('\t' <= c <= '\r') || ('\U{1C}' <= c <= ' ')
  }

  function StripLeft(s: string): (r: string)
    ensures |r| <= |s|
  {
    if |s| > 0 && IsSpace(s[0]) then StripLeft(s[1..]) else s
  }

  function StripRight(s: string): (r: string)
    ensures |r| <= |s|
  {
    if |s| > 0 && IsSpace(s[|s| - 1]) then StripRight(s[..|s| - 1]) else s
  }

  /** Digits grouped by single underscores, as `int()` admits: `1_000`, not `_1`, `1__0` or `1_`. */
  predicate DigitGroups(t: string) {
    && |t| > 0
    && IsDigit(t[0])
    && IsDigit(t[|t| - 1])
    && DigitsOrUnderscores(t)
    && forall i :: 0 <= i < |t| - 1 && t[i] == '_' ==> IsDigit(t[i + 1])
  }

  predicate DigitsOrUnderscores(t: string) {
    forall i :: 0 <= i < |t| ==> IsDigit(t[i]) || t[i] == '_'
  }

  function DropUnderscores(t: string): (r: string)
    requires DigitsOrUnderscores(t)
    ensures AllDigits(r)
    ensures AllDigits(t) ==> r == t
  {
    if t == [] then []
    else if t[0] == '_' then DropUnderscores(t[1..])
    else [t[0]] + DropUnderscores(t[1..])
  }

  function ParseUnsigned(t: string): Option<nat> {
    if DigitGroups(t) then Some(Value(DropUnderscores(t))) else None
  }

  /** Python's `int(text)` for base-10 text, `None` where it raises ValueError. */
  function ParseInt(text: string): (r: Option<int>)
    ensures StripRight(StripLeft(text)) == [] ==> r.None?
    ensures |text| > 0 && AllDigits(text) ==> r == Some(Value(text))
  {
    DigitTextParses(text);
    var t := StripRight(StripLeft(text));
    if |t| > 0 && (t[0] == '+' || t[0] == '-') then
      match ParseUnsigned(t[1..])
      case None => None
      case Some(m) => Some(if t[0] == '-' then -(m as int) else m as int)
    else
      ParseUnsigned(t)
  }

  /** Plain digits have nothing to strip, no sign and no underscores. */
  lemma DigitTextParses(text: string)
    ensures |text| > 0 && AllDigits(text) ==>
              StripRight(StripLeft(text)) == text && DigitGroups(text) && DropUnderscores(text) == text
  {
    if |text| > 0 && AllDigits(text) {
      StripNothing(text);
    }
  }

  lemma StripNothing(s: string)
    requires |s| > 0 && !IsSpace(s[0]) && !IsSpace(s[|s| - 1])
    ensures StripRight(StripLeft(s)) == s
  {
  }

  lemma DigitsAreGroups(n: nat)
    ensures DigitGroups(Digits(n)) && ParseUnsigned(Digits(n)) == Some(n)
  {
    ValueOfDigits(n);
  }

  /** `int(str(n)) == n`: the canonical text of every integer parses back to it. */
  lemma ParseStr(n: int)
    ensures ParseInt(Str(n)) == Some(n)
  {
    var m: nat := if n < 0 then -n else n;
    DigitsAreGroups(m);
    StripNothing(Str(n));
    if n < 0 {
      assert Str(n)[1..] == Digits(m);
    } else {
      assert Str(n) == Digits(m);
      assert IsDigit(Str(n)[0]);
    }
  }

  /** Text that `int()` rejects is never the canonical text of an integer. */
  lemma UnparsableIsNotStr(text: string, n: int)
    requires ParseInt(text).None?
    ensures text != Str(n)
  {
    ParseStr(n);
  }
}
