/**
 * Python's number conversions as the bot uses them: `int(s)`, `str(n)`,
 * `float(s)` for amounts (read here as a decimal grammar yielding whole
 * kopecks) and the `:.2f` rendering of amounts.
 */
module Numbers {
  import opened Wrappers
  import opened Text

  function DigitValue(c: char): nat
    requires IsDigit(c)
  {
    c as int - '0' as int
  }

  function DigitChar(d: nat): (c: char)
    requires d < 10
    ensures IsDigit(c) && DigitValue(c) == d
  {
    ('0' as int + d) as char
  }

  predicate AllDigits(s: string)
  {
    forall i :: 0 <= i < |s| ==> IsDigit(s[i])
  }

  /** The value of a string of decimal digits, most significant first. */
  function DigitsValue(s: string): nat
    requires AllDigits(s)
  {
    if s == [] then 0 else DigitsValue(s[..|s| - 1]) * 10 + DigitValue(s[|s| - 1])
  }

  lemma DigitsValueSnoc(s: string, c: char)
    requires AllDigits(s) && IsDigit(c)
    ensures AllDigits(s + [c]) && DigitsValue(s + [c]) == DigitsValue(s) * 10 + DigitValue(c)
  {
    assert (s + [c])[..|s|] == s;
  }

  /** The shortest decimal spelling of `n`. */
  function NatDigits(n: nat): (s: string)
    ensures |s| >= 1 && AllDigits(s)
  {
    if n < 10 then [DigitChar(n)] else NatDigits(n / 10) + [DigitChar(n % 10)]
  }

  lemma {:induction false} NatDigitsValue(n: nat)
    ensures DigitsValue(NatDigits(n)) == n
  {
    if n >= 10 {
      NatDigitsValue(n / 10);
      var s := NatDigits(n);
      assert s[..|s| - 1] == NatDigits(n / 10);
    }
  }

  /** Python's `str(n)`. */
  function FormatInt(n: int): (s: string)
    ensures |s| >= 1
  {
    if n < 0 then "-" + NatDigits(-n) else NatDigits(n)
  }

  /**
   * The digit part of Python's `int()` literal: decimal digits with single
   * underscores allowed between two digits.
   */
  predicate IsDigitRun(s: string)
  {
    |s| >= 1 && forall i :: 0 <= i < |s| ==> RunCharOk(s, i)
  }

  /** Position `i` of a digit run holds a digit, or an underscore flanked by digits. */
  predicate RunCharOk(s: string, i: int)
    requires 0 <= i < |s|
  {
    IsDigit(s[i]) || (s[i] == '_' && 0 < i < |s| - 1 && IsDigit(s[i - 1]) && IsDigit(s[i + 1]))
  }

  function RemoveUnderscores(s: string): (r: string)
    ensures (forall i :: 0 <= i < |s| ==> IsDigit(s[i]) || s[i] == '_') ==> AllDigits(r)
    ensures AllDigits(s) ==> r == s
  {
    if s == [] then []
    else if s[0] == '_' then RemoveUnderscores(s[1..])
    else [s[0]] + RemoveUnderscores(s[1..])
  }

  function RunValue(s: string): nat
    requires IsDigitRun(s)
  {
    forall i | 0 <= i < |s|
      ensures IsDigit(s[i]) || s[i] == '_'
    {
      assert RunCharOk(s, i);
    }
    DigitsValue(RemoveUnderscores(s))
  }

  /**
   * Python's `int(s)`: surrounding whitespace is ignored, then an optional
   * sign and a digit run; anything else raises `ValueError` (here `None`).
   */
  function ParseInt(s: string): (r: Option<int>)
    ensures |s| >= 1 && AllDigits(s) ==> r == Some(DigitsValue(s))
  {
    if |s| >= 1 && AllDigits(s) then
      DigitsStripped(s);
      DigitsAreRun(s);
      ParseSignedUnsigned(s);
      ParseSigned(Strip(s))
    else ParseSigned(Strip(s))
  }

  /** `int()` on an already stripped literal. */
  function ParseSigned(t: string): (r: Option<int>)
    ensures r.Some? ==>
      && t != [] && (IsDigit(t[0]) || t[0] == '+' || t[0] == '-') && IsDigit(t[|t| - 1])
      && (r.value < 0 ==> t[0] == '-')
  {
    assert forall u :: IsDigitRun(u) ==> IsDigit(u[0]) && IsDigit(u[|u| - 1]) by {
      forall u | IsDigitRun(u)
        ensures IsDigit(u[0]) && IsDigit(u[|u| - 1])
      {
        assert RunCharOk(u, 0) && RunCharOk(u, |u| - 1);
      }
    }
    if |t| >= 1 && (t[0] == '+' || t[0] == '-') then
      if IsDigitRun(t[1..]) then
        var v: int := RunValue(t[1..]);
        Some(if t[0] == '-' then -v else v)
      else None
    else if IsDigitRun(t) then Some(RunValue(t))
    else None
  }

  lemma DigitNotSpace(c: char)
    requires IsDigit(c)
    ensures !IsSpace(c)
  {
  }

  lemma NatDigitsIsRun(n: nat)
    ensures IsDigitRun(NatDigits(n)) && RunValue(NatDigits(n)) == n
    ensures !IsSpace(NatDigits(n)[0]) && !IsSpace(NatDigits(n)[|NatDigits(n)| - 1])
  {
    var s := NatDigits(n);
    NatDigitsValue(n);
    assert RemoveUnderscores(s) == s;
    DigitNotSpace(s[0]);
    DigitNotSpace(s[|s| - 1]);
  }

  lemma StripNoBlankEnds(s: string)
    requires s != [] && !IsSpace(s[0]) && !IsSpace(s[|s| - 1])
    ensures Strip(s) == s
  {
  }

  lemma ParseSignedNegative(d: string)
    requires IsDigitRun(d)
    ensures ParseSigned("-" + d) == Some(-(RunValue(d) as int))
  {
    assert ("-" + d)[1..] == d;
  }

  lemma ParseSignedUnsigned(d: string)
    requires IsDigitRun(d)
    ensures ParseSigned(d) == Some(RunValue(d))
  {
    assert RunCharOk(d, 0);
  }

  lemma DigitsAreRun(s: string)
    requires |s| >= 1 && AllDigits(s)
    ensures IsDigitRun(s) && RunValue(s) == DigitsValue(s)
  {
    assert RemoveUnderscores(s) == s;
  }

  lemma DigitsStripped(s: string)
    requires |s| >= 1 && AllDigits(s)
    ensures Strip(s) == s
  {
    DigitNotSpace(s[0]);
    DigitNotSpace(s[|s| - 1]);
    StripNoBlankEnds(s);
  }

  lemma ParseIntOfStripped(s: string)
    requires Strip(s) == s
    ensures ParseInt(s) == ParseSigned(s)
  {
  }

  /** `int(str(n)) == n`: reading back what the bot printed gives the same number. */
  lemma ParseFormatInt(n: int)
    ensures ParseInt(FormatInt(n)) == Some(n)
  {
    if n < 0 {
      var m: nat := -n;
      var d := NatDigits(m);
      NatDigitsIsRun(m);
      ParseNegativeDigits(d);
      assert FormatInt(n) == "-" + d;
    } else {
      var d := NatDigits(n);
      NatDigitsIsRun(n);
      ParseUnsignedDigits(d);
      assert FormatInt(n) == d;
    }
  }

  lemma ParseNegativeDigits(d: string)
    requires IsDigitRun(d) && !IsSpace(d[|d| - 1])
    ensures ParseInt("-" + d) == Some(-(RunValue(d) as int))
  {
    var t := "-" + d;
    assert t[0] == '-' && t[|t| - 1] == d[|d| - 1];
    StripNoBlankEnds(t);
    ParseSignedNegative(d);
  }

  lemma ParseUnsignedDigits(d: string)
    requires IsDigitRun(d) && !IsSpace(d[0]) && !IsSpace(d[|d| - 1])
    ensures ParseInt(d) == Some(RunValue(d))
  {
    StripNoBlankEnds(d);
    ParseSignedUnsigned(d);
  }

  /**
   * Python's `float(s)` restricted to plain decimals (see README for what is
   * left out), with the value expressed in kopecks: the integer part times a
   * hundred plus the first two fraction digits.
   */
  function ParseAmount(s: string): (r: Option<int>)
    ensures r.Some? ==> Strip(s) != []
    ensures r.Some? && r.value < 0 ==> Strip(s)[0] == '-'
  {
    SignedAmount(Strip(s))
  }

  /** `float()` on an already stripped literal: an optional sign, then an unsigned decimal. */
  function SignedAmount(t: string): (r: Option<int>)
    ensures r.Some? ==> t != []
    ensures r.Some? && r.value < 0 ==> t[0] == '-'
  {
    if |t| >= 1 && (t[0] == '+' || t[0] == '-') then
      match UnsignedAmount(t[1..])
      case Some(k) => Some(if t[0] == '-' then -(k as int) else k)
      case None => None
    else
      match UnsignedAmount(t)
      case Some(k) => Some(k)
      case None => None
  }

  /** An unsigned decimal: digits, optionally a point and more digits, at least one digit in all. */
  function UnsignedAmount(body: string): Option<nat>
  {
    AmountOfParts(SplitOn(body, '.'))
  }

  /** The value of a decimal already cut at its points. */
  function AmountOfParts(parts: seq<string>): Option<nat>
  {
    if 1 <= |parts| <= 2 && AllDigits(parts[0]) && (|parts| == 1 || AllDigits(parts[1]))
       && (parts[0] != [] || (|parts| == 2 && parts[1] != []))
    then
      var frac := if |parts| == 2 then parts[1] else [];
      Some(DigitsValue(parts[0]) * 100 + Hundredths(frac))
    else None
  }

  /** The value of two digits. */
  lemma TwoDigitsValue(a: char, b: char)
    requires IsDigit(a) && IsDigit(b)
    ensures AllDigits([a, b]) && DigitsValue([a, b]) == DigitValue(a) * 10 + DigitValue(b)
  {
    DigitsValueSnoc([], a);
    assert [] + [a] == [a];
    DigitsValueSnoc([a], b);
    assert [a] + [b] == [a, b];
  }

  /**
   * The first two digits of a fraction, in hundredths: a lone digit counts
   * tens, and any digit after the second is dropped rather than rounded.
   */
  function Hundredths(frac: string): (h: nat)
    requires AllDigits(frac)
    ensures h < 100
    ensures |frac| >= 2 ==> h == DigitsValue(frac[..2])
    ensures |frac| == 1 ==> h == DigitsValue(frac) * 10
    ensures frac == [] ==> h == 0
  {
    if frac == [] then 0
    else if |frac| == 1 then
      DigitsValueSnoc([], frac[0]);
      assert [] + [frac[0]] == frac;
      DigitValue(frac[0]) * 10
    else
      TwoDigitsValue(frac[0], frac[1]);
      assert frac[..2] == [frac[0], frac[1]];
      DigitValue(frac[0]) * 10 + DigitValue(frac[1])
  }

  /** Python's `f"{amount:.2f}"` for an amount held in kopecks. */
  function FormatAmount(k: int): (s: string)
    ensures |s| >= 4 && s[|s| - 3] == '.' && AllDigits(s[|s| - 2..])
    ensures (s[0] == '-') <==> k < 0
    ensures ',' !in s
  {
    var m: nat := if k < 0 then -k else k;
    var body := NatDigits(m / 100) + "." + [DigitChar(m % 100 / 10), DigitChar(m % 10)];
    if k < 0 then "-" + body else body
  }

  lemma DigitsHaveNoPoint(s: string)
    requires AllDigits(s)
    ensures '.' !in s
  {
  }

  lemma UnsignedAmountSplit(whole: string, frac: string)
    requires '.' !in whole && '.' !in frac
    ensures UnsignedAmount(whole + ['.'] + frac) == AmountOfParts([whole, frac])
  {
    SplitOnTwo(whole, frac, '.');
  }

  lemma AmountOfTwoParts(whole: string, frac: string)
    requires AllDigits(whole) && AllDigits(frac) && |whole| >= 1 && |frac| == 2
    ensures AmountOfParts([whole, frac]) == Some(DigitsValue(whole) * 100 + Hundredths(frac))
  {
  }

  lemma UnsignedAmountPair(whole: string, frac: string)
    requires AllDigits(whole) && AllDigits(frac) && |whole| >= 1 && |frac| == 2
    ensures UnsignedAmount(whole + ['.'] + frac) == Some(DigitsValue(whole) * 100 + Hundredths(frac))
  {
    DigitsHaveNoPoint(whole);
    DigitsHaveNoPoint(frac);
    UnsignedAmountSplit(whole, frac);
    AmountOfTwoParts(whole, frac);
  }

  lemma HundredthsOfDigits(m: nat)
    ensures Hundredths([DigitChar(m % 100 / 10), DigitChar(m % 10)]) == m % 100
  {
    var r := m % 100;
    assert r == r / 10 * 10 + r % 10;
    assert r % 10 == m % 10;
  }

  lemma UnsignedAmountOfFormat(m: nat)
    ensures UnsignedAmount(NatDigits(m / 100) + "." + [DigitChar(m % 100 / 10), DigitChar(m % 10)]) == Some(m)
  {
    var whole := NatDigits(m / 100);
    var frac := [DigitChar(m % 100 / 10), DigitChar(m % 10)];
    assert DigitsValue(whole) == m / 100 by {
      NatDigitsValue(m / 100);
    }
    assert Hundredths(frac) == m % 100 by {
      HundredthsOfDigits(m);
    }
    UnsignedAmountPair(whole, frac);
  }

  lemma SignedAmountNegative(body: string, k: nat)
    requires UnsignedAmount(body) == Some(k)
    ensures SignedAmount("-" + body) == Some(-(k as int))
  {
    assert ("-" + body)[1..] == body;
  }

  lemma SignedAmountUnsigned(body: string, k: nat)
    requires UnsignedAmount(body) == Some(k) && body != [] && IsDigit(body[0])
    ensures SignedAmount(body) == Some(k)
  {
  }

  /** What the bot prints with `:.2f` reads back as the same amount. */
  lemma ParseFormatAmount(k: int)
    ensures ParseAmount(FormatAmount(k)) == Some(k)
  {
    var m: nat := if k < 0 then -k else k;
    var whole := NatDigits(m / 100);
    var body := whole + "." + [DigitChar(m % 100 / 10), DigitChar(m % 10)];
    UnsignedAmountOfFormat(m);
    NatDigitsIsRun(m / 100);
    assert body[0] == whole[0] && body[|body| - 1] == DigitChar(m % 10);
    if k < 0 {
      assert FormatAmount(k) == "-" + body;
      ParseNegativeAmount(body, m);
    } else {
      assert FormatAmount(k) == body;
      ParseUnsignedAmount(body, m);
    }
  }

  lemma ParseNegativeAmount(body: string, m: nat)
    requires UnsignedAmount(body) == Some(m) && body != [] && !IsSpace(body[|body| - 1])
    ensures ParseAmount("-" + body) == Some(-(m as int))
  {
    var t := "-" + body;
    assert t[0] == '-' && t[|t| - 1] == body[|body| - 1];
    StripNoBlankEnds(t);
    SignedAmountNegative(body, m);
  }

  lemma ParseUnsignedAmount(body: string, m: nat)
    requires UnsignedAmount(body) == Some(m) && body != [] && IsDigit(body[0]) && !IsSpace(body[|body| - 1])
    ensures ParseAmount(body) == Some(m)
  {
    DigitNotSpace(body[0]);
    StripNoBlankEnds(body);
    SignedAmountUnsigned(body, m);
  }
}
