/**
 * Characters and strings: digit strings, the invariant-culture number
 * parser (`double.TryParse` with `NumberStyles.Any`), the fixed-point and
 * integer renderings the converter writes into arguments, log lines and
 * file names, and comma joining.
 */
module Text {
  import opened Wrappers
  import opened Numerics

  predicate IsDigit(c: char) { '0' <= c <= '9' }

  predicate AllDigits(s: string) { forall i :: 0 <= i < |s| ==> IsDigit(s[i]) }

  /** The white space .NET's number parser skips around a number: U+0009 to U+000D and the space. */
  predicate IsWhite(c: char) { c == ' ' || '\t' <= c <= '\r' }

  /** The characters a rendered number is made of. */
  predicate IsNumeral(c: char) { IsDigit(c) || c == '-' || c == '.' }

  predicate AllNumeral(s: string) { forall i :: 0 <= i < |s| ==> IsNumeral(s[i]) }

  function DigitValue(c: char): (d: nat)
    requires IsDigit(c)
    ensures d < 10
  {
    c as int - '0' as int
  }

  function DigitChar(d: nat): (c: char)
    requires d < 10
    ensures IsDigit(c) && DigitValue(c) == d
  {
    (d + '0' as int) as char
  }

  /** The number a string of decimal digits denotes; the empty string denotes 0. */
  function DigitsValue(s: string): nat
    requires AllDigits(s)
  {
    if |s| == 0 then 0 else 10 * DigitsValue(s[..|s| - 1]) + DigitValue(s[|s| - 1])
  }

  /** `n.ToString()` for a non-negative integer: decimal digits, no leading zero. */
  function NatToString(n: nat): (s: string)
    ensures 1 <= |s| && AllDigits(s)
    ensures s[0] == '0' ==> n == 0
  {
    if n < 10 then [DigitChar(n)] else NatToString(n / 10) + [DigitChar(n % 10)]
  }

  lemma {:induction false} NatToStringValue(n: nat)
    ensures DigitsValue(NatToString(n)) == n
  {
    if n >= 10 {
      var s := NatToString(n);
      assert s[..|s| - 1] == NatToString(n / 10);
      NatToStringValue(n / 10);
    }
  }

  /** A number below 10^k has at most k digits. */
  lemma {:induction false} NatToStringLength(n: nat, k: nat)
    requires 1 <= k && n < Pow10(k)
    ensures |NatToString(n)| <= k
  {
    if n >= 10 {
      NatToStringLength(n / 10, k - 1);
    }
  }

  /** `i.ToString(CultureInfo.InvariantCulture)` for an integer. */
  function IntToString(i: int): (s: string)
    ensures 1 <= |s| && AllNumeral(s) && IsDigit(s[|s| - 1])
    ensures s[0] == '-' <==> i < 0
  {
    if i < 0 then "-" + NatToString(Magnitude(i)) else NatToString(i)
  }

  /** The last `w` decimal digits of `n`, padded on the left with zeros. */
  function Digits(n: nat, w: nat): (s: string)
    ensures |s| == w && AllDigits(s)
  {
    if w == 0 then "" else Digits(n / 10, w - 1) + [DigitChar(n % 10)]
  }

  lemma {:induction false} DigitsValueOfDigits(n: nat, w: nat)
    requires n < Pow10(w)
    ensures DigitsValue(Digits(n, w)) == n
  {
    if w > 0 {
      var s := Digits(n, w);
      assert s[..|s| - 1] == Digits(n / 10, w - 1);
      DigitsValueOfDigits(n / 10, w - 1);
    }
  }

  /** The index of the first `c` in `s`, or `|s|` when there is none. */
  function IndexOf(s: string, c: char): (k: nat)
    ensures k <= |s| && (k < |s| ==> s[k] == c)
    ensures forall j :: 0 <= j < k ==> s[j] != c
  {
    if |s| == 0 then 0 else if s[0] == c then 0 else 1 + IndexOf(s[1..], c)
  }

  function TrimStart(s: string): (t: string)
    ensures |t| > 0 ==> !IsWhite(t[0])
  {
    if |s| > 0 && IsWhite(s[0]) then TrimStart(s[1..]) else s
  }

  function TrimEnd(s: string): (t: string)
    ensures |t| > 0 ==> !IsWhite(t[|t| - 1])
  {
    if |s| > 0 && IsWhite(s[|s| - 1]) then TrimEnd(s[..|s| - 1]) else s
  }

  /** The value of the digits `ip` before and `fp` after a decimal point. */
  function DecimalValue(ip: string, fp: string): real
    requires AllDigits(ip) && AllDigits(fp)
  {
    DigitsValue(ip) as real + DigitsValue(fp) as real / Scale(|fp|)
  }

  /** An unsigned decimal: digits with at most one point, at least one digit in all. */
  function ParseUnsigned(t: string): Option<real>
  {
    var k := IndexOf(t, '.');
    var ip := t[..k];
    var fp := if k < |t| then t[k + 1..] else "";
    if AllDigits(ip) && AllDigits(fp) && |ip| + |fp| > 0 then Some(DecimalValue(ip, fp)) else None
  }

  /**
   * `double.TryParse(s, NumberStyles.Any, CultureInfo.InvariantCulture, out v)`
   * on the forms the converter meets: white space around an optionally signed
   * decimal with `.` as the point. The value is the exact decimal.
   */
  function ParseNumber(s: string): Option<real>
  {
    var t := TrimEnd(TrimStart(s));
    if |t| > 0 && (t[0] == '-' || t[0] == '+') then
      match ParseUnsigned(t[1..])
      case None => None
      case Some(v) => Some(if t[0] == '-' then -v else v)
    else
      ParseUnsigned(t)
  }

  /** The digits of `u / 10^d`, then, when `d > 0`, a point and the `d` digits of `u % 10^d`. */
  function FixedDigits(u: nat, d: nat): (s: string)
    ensures 1 <= |s| && AllNumeral(s) && IsDigit(s[0]) && IsDigit(s[|s| - 1])
  {
    var p := Pow10(d);
    DivModNat(u, p);
    var ip := NatToString(u / p);
    if d == 0 then DigitsAreNumeral(ip); ip else NumeralJoin(ip, Digits(u % p, d))
  }

  lemma DigitsAreNumeral(s: string)
    requires AllDigits(s)
    ensures AllNumeral(s)
  {
  }

  /** Digits, a point, digits. */
  function NumeralJoin(ip: string, fp: string): (s: string)
    requires 1 <= |ip| && AllDigits(ip) && 1 <= |fp| && AllDigits(fp)
    ensures s == ip + "." + fp
    ensures 1 <= |s| && AllNumeral(s) && IsDigit(s[0]) && IsDigit(s[|s| - 1])
  {
    var s := ip + "." + fp;
    assert forall i :: 0 <= i < |s| ==> IsNumeral(s[i]) by {
      forall i | 0 <= i < |s| ensures IsNumeral(s[i]) {
        if i < |ip| { assert s[i] == ip[i]; }
        else if i > |ip| { assert s[i] == fp[i - |ip| - 1]; }
      }
    }
    s
  }

  /** `x.ToString("F<d>", CultureInfo.InvariantCulture)`: `x` rounded to `d` decimals, written with exactly `d` of them. */
  function FormatFixed(x: real, d: nat): (s: string)
    ensures 1 <= |s| && AllNumeral(s) && IsDigit(s[|s| - 1])
    ensures IsDigit(s[0]) || s[0] == '-'
  {
    SignedFixed(RoundHalfAway(x * Scale(d)), d)
  }

  /** A signed count `u` of `10^-d` units written with `d` decimals. */
  function SignedFixed(u: int, d: nat): (s: string)
    ensures 1 <= |s| && AllNumeral(s) && IsDigit(s[|s| - 1])
    ensures IsDigit(s[0]) || s[0] == '-'
  {
    if u < 0 then "-" + FixedDigits(Magnitude(u), d) else FixedDigits(u, d)
  }

  /** Trailing zeros removed. */
  function TrimZeros(s: string): (t: string)
    ensures |t| <= |s| && t == s[..|t|]
    ensures |t| > 0 ==> t[|t| - 1] != '0'
  {
    if |s| > 0 && s[|s| - 1] == '0' then TrimZeros(s[..|s| - 1]) else s
  }

  /** Removing trailing zeros divides a digit string's value by ten per zero removed. */
  lemma {:induction false} TrimZerosValue(s: string)
    requires AllDigits(s)
    ensures DigitsValue(s) == DigitsValue(TrimZeros(s)) * Pow10(|s| - |TrimZeros(s)|)
  {
    if |s| > 0 && s[|s| - 1] == '0' {
      var s' := s[..|s| - 1];
      TrimZerosValue(s');
      var t := TrimZeros(s');
      assert TrimZeros(s) == t;
      assert DigitsValue(s) == 10 * DigitsValue(s');
      ShiftPow10(DigitsValue(t), |s'| - |t|);
    }
  }

  lemma ShiftPow10(v: nat, k: nat)
    ensures 10 * (v * Pow10(k)) == v * Pow10(k + 1)
  {
  }

  /** The three-digit thousandths of `0 < f < 1000`, trailing zeros removed, keep at least one digit and their value. */
  lemma ThousandthsFraction(f: nat)
    requires 0 < f < 1000
    ensures var t := TrimZeros(Digits(f, 3));
      1 <= |t| <= 3 && AllDigits(t) && IsDigit(t[|t| - 1]) && DigitsValue(t) * Pow10(3 - |t|) == f
  {
    var s := Digits(f, 3);
    assert Pow10(3) == 1000;
    DigitsValueOfDigits(f, 3);
    TrimZerosValue(s);
  }

  /** The digits of `u / 1000`, then a point and the thousandths without trailing zeros, when any are left. */
  function ThousandthsDigits(u: nat): (s: string)
    ensures 1 <= |s| && AllNumeral(s) && IsDigit(s[0]) && IsDigit(s[|s| - 1])
  {
    var f := u % 1000;
    if f == 0 then NatToString(u / 1000)
    else
      ThousandthsFraction(f);
      NatToString(u / 1000) + "." + TrimZeros(Digits(f, 3))
  }

  /**
   * `FormatBpmToString`: a whole number is written without a fractional part
   * (format "0"); any other value is rounded to three decimals and written
   * without trailing zeros (format "0.###").
   */
  function FormatBpm(b: real): (s: string)
    ensures 1 <= |s| && AllNumeral(s)
  {
    if b.Floor as real == b then IntToString(b.Floor) else SignedThousandths(RoundHalfAway(b * Scale(3)))
  }

  /** A signed count `u` of thousandths written with at most three decimals. */
  function SignedThousandths(u: int): (s: string)
    ensures 1 <= |s| && AllNumeral(s)
  {
    if u < 0 then "-" + ThousandthsDigits(Magnitude(u)) else ThousandthsDigits(u)
  }

  /** `string.Join(sep, parts)`. */
  function Join(parts: seq<string>, sep: char): string
  {
    if |parts| == 0 then "" else if |parts| == 1 then parts[0] else parts[0] + [sep] + Join(parts[1..], sep)
  }

  /** `s.Split(sep)`: the pieces between the separators, empty ones included. */
  function Split(s: string, sep: char): (parts: seq<string>)
    ensures |parts| >= 1
  {
    var k := IndexOf(s, sep);
    if k == |s| then [s] else [s[..k]] + Split(s[k + 1..], sep)
  }

  // ----- Reading rendered numbers back -----

  lemma RealOfProduct(a: int, b: int)
    ensures (a * b) as real == a as real * b as real
  {
  }

  /** `q + r / p` and `u / p` agree when `u = q * p + r`. */
  lemma Recombine(q: real, r: real, u: real, p: real)
    requires 0.0 < p && u == q * p + r
    ensures q + r / p == u / p
  {
    assert u / p == (q * p) / p + r / p;
    QuotientOfProduct(q, p, q * p);
  }

  lemma {:induction false} IndexOfAfter(a: string, b: string, c: char)
    requires forall i :: 0 <= i < |a| ==> a[i] != c
    ensures IndexOf(a + b, c) == |a| + IndexOf(b, c)
  {
    if |a| > 0 {
      assert (a + b)[1..] == a[1..] + b;
      IndexOfAfter(a[1..], b, c);
    } else {
      assert a + b == b;
    }
  }

  /** Neither trim removes anything from a string that starts and ends with a non-blank. */
  lemma NothingToTrim(s: string)
    requires 0 < |s| && !IsWhite(s[0]) && !IsWhite(s[|s| - 1])
    ensures TrimStart(s) == s && TrimEnd(s) == s
  {
  }

  /** A digit string reads as its value. */
  lemma ParseUnsignedWhole(ip: string)
    requires 1 <= |ip| && AllDigits(ip)
    ensures ParseUnsigned(ip) == Some(DigitsValue(ip) as real)
  {
    NoPointInDigits(ip);
    assert ip[..|ip|] == ip;
    assert ParseUnsigned(ip) == Some(DecimalValue(ip, ""));
    DecimalValueWhole(ip);
  }

  lemma NoPointInDigits(s: string)
    requires AllDigits(s)
    ensures IndexOf(s, '.') == |s|
  {
    var k := IndexOf(s, '.');
    assert k < |s| ==> IsDigit(s[k]);
  }

  lemma DecimalValueWhole(ip: string)
    requires AllDigits(ip)
    ensures DecimalValue(ip, "") == DigitsValue(ip) as real
  {
    assert Scale(0) == 1.0;
  }

  /** Digits, a point and digits read as the decimal they spell. */
  lemma ParseUnsignedPoint(ip: string, fp: string)
    requires 1 <= |ip| && AllDigits(ip) && AllDigits(fp)
    ensures ParseUnsigned(ip + "." + fp) == Some(DecimalValue(ip, fp))
  {
    var t := ip + "." + fp;
    IndexOfAfter(ip, "." + fp, '.');
    assert t == ip + ("." + fp);
    assert t[..|ip|] == ip;
    assert t[|ip| + 1..] == fp;
  }

  /** Digits, a point and digits, unsigned, read as the decimal they spell. */
  lemma PointNumberParses(ip: string, fp: string)
    requires 1 <= |ip| && 1 <= |fp| && AllDigits(ip) && AllDigits(fp)
    ensures ParseNumber(ip + "." + fp) == Some(DecimalValue(ip, fp))
  {
    var t := ip + "." + fp;
    ParseUnsignedPoint(ip, fp);
    assert t[0] == ip[0] && t[|t| - 1] == fp[|fp| - 1];
    ParseUnsignedOnly(t);
  }

  /** A leading minus sign negates what follows. */
  lemma ParseNegated(t: string, v: real)
    requires 0 < |t| && IsDigit(t[0]) && IsDigit(t[|t| - 1]) && ParseUnsigned(t) == Some(v)
    ensures ParseNumber("-" + t) == Some(-v)
  {
    var s := "-" + t;
    assert s[0] == '-' && s[1..] == t;
    NothingToTrim(s);
  }

  /** A string that starts and ends with a digit is read exactly as an unsigned decimal. */
  lemma ParseUnsignedOnly(t: string)
    requires 0 < |t| && IsDigit(t[0]) && IsDigit(t[|t| - 1])
    ensures ParseNumber(t) == ParseUnsigned(t)
  {
    NothingToTrim(t);
    assert t[0] != '-' && t[0] != '+';
  }

  /** Reading back `IntToString` gives the integer. */
  lemma ParseIntToString(i: int)
    ensures ParseNumber(IntToString(i)) == Some(i as real)
  {
    hide ParseNumber;
    hide ParseUnsigned;
    hide NatToString;
    var n := Magnitude(i);
    var s := NatToString(n);
    NatToStringValue(n);
    ParseUnsignedWhole(s);
    if i < 0 {
      ParseNegated(s, n as real);
    } else {
      ParseUnsignedOnly(s);
    }
  }

  lemma FixedDigitsValue(u: nat, d: nat)
    ensures ParseUnsigned(FixedDigits(u, d)) == Some(u as real / Scale(d))
  {
    hide *;
    if d == 0 {
      FixedDigitsWhole(u);
    } else {
      FixedDigitsPoint(u, d);
    }
  }

  lemma FixedDigitsWhole(u: nat)
    ensures ParseUnsigned(FixedDigits(u, 0)) == Some(u as real / Scale(0))
  {
    assert Pow10(0) == 1;
    assert FixedDigits(u, 0) == NatToString(u);
    NatToStringValue(u);
    ParseUnsignedWhole(NatToString(u));
    assert Scale(0) == 1.0;
  }

  lemma FixedDigitsPoint(u: nat, d: nat)
    requires d > 0
    ensures ParseUnsigned(FixedDigits(u, d)) == Some(u as real / Scale(d))
  {
    hide *;
    var p := Pow10(d);
    DivModNat(u, p);
    FixedDigitsPointParts(u, d, p, u / p, u % p);
  }

  lemma FixedDigitsPointParts(u: nat, d: nat, p: nat, q: nat, r: nat)
    requires d > 0 && p == Pow10(d) && q == u / p && r == u % p
    ensures ParseUnsigned(FixedDigits(u, d)) == Some(u as real / Scale(d))
  {
    var ip := NatToString(q);
    var fp := Digits(r, d);
    assert FixedDigits(u, d) == ip + "." + fp;
    ParseUnsignedPoint(ip, fp);
    QuotientDigitsValue(u, d, p, q, r, ip, fp);
  }

  /** The digits of quotient and remainder by `p = 10^d`, read as a decimal, give `u / p`. */
  lemma QuotientDigitsValue(u: nat, d: nat, p: nat, q: nat, r: nat, ip: string, fp: string)
    requires p == Pow10(d) && q == u / p && r == u % p
    requires ip == NatToString(q) && fp == Digits(r, d)
    ensures DecimalValue(ip, fp) == u as real / Scale(d)
  {
    NatToStringValue(q);
    DigitsValueOfDigits(r, d);
    DecimalValueOf(ip, fp, q, r, p);
    DivisionSplit(u, p);
  }

  lemma DecimalValueOf(ip: string, fp: string, q: nat, r: nat, p: nat)
    requires AllDigits(ip) && AllDigits(fp)
    requires DigitsValue(ip) == q && DigitsValue(fp) == r && Pow10(|fp|) == p
    ensures DecimalValue(ip, fp) == q as real + r as real / p as real
  {
  }

  /** A whole quotient plus the remainder's fraction is the exact quotient. */
  lemma DivisionSplit(u: nat, p: nat)
    requires p >= 1
    ensures (u / p) as real + (u % p) as real / p as real == u as real / p as real
  {
    var q := u / p;
    var r := u % p;
    assert u == q * p + r;
    RealOfProduct(q, p);
    Recombine(q as real, r as real, u as real, p as real);
  }

  lemma FixedDigitsRead(u: nat, d: nat)
    ensures ParseNumber(FixedDigits(u, d)) == Some(u as real / Scale(d))
    ensures ParseNumber("-" + FixedDigits(u, d)) == Some(-(u as real / Scale(d)))
  {
    hide *;
    FixedDigitsValue(u, d);
    ParseUnsignedOnly(FixedDigits(u, d));
    ParseNegated(FixedDigits(u, d), u as real / Scale(d));
  }

  /** Reading back `FormatFixed(x, d)` gives `x` rounded to `d` decimals. */
  lemma ParseFormatFixed(x: real, d: nat)
    ensures ParseNumber(FormatFixed(x, d)) == Some(RoundTo(x, d))
  {
    hide ParseNumber;
    hide SignedFixed;
    SignedFixedRead(RoundHalfAway(x * Scale(d)), d);
  }

  /** A signed count of `10^-d` units, written with `d` decimals, reads back as its value. */
  lemma SignedFixedRead(u: int, d: nat)
    ensures ParseNumber(SignedFixed(u, d)) == Some(u as real / Scale(d))
  {
    hide ParseNumber;
    hide FixedDigits;
    if u < 0 {
      NegativeFixedRead(u, d);
    } else {
      FixedDigitsRead(u, d);
    }
  }

  lemma NegativeFixedRead(u: int, d: nat)
    requires u < 0
    ensures ParseNumber("-" + FixedDigits(Magnitude(u), d)) == Some(u as real / Scale(d))
  {
    hide *;
    FixedDigitsRead(Magnitude(u), d);
    NegatedMagnitudeQuotient(u, Scale(d));
  }

  lemma ThousandthsValue(u: nat)
    ensures ParseUnsigned(ThousandthsDigits(u)) == Some(u as real / 1000.0)
  {
    hide *;
    ThousandthsParts(u, u / 1000, u % 1000);
  }

  lemma ThousandthsParts(u: nat, q: nat, f: nat)
    requires q == u / 1000 && f == u % 1000
    ensures ParseUnsigned(ThousandthsDigits(u)) == Some(u as real / 1000.0)
  {
    hide ParseUnsigned;
    hide DecimalValue;
    hide NatToString;
    hide TrimZeros;
    NatToStringValue(q);
    if f == 0 {
      ParseUnsignedWhole(NatToString(q));
      DivisionSplit(u, 1000);
    } else {
      ThousandthsFraction(f);
      var t := TrimZeros(Digits(f, 3));
      ParseUnsignedPoint(NatToString(q), t);
      ThousandthsDecimal(NatToString(q), t, q, f);
      DivisionSplit(u, 1000);
    }
  }

  /** Digits `t` of at most three places, standing for `f` thousandths, read after a point as `f / 1000`. */
  lemma ThousandthsDecimal(ip: string, t: string, q: nat, f: nat)
    requires AllDigits(ip) && DigitsValue(ip) == q
    requires 1 <= |t| <= 3 && AllDigits(t) && DigitsValue(t) * Pow10(3 - |t|) == f
    ensures DecimalValue(ip, t) == q as real + f as real / 1000.0
  {
    var v := DigitsValue(t);
    if |t| == 1 {
      assert Pow10(1) == 10 && Pow10(2) == 100;
      assert f == v * 100;
    } else if |t| == 2 {
      assert Pow10(2) == 100 && Pow10(1) == 10;
      assert f == v * 10;
    } else {
      assert Pow10(3) == 1000 && Pow10(0) == 1;
      assert f == v;
    }
  }

  lemma ThousandthsRead(u: nat)
    ensures ParseNumber(ThousandthsDigits(u)) == Some(u as real / 1000.0)
    ensures ParseNumber("-" + ThousandthsDigits(u)) == Some(-(u as real / 1000.0))
  {
    hide *;
    ThousandthsValue(u);
    ParseUnsignedOnly(ThousandthsDigits(u));
    ParseNegated(ThousandthsDigits(u), u as real / 1000.0);
  }

  /** Reading back `FormatBpm(b)` gives `b` rounded to three decimals. */
  lemma ParseFormatBpm(b: real)
    ensures ParseNumber(FormatBpm(b)) == Some(RoundTo(b, 3))
  {
    hide *;
    if b.Floor as real == b {
      WholeBpmRead(b);
    } else {
      FractionalBpmRead(b);
    }
  }

  lemma WholeBpmRead(b: real)
    requires b.Floor as real == b
    ensures ParseNumber(FormatBpm(b)) == Some(RoundTo(b, 3))
  {
    FormatWholeBpm(b);
    assert Scale(3) == 1000.0;
    RoundToExact(b, 3, b.Floor * 1000);
  }

  lemma FractionalBpmRead(b: real)
    requires b.Floor as real != b
    ensures ParseNumber(FormatBpm(b)) == Some(RoundTo(b, 3))
  {
    hide *;
    FractionalBpmText(b);
    RoundToThousandths(b);
    SignedThousandthsRead(RoundHalfAway(b * Scale(3)));
    ReadBack(FormatBpm(b), SignedThousandths(RoundHalfAway(b * Scale(3))), RoundHalfAway(b * Scale(3)) as real / 1000.0, RoundTo(b, 3));
  }

  lemma FractionalBpmText(b: real)
    requires b.Floor as real != b
    ensures FormatBpm(b) == SignedThousandths(RoundHalfAway(b * Scale(3)))
  {
  }

  lemma RoundToThousandths(b: real)
    ensures RoundHalfAway(b * Scale(3)) as real / 1000.0 == RoundTo(b, 3)
  {
    hide RoundHalfAway;
    ScaleThousand();
  }

  /** Equal texts read alike, and a reading of `v` is a reading of any `w` equal to it. */
  lemma ReadBack(x: string, y: string, v: real, w: real)
    requires x == y && ParseNumber(y) == Some(v) && v == w
    ensures ParseNumber(x) == Some(w)
  {
  }

  /** A signed count of thousandths, written without trailing zeros, reads back as its value. */
  lemma SignedThousandthsRead(u: int)
    ensures ParseNumber(SignedThousandths(u)) == Some(u as real / 1000.0)
  {
    hide ParseNumber;
    hide ThousandthsDigits;
    if u < 0 {
      NegativeThousandthsRead(u);
    } else {
      ThousandthsRead(u);
    }
  }

  lemma NegativeThousandthsRead(u: int)
    requires u < 0
    ensures ParseNumber("-" + ThousandthsDigits(Magnitude(u))) == Some(u as real / 1000.0)
  {
    hide *;
    ThousandthsRead(Magnitude(u));
    NegatedMagnitudeQuotient(u, 1000.0);
  }

  /** A whole tempo is written with no fractional part and reads back as itself. */
  lemma FormatWholeBpm(b: real)
    requires b.Floor as real == b
    ensures '.' !in FormatBpm(b)
    ensures ParseNumber(FormatBpm(b)) == Some(b)
  {
    ParseIntToString(b.Floor);
  }

  /** The placeholder that `ParseAndLogEbur128` substitutes for a missing value is not a number. */
  lemma NotAvailableIsNotANumber()
    ensures ParseNumber("N/A") == None
  {
    assert TrimEnd(TrimStart("N/A")) == "N/A";
  }

  /** Splitting a joined list on the separator gives the list back, when no part contains the separator. */
  lemma {:induction false} SplitJoin(parts: seq<string>, sep: char)
    requires |parts| >= 1 && forall i :: 0 <= i < |parts| ==> sep !in parts[i]
    ensures Split(Join(parts, sep), sep) == parts
  {
    hide Split;
    if |parts| == 1 {
      SplitWhole(parts[0], sep);
    } else {
      SplitStep(parts[0], Join(parts[1..], sep), sep);
      SplitJoin(parts[1..], sep);
      assert [parts[0]] + parts[1..] == parts;
    }
  }

  /** A text without the separator splits into itself alone. */
  lemma SplitWhole(s: string, sep: char)
    requires sep !in s
    ensures Split(s, sep) == [s]
  {
  }

  /** The first separator ends the first piece. */
  lemma SplitStep(p: string, rest: string, sep: char)
    requires sep !in p
    ensures Split(p + [sep] + rest, sep) == [p] + Split(rest, sep)
  {
    var s := p + [sep] + rest;
    IndexOfAfter(p, [sep] + rest, sep);
    assert s == p + ([sep] + rest);
    assert s[..|p|] == p && s[|p| + 1..] == rest;
  }


  // ----- The shape of the fixed and tempo formats -----

  /** The sign of a rendered number dropped, if it has one. */
  function Unsigned(s: string): string
  {
    if |s| > 0 && s[0] == '-' then s[1..] else s
  }

  /** Digits, then, when `d > 0`, a point and exactly `d` digits, with at least one digit before the point. */
  predicate ExactDecimals(s: string, d: nat)
  {
    if d == 0 then 1 <= |s| && AllDigits(s)
    else |s| > d + 1 && AllDigits(s[..|s| - d - 1]) && s[|s| - d - 1] == '.' && AllDigits(s[|s| - d..])
  }

  /** Digits, then possibly a point and one to three more digits of which the last is not zero. */
  predicate UpToThreeDecimals(s: string)
  {
    var k := IndexOf(s, '.');
    1 <= k && AllDigits(s[..k]) &&
    (k == |s| || (|s| - 4 <= k < |s| - 1 && AllDigits(s[k + 1..]) && s[|s| - 1] != '0'))
  }

  lemma FixedDigitsShape(u: nat, d: nat)
    ensures ExactDecimals(FixedDigits(u, d), d)
  {
    var p := Pow10(d);
    DivModNat(u, p);
    var ip := NatToString(u / p);
    if d > 0 {
      var fp := Digits(u % p, d);
      var s := ip + "." + fp;
      assert FixedDigits(u, d) == s;
      assert s[..|s| - d - 1] == ip && s[|s| - d..] == fp;
    }
  }

  /** `F<d>` writes an optional minus sign, at least one digit, and then, when `d > 0`, a point and exactly `d` digits. */
  lemma FormatFixedDecimals(x: real, d: nat)
    ensures ExactDecimals(Unsigned(FormatFixed(x, d)), d)
  {
    var u := RoundHalfAway(x * Scale(d));
    if u < 0 {
      var t := FixedDigits(Magnitude(u), d);
      assert FormatFixed(x, d) == "-" + t;
      assert ("-" + t)[1..] == t;
      FixedDigitsShape(Magnitude(u), d);
    } else {
      FixedDigitsShape(u, d);
    }
  }

  lemma ThousandthsShape(u: nat)
    ensures UpToThreeDecimals(ThousandthsDigits(u))
  {
    var f := u % 1000;
    var ip := NatToString(u / 1000);
    if f == 0 {
      NoPointInDigits(ip);
      assert ip[..|ip|] == ip;
    } else {
      ThousandthsFraction(f);
      var t := TrimZeros(Digits(f, 3));
      assert ThousandthsDigits(u) == ip + "." + t;
      PointedShape(ip, t);
    }
  }

  /** Digits, a point and one to three digits not ending in 0 have the tempo shape. */
  lemma PointedShape(ip: string, t: string)
    requires 1 <= |ip| && AllDigits(ip)
    requires 1 <= |t| <= 3 && AllDigits(t) && t[|t| - 1] != '0'
    ensures UpToThreeDecimals(ip + "." + t)
  {
    var s := ip + "." + t;
    IndexOfAfter(ip, "." + t, '.');
    assert s == ip + ("." + t);
    assert s[..|ip|] == ip && s[|ip| + 1..] == t;
    assert s[|s| - 1] == t[|t| - 1];
  }

  /** `FormatBpmToString` writes an optional minus sign, at least one digit, and at most three decimals without a trailing zero. */
  lemma FormatBpmDecimals(b: real)
    ensures UpToThreeDecimals(Unsigned(FormatBpm(b)))
  {
    if b.Floor as real == b {
      var i := b.Floor;
      var t := NatToString(Magnitude(i));
      NoPointInDigits(t);
      assert t[..|t|] == t;
      if i < 0 {
        assert ("-" + t)[1..] == t;
      } else {
        assert Magnitude(i) == i;
      }
    } else {
      var u := RoundHalfAway(b * Scale(3));
      if u < 0 {
        var t := ThousandthsDigits(Magnitude(u));
        assert ("-" + t)[1..] == t;
        ThousandthsShape(Magnitude(u));
      } else {
        ThousandthsShape(u);
      }
    }
  }

  /** A whole tempo is written as an integer. */
  lemma WholeBpmExample()
    ensures FormatBpm(128.0) == "128"
  {
    hide FormatBpm;
    WholeBpmText(128.0);
    assert NatToString(1) == "1";
    assert NatToString(12) == "12";
    assert NatToString(128) == "128";
  }

  lemma WholeBpmText(b: real)
    requires b.Floor as real == b
    ensures FormatBpm(b) == IntToString(b.Floor)
  {
  }

  /** A tempo with one decimal keeps exactly that decimal. */
  lemma HalfBpmExample()
    ensures FormatBpm(120.5) == "120.5"
  {
    ScaleThousand();
    assert RoundHalfAway(120.5 * Scale(3)) == 120500;
    assert FormatBpm(120.5) == ThousandthsDigits(120500);
    ThousandthsText(120500, "120", "500", "5");
  }

  /** A tempo with more than three decimals is rounded to three. */
  lemma RoundedBpmExample()
    ensures FormatBpm(99.12345) == "99.123"
  {
    ScaleThousand();
    assert RoundHalfAway(99.12345 * Scale(3)) == 99123;
    assert FormatBpm(99.12345) == ThousandthsDigits(99123);
    ThousandthsText(99123, "99", "123", "123");
  }

  lemma ThousandthsText(u: nat, ip: string, fp: string, t: string)
    requires u % 1000 != 0 && NatToString(u / 1000) == ip && Digits(u % 1000, 3) == fp && TrimZeros(fp) == t
    ensures ThousandthsDigits(u) == ip + "." + t
  {
  }
}
