/**
 The type of a new column that's guessed from a sample of its values, when they are numbers.
 */
module GuessType {
  predicate IsDigit(c: char) {
    '0' <= c <= '9'
  }

  predicate IsDigits(s: string) {
    forall i | 0 <= i < |s| :: IsDigit(s[i])
  }

  // No leading zero.
  predicate IsWhole(s: string) {
    s == "0" || (s != "" && s[0] != '0' && IsDigits(s))
  }

  function Unsigned(s: string): string {
    if s != "" && s[0] == '-' then s[1..] else s
  }

  predicate IsInteger(s: string) {
    IsWhole(Unsigned(s))
  }

  // The place of the decimal point, or the length.
  function Point(s: string): (k: nat)
    ensures k <= |s| && (k < |s| ==> s[k] == '.')
    ensures forall i | 0 <= i < k :: s[i] != '.'
  {
    if s == "" || s[0] == '.' then 0 else 1 + Point(s[1..])
  }

  // The digits before and after the decimal point.
  function WholePart(s: string): string {
    Unsigned(s)[..Point(Unsigned(s))]
  }

  function FractionPart(s: string): string {
    var u := Unsigned(s);
    if Point(u) == |u| then "" else u[Point(u) + 1..]
  }

  predicate IsDecimal(s: string) {
    && Point(Unsigned(s)) < |Unsigned(s)|
    && IsWhole(WholePart(s)) && FractionPart(s) != "" && IsDigits(FractionPart(s))
  }

  // The order of strings with the same length.
  predicate NotAfter(s: string, t: string)
    requires |s| == |t|
  {
    s == "" || s[0] < t[0] || (s[0] == t[0] && NotAfter(s[1..], t[1..]))
  }

  predicate Fits(s: string, max: string) {
    var digits := Unsigned(s);
    |digits| < |max| || (|digits| == |max| && NotAfter(digits, max))
  }

  const MAX_INTEGER := "2147483647"
  const MAX_BIGINT := "9223372036854775807"
  const MAX_PRECISION: nat := 38

  function Longest(values: seq<string>, least: nat): (n: nat)
    ensures n >= least && forall v | v in values :: |v| <= n
    ensures n == least || exists v :: v in values && |v| == n
  {
    if values == [] then least
    else
      var rest := Longest(values[1..], least);
      if |values[0]| > rest then |values[0]| else rest
  }

  function Wholes(values: seq<string>): seq<string> {
    seq(|values|, i requires 0 <= i < |values| => WholePart(values[i]))
  }

  function Fractions(values: seq<string>): seq<string> {
    seq(|values|, i requires 0 <= i < |values| => FractionPart(values[i]))
  }

  datatype Guess = IntegerType | BigIntType | DecimalType(precision: nat, scale: nat) | OtherType

  // The type for values that aren't strings or booleans (in JSON).
  function GuessNumber(values: seq<string>): Guess {
    if values == [] then OtherType
    else if forall v | v in values :: IsInteger(v) && Fits(v, MAX_INTEGER) then IntegerType
    else if forall v | v in values :: IsInteger(v) && Fits(v, MAX_BIGINT) then BigIntType
    else if forall v | v in values :: IsInteger(v) || IsDecimal(v) then
      var whole, scale := Longest(Wholes(values), 1), Longest(Fractions(values), 0);
      if whole + scale <= MAX_PRECISION then DecimalType(whole + scale, scale) else OtherType
    else OtherType
  }

  function Power(n: nat): (r: nat)
    ensures r >= 1
  {
    if n == 0 then 1 else 10 * Power(n - 1)
  }

  function Digit(c: char): nat
    requires IsDigit(c)
  {
    c as int - '0' as int
  }

  // The number that digits are.
  function Number(s: string): nat
    requires IsDigits(s)
  {
    if s == "" then 0 else 10 * Number(s[..|s| - 1]) + Digit(s[|s| - 1])
  }

  lemma {:induction false} NumberBelow(s: string)
    requires IsDigits(s)
    ensures Number(s) < Power(|s|)
  {
    if s != "" {
      NumberBelow(s[..|s| - 1]);
    }
  }

  lemma {:induction false} NumberAtLeast(s: string)
    requires IsDigits(s) && s != "" && s[0] != '0'
    ensures Number(s) >= Power(|s| - 1)
  {
    if |s| > 1 {
      NumberAtLeast(s[..|s| - 1]);
    } else {
      assert Digit(s[0]) >= 1 && Power(0) == 1;
    }
  }

  lemma {:induction false} PowerGrows(m: nat, n: nat)
    requires m <= n
    ensures Power(m) <= Power(n)
  {
    if m < n {
      PowerGrows(m, n - 1);
    }
  }

  lemma {:induction false} NotAfterLast(s: string, t: string)
    requires |s| == |t| > 0
    ensures var n := |s| - 1;
      NotAfter(s, t) <==> NotAfter(s[..n], t[..n]) && (s[..n] == t[..n] ==> s[n] <= t[n])
  {
    if |s| > 1 {
      var n := |s| - 1;
      NotAfterLast(s[1..], t[1..]);
      assert s[1..][..n - 1] == s[..n][1..] && t[1..][..n - 1] == t[..n][1..];
      assert s[..n] == [s[0]] + s[..n][1..] && t[..n] == [t[0]] + t[..n][1..];
    } else {
      assert s[1..] == "" && t[1..] == "" && s[..0] == t[..0];
    }
  }

  lemma SameDigits(a: nat, d: nat, b: nat, e: nat)
    requires 10 * a + d == 10 * b + e && d < 10 && e < 10
    ensures a == b && d == e
  {
  }

  lemma {:induction false} NumberSame(s: string, t: string)
    requires |s| == |t| && IsDigits(s) && IsDigits(t) && Number(s) == Number(t)
    ensures s == t
  {
    if s != "" {
      var n := |s| - 1;
      SameDigits(Number(s[..n]), Digit(s[n]), Number(t[..n]), Digit(t[n]));
      NumberSame(s[..n], t[..n]);
      assert s == s[..n] + [s[n]] && t == t[..n] + [t[n]];
    }
  }

  lemma {:induction false} NotAfterIff(s: string, t: string)
    requires |s| == |t| && IsDigits(s) && IsDigits(t)
    ensures NotAfter(s, t) <==> Number(s) <= Number(t)
  {
    if s != "" {
      var n := |s| - 1;
      NotAfterLast(s, t);
      NotAfterIff(s[..n], t[..n]);
      if Number(s[..n]) == Number(t[..n]) {
        NumberSame(s[..n], t[..n]);
      }
    }
  }

  // The order of the strings is the order of the numbers.
  lemma FitsIff(s: string, max: string)
    requires IsInteger(s) && IsWhole(max) && max != "0"
    ensures Fits(s, max) <==> Number(Unsigned(s)) <= Number(max)
  {
    var digits := Unsigned(s);
    NumberAtLeast(max);
    if |digits| < |max| {
      NumberBelow(digits);
      PowerGrows(|digits|, |max| - 1);
    } else if |digits| == |max| {
      NotAfterIff(digits, max);
    } else {
      NumberAtLeast(digits);
      NumberBelow(max);
      PowerGrows(|max|, |digits| - 1);
    }
  }

  lemma NumberTo(s: string, n: nat, before: nat)
    requires IsDigits(s) && n < |s| && Number(s[..n]) == before
    ensures Number(s[..n + 1]) == 10 * before + Digit(s[n])
  {
    assert s[..n + 1][..n] == s[..n];
  }

  lemma NumberNone(s: string)
    requires IsDigits(s)
    ensures Number(s[..0]) == 0 && s[..|s|] == s
  {
  }

  lemma MaxIsWhole()
    ensures IsWhole(MAX_INTEGER) && IsWhole(MAX_BIGINT) && |MAX_INTEGER| == 10 && |MAX_BIGINT| == 19
  {
  }

  lemma MaxInteger()
    ensures IsWhole(MAX_INTEGER) && Number(MAX_INTEGER) == 0x7FFF_FFFF
  {
    hide Number, IsDigits;
    MaxIsWhole();
    var s := MAX_INTEGER;
    NumberNone(s);
    NumberTo(s, 0, 0);
    NumberTo(s, 1, 2);
    NumberTo(s, 2, 21);
    NumberTo(s, 3, 214);
    NumberTo(s, 4, 2147);
    NumberTo(s, 5, 21474);
    NumberTo(s, 6, 214748);
    NumberTo(s, 7, 2147483);
    NumberTo(s, 8, 21474836);
    NumberTo(s, 9, 214748364);
  }

  lemma MaxBigInt()
    ensures IsWhole(MAX_BIGINT) && Number(MAX_BIGINT) == 0x7FFF_FFFF_FFFF_FFFF
  {
    hide Number, IsDigits;
    MaxIsWhole();
    var s := MAX_BIGINT;
    NumberNone(s);
    NumberTo(s, 0, 0);
    NumberTo(s, 1, 9);
    NumberTo(s, 2, 92);
    NumberTo(s, 3, 922);
    NumberTo(s, 4, 9223);
    NumberTo(s, 5, 92233);
    NumberTo(s, 6, 922337);
    NumberTo(s, 7, 9223372);
    NumberTo(s, 8, 92233720);
    NumberTo(s, 9, 922337203);
    NumberTo(s, 10, 9223372036);
    NumberTo(s, 11, 92233720368);
    NumberTo(s, 12, 922337203685);
    NumberTo(s, 13, 9223372036854);
    NumberTo(s, 14, 92233720368547);
    NumberTo(s, 15, 922337203685477);
    NumberTo(s, 16, 9223372036854775);
    NumberTo(s, 17, 92233720368547758);
    NumberTo(s, 18, 922337203685477580);
  }

  // The value of an integer or a decimal: its digits, divided by a power of 10.
  function Unscaled(s: string): int
    requires IsDigits(WholePart(s)) && IsDigits(FractionPart(s))
  {
    var n: int := Number(WholePart(s) + FractionPart(s));
    if s != "" && s[0] == '-' then -n else n
  }

  function Value(s: string): real
    requires IsDigits(WholePart(s)) && IsDigits(FractionPart(s))
  {
    Unscaled(s) as real / Power(|FractionPart(s)|) as real
  }

  lemma IntegerParts(s: string)
    requires IsInteger(s)
    ensures WholePart(s) == Unsigned(s) && FractionPart(s) == ""
    ensures Value(s) == Unscaled(s) as real
  {
    var u := Unsigned(s);
    assert Point(u) == |u|;
    assert Power(0) == 1;
  }

  // The text of a number.
  function Signed(negative: bool, whole: string, fraction: string): string {
    (if negative then "-" else "") + whole + (if fraction == "" then "" else "." + fraction)
  }

  predicate HasNoLeadingZero(whole: string) {
    whole != "" && IsDigits(whole) && (|whole| > 1 ==> whole[0] != '0')
  }

  lemma PointIs(s: string, k: nat)
    requires k <= |s| && (k < |s| ==> s[k] == '.') && forall i | 0 <= i < k :: s[i] != '.'
    ensures Point(s) == k
  {
  }

  lemma UnsignedOf(negative: bool, whole: string, fraction: string)
    requires HasNoLeadingZero(whole)
    ensures Unsigned(Signed(negative, whole, fraction)) == Signed(false, whole, fraction)
    ensures Signed(negative, whole, fraction)[0] == '-' <==> negative
  {
    var s, u := Signed(negative, whole, fraction), Signed(false, whole, fraction);
    assert "" + whole == whole && whole[0] != '-';
    if negative {
      assert s == "-" + u && s[1..] == u;
    }
  }

  lemma PartsOf(negative: bool, whole: string, fraction: string)
    requires HasNoLeadingZero(whole)
    ensures var s := Signed(negative, whole, fraction);
      WholePart(s) == whole && FractionPart(s) == fraction && (Point(Unsigned(s)) < |Unsigned(s)| <==> fraction != "")
  {
    var u := Signed(false, whole, fraction);
    UnsignedOf(negative, whole, fraction);
    assert u[..|whole|] == whole;
    PointIs(u, |whole|);
    if fraction != "" {
      assert u[|whole| + 1..] == fraction;
    }
  }

  // What such a text is: its parts, and its number.
  lemma SignedIs(negative: bool, whole: string, fraction: string)
    requires HasNoLeadingZero(whole) && IsDigits(fraction)
    ensures var s := Signed(negative, whole, fraction);
      && (IsInteger(s) <==> fraction == "") && (IsDecimal(s) <==> fraction != "")
      && WholePart(s) == whole && FractionPart(s) == fraction && IsDigits(whole + fraction)
      && var n: int := Number(whole + fraction); Unscaled(s) == if negative then -n else n
  {
    var u := Signed(false, whole, fraction);
    UnsignedOf(negative, whole, fraction);
    PartsOf(negative, whole, fraction);
    assert |whole| == 1 && whole[0] == '0' ==> whole == "0";
    if fraction == "" {
      assert u == whole;
    } else {
      assert u[|whole|] == '.' && !IsDigits(u) && u != "0";
    }
    hide Number, Point, Unsigned;
  }

  lemma SplitAt(u: string, k: nat, c: string)
    requires k < |u| && |c| == 1 && c[0] == u[k]
    ensures u == u[..k] + (c + u[k + 1..])
  {
    assert u == u[..k] + u[k..];
    assert u[k..] == c + u[k + 1..];
  }

  lemma SplitAtPoint(u: string)
    requires Point(u) < |u|
    ensures u == u[..Point(u)] + ("." + u[Point(u) + 1..])
  {
    SplitAt(u, Point(u), ".");
    hide Point;
  }

  lemma UnsignedPart(s: string)
    requires s != ""
    ensures s == (if s[0] == '-' then "-" else "") + Unsigned(s)
  {
  }

  lemma Joined(a: string, b: string, c: string)
    ensures a + (b + c) == a + b + c
  {
  }

  lemma PartsAreDigits(s: string)
    requires IsInteger(s) || IsDecimal(s)
    ensures s != "" && HasNoLeadingZero(WholePart(s)) && IsDigits(FractionPart(s))
    ensures if Point(Unsigned(s)) == |Unsigned(s)| then IsInteger(s) else FractionPart(s) != ""
  {
    if IsInteger(s) {
      IntegerParts(s);
      hide Point;
    } else {
      hide Point, Unsigned, FractionPart, WholePart, IsInteger;
    }
  }

  lemma PartsJoined(s: string)
    ensures Unsigned(s) == WholePart(s) + if Point(Unsigned(s)) == |Unsigned(s)| then "" else "." + FractionPart(s)
  {
    var u := Unsigned(s);
    if Point(u) < |u| {
      SplitAtPoint(u);
    } else {
      assert u[..|u|] == u && u + "" == u;
    }
    hide Point, Unsigned;
  }

  // Every number has such a text.
  lemma IsSigned(s: string)
    requires IsInteger(s) || IsDecimal(s)
    ensures HasNoLeadingZero(WholePart(s)) && IsDigits(FractionPart(s))
    ensures s == Signed(s[0] == '-', WholePart(s), FractionPart(s))
  {
    PartsAreDigits(s);
    PartsJoined(s);
    UnsignedPart(s);
    if Point(Unsigned(s)) == |Unsigned(s)| {
      IntegerParts(s);
    }
    hide Point, Unsigned, WholePart, FractionPart, IsInteger, IsDecimal, IsWhole, IsDigits, HasNoLeadingZero;
    Joined(if s[0] == '-' then "-" else "", WholePart(s), if FractionPart(s) == "" then "" else "." + FractionPart(s));
  }

  lemma NumericParts(v: string)
    requires IsInteger(v) || IsDecimal(v)
    ensures IsDigits(WholePart(v)) && IsDigits(FractionPart(v))
  {
    if IsInteger(v) {
      IntegerParts(v);
    }
  }

  function Zeros(n: nat): string {
    seq(n, _ => '0')
  }

  lemma NumberZero(s: string)
    requires IsDigits(s)
    ensures IsDigits(s + "0") && Number(s + "0") == 10 * Number(s)
  {
    assert (s + "0")[..|s|] == s;
  }

  lemma MoreZeros(s: string, n: nat)
    ensures s + Zeros(n + 1) == s + Zeros(n) + "0" && s + Zeros(0) == s
  {
  }

  lemma {:induction false} NumberZeros(s: string, n: nat)
    requires IsDigits(s)
    ensures IsDigits(s + Zeros(n)) && Number(s + Zeros(n)) == Number(s) * Power(n)
  {
    hide Zeros, Number, IsDigits;
    if n == 0 {
      MoreZeros(s, 0);
    } else {
      NumberZeros(s, n - 1);
      MoreZeros(s, n - 1);
      NumberZero(s + Zeros(n - 1));
      TenTimes(Number(s), Power(n - 1));
    }
  }

  lemma TenTimes(a: nat, b: nat)
    ensures 10 * (a * b) == a * (10 * b)
  {
  }

  lemma {:induction false} PowerAdd(m: nat, n: nat)
    ensures Power(m + n) == Power(m) * Power(n)
  {
    if n > 0 {
      PowerAdd(m, n - 1);
      TenTimes(Power(m), Power(n - 1));
    }
  }

  // A number has the type DECIMAL(precision, scale) without being rounded.
  ghost predicate IsDecimalValue(v: real, precision: nat, scale: nat) {
    exists n: int :: IsScaled(v, n, precision, scale)
  }

  ghost predicate IsScaled(v: real, n: int, precision: nat, scale: nat) {
    v * Power(scale) as real == n as real && 0 < n + Power(precision) && n < Power(precision)
  }

  lemma Cancel(a: real, b: real, c: real)
    requires b != 0.0
    ensures a / b * (b * c) == a * c
  {
    var q := a / b;
    assert q * b == a;
    assert q * (b * c) == q * b * c;
  }

  lemma ScaleReal(n: int, k: nat, m: nat)
    ensures n as real / Power(k) as real * Power(k + m) as real == (n * Power(m)) as real
  {
    PowerAdd(k, m);
    Cancel(n as real, Power(k) as real, Power(m) as real);
  }

  // The digits with zeros up to the scale.
  lemma UnscaledBelow(v: string, m: nat, n: nat)
    requires IsDigits(WholePart(v)) && IsDigits(FractionPart(v))
    requires |WholePart(v)| + |FractionPart(v)| + m <= n
    ensures 0 < Unscaled(v) * Power(m) + Power(n) && Unscaled(v) * Power(m) < Power(n)
  {
    var digits := WholePart(v) + FractionPart(v);
    hide WholePart, FractionPart, Number, Power;
    NumberZeros(digits, m);
    NumberBelow(digits + Zeros(m));
    PowerGrows(|digits| + m, n);
    var d := Number(digits);
    assert Unscaled(v) == d || Unscaled(v) == -d;
    assert -d * Power(m) == -(d * Power(m));
    assert d * Power(m) >= 0;
  }

  lemma FitsDecimal(v: string, whole: nat, scale: nat)
    requires IsDigits(WholePart(v)) && IsDigits(FractionPart(v))
    requires |WholePart(v)| <= whole && |FractionPart(v)| <= scale
    ensures IsDecimalValue(Value(v), whole + scale, scale)
  {
    hide WholePart, FractionPart, Number, Power, Unscaled;
    var k := |FractionPart(v)|;
    ScaleReal(Unscaled(v), k, scale - k);
    UnscaledBelow(v, scale - k, whole + scale);
    assert IsScaled(Value(v), Unscaled(v) * Power(scale - k), whole + scale, scale);
  }

  lemma PartsFit(values: seq<string>, v: string)
    requires v in values
    ensures |WholePart(v)| <= Longest(Wholes(values), 1) && |FractionPart(v)| <= Longest(Fractions(values), 0)
  {
    var i :| 0 <= i < |values| && values[i] == v;
    assert Wholes(values)[i] in Wholes(values) && Fractions(values)[i] in Fractions(values);
  }

  lemma DecimalHolds(values: seq<string>, v: string)
    requires v in values && (IsInteger(v) || IsDecimal(v))
    ensures var whole, scale := Longest(Wholes(values), 1), Longest(Fractions(values), 0);
      IsDigits(WholePart(v)) && IsDigits(FractionPart(v)) && IsDecimalValue(Value(v), whole + scale, scale)
  {
    hide IsDecimalValue, Value, WholePart, FractionPart, IsInteger, IsDecimal, Longest;
    NumericParts(v);
    PartsFit(values, v);
    FitsDecimal(v, Longest(Wholes(values), 1), Longest(Fractions(values), 0));
  }

  // An integer, with its value between -limit and limit.
  ghost predicate IsIntegerBelow(v: string, limit: nat) {
    IsInteger(v) && IsDigits(WholePart(v)) && IsDigits(FractionPart(v))
    && Value(v) == Unscaled(v) as real && 0 < Unscaled(v) + limit && Unscaled(v) < limit
  }

  lemma FitsInteger(v: string)
    requires IsInteger(v)
    ensures Fits(v, MAX_INTEGER) <==> IsIntegerBelow(v, 0x8000_0000)
    ensures Fits(v, MAX_BIGINT) <==> IsIntegerBelow(v, 0x8000_0000_0000_0000)
  {
    hide Number, Fits, Value;
    IntegerParts(v);
    MaxIsWhole();
    MaxInteger();
    MaxBigInt();
    FitsIff(v, MAX_INTEGER);
    FitsIff(v, MAX_BIGINT);
    assert Unsigned(v) + "" == Unsigned(v);
  }

  // INTEGER is guessed exactly when every value is one (other than the least one), and otherwise
  // BIGINT when every value is one.
  lemma GuessIntegerIff(values: seq<string>)
    ensures GuessNumber(values).IntegerType? <==>
            values != [] && forall v | v in values :: IsIntegerBelow(v, 0x8000_0000)
    ensures GuessNumber(values).BigIntType? <==>
            && values != [] && !GuessNumber(values).IntegerType?
            && forall v | v in values :: IsIntegerBelow(v, 0x8000_0000_0000_0000)
  {
    hide Fits, Longest, IsInteger;
    forall v | v in values
      ensures IsInteger(v) && Fits(v, MAX_INTEGER) <==> IsIntegerBelow(v, 0x8000_0000)
      ensures IsInteger(v) && Fits(v, MAX_BIGINT) <==> IsIntegerBelow(v, 0x8000_0000_0000_0000)
    {
      if IsInteger(v) {
        FitsInteger(v);
      }
    }
  }

  // DECIMAL is guessed for any other numbers, unless they have too many digits.
  lemma GuessDecimalIff(values: seq<string>)
    ensures var g := GuessNumber(values); var scale := Longest(Fractions(values), 0);
      && (g.DecimalType? <==> values != [] && !g.IntegerType? && !g.BigIntType?
                              && (forall v | v in values :: IsInteger(v) || IsDecimal(v))
                              && Longest(Wholes(values), 1) + scale <= 38)
      && (g.DecimalType? ==> g.scale == scale && g.precision == Longest(Wholes(values), 1) + scale)
  {
    hide IsInteger, IsDecimal, Fits, Wholes, Fractions, Longest;
  }

  // Every value of the sample is a value of the DECIMAL that is guessed, without being rounded.
  lemma GuessDecimalHoldsAll(values: seq<string>)
    ensures var g := GuessNumber(values);
      g.DecimalType? ==>
        && g.scale < g.precision <= 38
        && forall v | v in values ::
             IsDigits(WholePart(v)) && IsDigits(FractionPart(v)) && IsDecimalValue(Value(v), g.precision, g.scale)
  {
    hide GuessNumber, IsDecimalValue, Value, WholePart, FractionPart, IsInteger, IsDecimal, IsDigits;
    GuessDecimalIff(values);
    var g := GuessNumber(values);
    if g.DecimalType? {
      forall v | v in values
        ensures IsDigits(WholePart(v)) && IsDigits(FractionPart(v)) && IsDecimalValue(Value(v), g.precision, g.scale)
      {
        DecimalHolds(values, v);
      }
    }
  }

  // Every value is one of the DECIMAL, without being rounded.
  ghost predicate HoldsAll(values: seq<string>, precision: nat, scale: nat) {
    forall v | v in values ::
      IsDigits(WholePart(v)) && IsDigits(FractionPart(v)) && IsDecimalValue(Value(v), precision, scale)
  }

  // The last digit of a fraction of that many digits isn't 0 (zero).
  predicate EndsAt(v: string, scale: nat) {
    |FractionPart(v)| == scale > 0 && FractionPart(v)[scale - 1] != '0'
  }

  lemma CrossMultiply(u: int, n: int, p: nat, q: nat)
    requires p > 0 && u as real / p as real * q as real == n as real
    ensures u * q == n * p
  {
    var a, b, c := u as real, p as real, q as real;
    var r := a / b;
    assert r * b == a;
    assert r * c * b == r * b * c;
    RealTimes(u, q);
    RealTimes(n, p);
  }

  lemma RealTimes(x: int, y: int)
    ensures (x * y) as real == x as real * y as real
  {
  }

  lemma CancelPower(u: int, n: int, p: nat, q: nat)
    requires u * p == n * (p * q) && p > 0
    ensures u == n * q
  {
    assert n * (p * q) == (n * q) * p;
    assert (u - n * q) * p == 0;
  }

  // The digits as they are scaled.
  lemma ScaledDigits(v: string, precision: nat, scale: nat) returns (n: int)
    requires IsDigits(WholePart(v)) && IsDigits(FractionPart(v)) && IsDecimalValue(Value(v), precision, scale)
    ensures Unscaled(v) * Power(scale) == n * Power(|FractionPart(v)|)
    ensures 0 < n + Power(precision) && n < Power(precision)
  {
    hide WholePart, FractionPart, Unscaled, Number, Power, IsDigits, Value, IsScaled;
    n :| IsScaled(Value(v), n, precision, scale);
    ScaledValue(v, n, precision, scale);
    ScaledBelow(Value(v), n, precision, scale);
  }

  lemma ScaledValue(v: string, n: int, precision: nat, scale: nat)
    requires IsDigits(WholePart(v)) && IsDigits(FractionPart(v)) && IsScaled(Value(v), n, precision, scale)
    ensures Unscaled(v) * Power(scale) == n * Power(|FractionPart(v)|)
  {
    hide WholePart, FractionPart, Unscaled, Number, Power, IsDigits, Value, IsScaled;
    ScaledQuotient(v, n, precision, scale);
    CrossMultiply(Unscaled(v), n, Power(|FractionPart(v)|), Power(scale));
  }

  lemma ScaledBelow(v: real, n: int, precision: nat, scale: nat)
    requires IsScaled(v, n, precision, scale)
    ensures 0 < n + Power(precision) && n < Power(precision)
  {
    hide Power;
  }

  lemma ScaledQuotient(v: string, n: int, precision: nat, scale: nat)
    requires IsDigits(WholePart(v)) && IsDigits(FractionPart(v)) && IsScaled(Value(v), n, precision, scale)
    ensures Unscaled(v) as real / Power(|FractionPart(v)|) as real * Power(scale) as real == n as real
  {
    hide WholePart, FractionPart, Unscaled, Number, Power, IsDigits;
  }

  lemma LastDigit(v: string)
    requires IsDigits(WholePart(v)) && IsDigits(FractionPart(v)) && FractionPart(v) != ""
    ensures var f := FractionPart(v); var digits := WholePart(v) + f[..|f| - 1];
      && IsDigits(digits) && IsDigit(f[|f| - 1])
      && (Unscaled(v) == 10 * Number(digits) + Digit(f[|f| - 1])
        || Unscaled(v) == -(10 * Number(digits) + Digit(f[|f| - 1])))
  {
    var f := FractionPart(v);
    var all := WholePart(v) + f;
    assert all[..|all| - 1] == WholePart(v) + f[..|f| - 1] && all[|all| - 1] == f[|f| - 1];
    hide WholePart, FractionPart;
  }

  lemma TimesTen(n: int, m: int, d: nat, u: int)
    requires d < 10 && u == 10 * n && (u == 10 * m + d || u == -(10 * m + d))
    ensures d == 0
  {
  }

  lemma PowerTen(n: int, d: nat)
    requires d > 0
    ensures n * Power(d) == 10 * (n * Power(d - 1))
  {
  }

  // A value needs all of its scale if it doesn't end in 0 (zero).
  lemma NeedsScale(v: string, k: nat, precision: nat, scale: nat)
    requires IsDigits(WholePart(v)) && IsDigits(FractionPart(v)) && EndsAt(v, k)
    requires IsDecimalValue(Value(v), precision, scale)
    ensures k <= scale
  {
    if scale < k {
      hide WholePart, FractionPart, Unscaled, Number, Power, IsDigits, IsDecimalValue, Value;
      var n := ScaledDigits(v, precision, scale);
      LastDigit(v);
      var f := FractionPart(v);
      PowerAdd(scale, k - scale);
      CancelPower(Unscaled(v), n, Power(scale), Power(k - scale));
      PowerTen(n, k - scale);
      TimesTen(n * Power(k - scale - 1), Number(WholePart(v) + f[..k - 1]), Digit(f[k - 1]), Unscaled(v));
    }
  }

  // A value that ends in 0 (zero) doesn't need all of its scale.
  lemma FitsShorter(v: string, whole: nat, k: nat)
    requires IsDigits(WholePart(v)) && IsDigits(FractionPart(v)) && |WholePart(v)| <= whole
    requires k > 0 && |FractionPart(v)| == k && FractionPart(v)[k - 1] == '0'
    ensures IsDecimalValue(Value(v), whole + k - 1, k - 1)
  {
    hide WholePart, FractionPart, Unscaled, Number, Power, IsDigits;
    LastDigit(v);
    var digits := WholePart(v) + FractionPart(v)[..k - 1];
    NumberBelow(digits);
    PowerGrows(|digits|, whole + k - 1);
    var m: int := Number(digits);
    var n := if Unscaled(v) == 10 * m then m else -m;
    TenthScaled(n, k);
    assert IsScaled(Value(v), n, whole + k - 1, k - 1);
  }

  lemma TenthScaled(n: int, k: nat)
    requires k > 0
    ensures (10 * n) as real / Power(k) as real * Power(k - 1) as real == n as real
  {
    var p := Power(k - 1) as real;
    var q := n as real / p;
    assert q * p == n as real;
    assert Power(k) as real == 10.0 * p;
    assert q * (10.0 * p) == 10.0 * (q * p) == (10 * n) as real;
    assert (10 * n) as real / (10.0 * p) == q;
  }

  // The scale is the least one for the values exactly if one of them needs all of it.
  lemma ScaleIsLeastIff(values: seq<string>)
    ensures var g := GuessNumber(values);
      g.DecimalType? ==>
        ((forall p: nat, s: nat | HoldsAll(values, p, s) :: g.scale <= s)
         <==> g.scale == 0 || exists v :: v in values && EndsAt(v, g.scale))
  {
    var g := GuessNumber(values);
    if g.DecimalType? {
      GuessDecimalIff(values);
      hide GuessNumber;
      if v :| v in values && EndsAt(v, g.scale) {
        forall p: nat, s: nat | HoldsAll(values, p, s) ensures g.scale <= s {
          NeedsScale(v, g.scale, p, s);
        }
      } else if g.scale > 0 {
        ShorterHoldsAll(values, Longest(Wholes(values), 1), g.scale);
      }
    }
  }

  lemma ShorterHoldsAll(values: seq<string>, whole: nat, scale: nat)
    requires forall v | v in values :: IsInteger(v) || IsDecimal(v)
    requires whole == Longest(Wholes(values), 1) && scale == Longest(Fractions(values), 0) > 0
    requires forall v | v in values :: !EndsAt(v, scale)
    ensures HoldsAll(values, whole + scale - 1, scale - 1)
  {
    hide WholePart, FractionPart, IsDecimalValue, Value, Longest, Wholes, Fractions, IsInteger, IsDecimal, IsDigits,
      EndsAt;
    forall v | v in values
      ensures IsDigits(WholePart(v)) && IsDigits(FractionPart(v))
        && IsDecimalValue(Value(v), whole + scale - 1, scale - 1)
    {
      PartsFit(values, v);
      ShorterHolds(v, whole, scale);
    }
  }

  lemma ShorterHolds(v: string, whole: nat, scale: nat)
    requires (IsInteger(v) || IsDecimal(v)) && |WholePart(v)| <= whole && |FractionPart(v)| <= scale && scale > 0
      && !EndsAt(v, scale)
    ensures IsDigits(WholePart(v)) && IsDigits(FractionPart(v))
      && IsDecimalValue(Value(v), whole + scale - 1, scale - 1)
  {
    hide WholePart, FractionPart, IsDecimalValue, Value, IsInteger, IsDecimal, IsDigits;
    NumericParts(v);
    if |FractionPart(v)| == scale {
      FitsShorter(v, whole, scale);
    } else {
      FitsDecimal(v, whole, scale - 1);
    }
  }

  // A value that's at least a power of 10 needs as many digits before the decimal point.
  lemma NeedsWhole(v: string, precision: nat, scale: nat)
    requires IsDigits(WholePart(v)) && IsDigits(FractionPart(v)) && WholePart(v) != "" && WholePart(v)[0] != '0'
    requires IsDecimalValue(Value(v), precision, scale)
    ensures scale + |WholePart(v)| <= precision
  {
    hide WholePart, FractionPart, Unscaled, Number, Power, IsDigits, IsDecimalValue, Value;
    var w, k := |WholePart(v)|, |FractionPart(v)|;
    var n := ScaledDigits(v, precision, scale);
    AtLeast(v);
    if precision < scale + w {
      PowerGrows(precision + k, w + k - 1 + scale);
      PowerAdd(precision, k);
      PowerAdd(w + k - 1, scale);
      TooLarge(Unscaled(v), n, Power(w + k - 1), Power(scale), Power(precision), Power(k));
    }
  }

  lemma AtLeast(v: string)
    requires IsDigits(WholePart(v)) && IsDigits(FractionPart(v)) && WholePart(v) != "" && WholePart(v)[0] != '0'
    ensures var p := Power(|WholePart(v)| + |FractionPart(v)| - 1); Unscaled(v) >= p || -Unscaled(v) >= p
  {
    var digits := WholePart(v) + FractionPart(v);
    var d: int := Number(digits);
    assert Unscaled(v) == d || Unscaled(v) == -d;
    hide WholePart, FractionPart, Unscaled, Number, Power;
    NumberAtLeast(digits);
  }

  lemma TooLarge(u: int, n: int, a: nat, b: nat, c: nat, d: nat)
    requires u * b == n * d && (u >= a || -u >= a) && 0 < n + c && n < c && b > 0 && d > 0
    ensures a * b < c * d
  {
    var v, m := if u >= a then u else -u, if u >= a then n else -n;
    Negated(u, b);
    Negated(n, d);
    assert v * b == m * d;
    TimesAtLeast(a, v, b);
    TimesLess(m, c, d);
  }

  lemma TimesAtLeast(x: int, y: int, z: int)
    requires x <= y && z > 0
    ensures x * z <= y * z
  {
  }

  lemma TimesLess(x: int, y: int, z: int)
    requires x < y && z > 0
    ensures x * z < y * z
  {
  }

  // There are no digits before the decimal point if there is only a 0 (zero).
  lemma FitsFraction(v: string, scale: nat)
    requires IsDigits(WholePart(v)) && IsDigits(FractionPart(v)) && WholePart(v) == "0" && |FractionPart(v)| <= scale
    ensures IsDecimalValue(Value(v), scale, scale)
  {
    hide WholePart, FractionPart, Unscaled, Number, Power, Zeros, IsDigits;
    var f := FractionPart(v);
    var k := |f|;
    NumberZeros(f, scale - k);
    NumberBelow(f + Zeros(scale - k));
    ZerosLength(scale - k);
    ScaleReal(Unscaled(v), k, scale - k);
    OnlyFraction(v);
    Negated(Number(f), Power(scale - k));
    assert IsScaled(Value(v), Unscaled(v) * Power(scale - k), scale, scale);
  }

  lemma ZerosLength(n: nat)
    ensures |Zeros(n)| == n
  {
  }

  lemma OnlyFraction(v: string)
    requires IsDigits(WholePart(v)) && IsDigits(FractionPart(v)) && WholePart(v) == "0"
    ensures Unscaled(v) == Number(FractionPart(v)) || Unscaled(v) == -(Number(FractionPart(v)) as int)
  {
    LeadingZero(FractionPart(v));
    var d: int := Number(FractionPart(v));
    hide WholePart, FractionPart, Number, IsDigits;
    assert Unscaled(v) == d || Unscaled(v) == -d;
  }

  lemma Negated(d: int, p: int)
    ensures -d * p == -(d * p)
  {
  }

  lemma {:induction false} LeadingZero(f: string)
    requires IsDigits(f)
    ensures IsDigits("0" + f) && Number("0" + f) == Number(f)
  {
    if f == "" {
      assert "0" + f == "0" && "0"[..0] == "";
    } else {
      LeadingZero(f[..|f| - 1]);
      assert ("0" + f)[..|f|] == "0" + f[..|f| - 1];
    }
  }

  // The digits before the decimal point are the fewest exactly if one of the values has some.
  lemma WholeIsLeastIff(values: seq<string>)
    ensures var g := GuessNumber(values);
      g.DecimalType? ==>
        ((forall p: nat, s: nat | HoldsAll(values, p, s) :: g.precision - g.scale <= p - s)
         <==> exists v :: v in values && WholePart(v) != "0")
  {
    var g := GuessNumber(values);
    if g.DecimalType? {
      GuessDecimalIff(values);
      hide GuessNumber;
      var whole := Longest(Wholes(values), 1);
      if exists v :: v in values && WholePart(v) != "0" {
        var v := LongestWhole(values);
        forall p: nat, s: nat | HoldsAll(values, p, s) ensures whole <= p - s {
          NeedsWhole(v, p, s);
        }
      } else {
        OnlyFractions(values, g.scale);
      }
    }
  }

  lemma LongestWhole(values: seq<string>) returns (v: string)
    requires (forall v | v in values :: IsInteger(v) || IsDecimal(v)) && exists v :: v in values && WholePart(v) != "0"
    ensures v in values && WholePart(v) != "" && WholePart(v)[0] != '0' && |WholePart(v)| >= Longest(Wholes(values), 1)
  {
    if Longest(Wholes(values), 1) == 1 {
      v :| v in values && WholePart(v) != "0";
    } else {
      var w :| w in Wholes(values) && |w| == Longest(Wholes(values), 1);
      var i :| 0 <= i < |values| && Wholes(values)[i] == w;
      v := values[i];
    }
    WholeIsWhole(v);
  }

  lemma WholeIsWhole(v: string)
    requires IsInteger(v) || IsDecimal(v)
    ensures IsWhole(WholePart(v))
  {
    if IsInteger(v) {
      IntegerParts(v);
    }
  }

  lemma OnlyFractions(values: seq<string>, scale: nat)
    requires values != [] && (forall v | v in values :: IsInteger(v) || IsDecimal(v))
      && forall v | v in values :: WholePart(v) == "0"
    requires scale == Longest(Fractions(values), 0)
    ensures HoldsAll(values, scale, scale) && Longest(Wholes(values), 1) == 1
  {
    forall v | v in values
      ensures IsDigits(WholePart(v)) && IsDigits(FractionPart(v)) && IsDecimalValue(Value(v), scale, scale)
    {
      NumericParts(v);
      PartsFit(values, v);
      hide IsDecimalValue, Value, Longest, Wholes, Fractions;
      FitsFraction(v, scale);
    }
  }
}
