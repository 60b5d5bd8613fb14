/** Exact decimal numbers as Python's `decimal.Decimal` keeps them (finite values only): a sign, a
    coefficient and a power-of-ten exponent, so `Decimal("1.50")` is (false, 150, -2). Values of
    parameters, esds, limits, xdd ranges and inline data are all of this type; no binary float is used. */
module Decimals {
  import opened Wrappers

  datatype Decimal = Decimal(negative: bool, coefficient: nat, exponent: int)

  /** `Decimal(i)` for a Python int (and for a bool, which Python treats as 0 or 1). */
  function FromInt(i: int): (d: Decimal)
    ensures d.exponent == 0 && (if d.negative then -(d.coefficient as int) else d.coefficient as int) == i
  {
    Decimal(i < 0, if i < 0 then -i else i, 0)
  }

  /** Python truthiness of a Decimal: false exactly for a zero. */
  predicate IsNonZero(d: Decimal) {
    d.coefficient != 0
  }

  // ---------------------------------------------------------------- digit strings

  predicate IsDigit(c: char) {
    '0' <= c <= '9'
  }

  predicate AllDigits(s: string) {
    forall i :: 0 <= i < |s| ==> IsDigit(s[i])
  }

  function DigitChar(d: nat): (c: char)
    requires d < 10
    ensures IsDigit(c) && c as int - '0' as int == d
  {
    ['0', '1', '2', '3', '4', '5', '6', '7', '8', '9'][d]
  }

  function Pow10(n: nat): (r: nat)
    ensures r >= 1
  {
    if n == 0 then 1 else 10 * Pow10(n - 1)
  }

  /** The number a string of decimal digits denotes (leading zeros allowed). */
  function DigitsValue(s: string): nat
    requires AllDigits(s)
  {
    if s == [] then 0 else DigitsValue(s[..|s| - 1]) * 10 + (s[|s| - 1] as int - '0' as int)
  }

  function Zeros(k: nat): (r: string)
    ensures |r| == k && AllDigits(r)
    ensures forall i :: 0 <= i < k ==> r[i] == '0'
  {
    seq(k, _ => '0')
  }

  /** Python `str(n)` for a non-negative int: decimal digits without a leading zero. */
  function NatDigits(n: nat): (r: string)
    ensures |r| >= 1 && AllDigits(r) && (|r| > 1 ==> r[0] != '0')
    ensures DigitsValue(r) == n
  {
    if n < 10 then [DigitChar(n)]
    else
      var r := NatDigits(n / 10) + [DigitChar(n % 10)];
      assert r[..|r| - 1] == NatDigits(n / 10);
      r
  }

  /** Python `str(i)` for any int. */
  function IntStr(i: int): (r: string)
    ensures |r| >= 1
  {
    if i < 0 then "-" + NatDigits(-i) else NatDigits(i)
  }

  /** Python `"%+d" % e`. */
  function SignedIntStr(e: int): (r: string)
    ensures |r| >= 2 && (r[0] == '+' || r[0] == '-') && AllDigits(r[1..])
  {
    if e < 0 then "-" + NatDigits(-e) else "+" + NatDigits(e)
  }

  lemma {:induction false} DigitsValueAppend(a: string, b: string)
    requires AllDigits(a) && AllDigits(b)
    ensures AllDigits(a + b)
    ensures DigitsValue(a + b) == DigitsValue(a) * Pow10(|b|) + DigitsValue(b)
  {
    if b == [] {
      assert a + b == a;
    } else {
      var b' := b[..|b| - 1];
      DigitsValueAppend(a, b');
      assert (a + b)[..|a + b| - 1] == a + b';
      var last := b[|b| - 1] as int - '0' as int;
      assert DigitsValue(a + b) == DigitsValue(a + b') * 10 + last;
      assert DigitsValue(b) == DigitsValue(b') * 10 + last;
      assert Pow10(|b|) == Pow10(|b'|) * 10;
      calc {
        DigitsValue(a + b);
        (DigitsValue(a) * Pow10(|b'|) + DigitsValue(b')) * 10 + last;
        { MulShift(DigitsValue(a), Pow10(|b'|)); }
        DigitsValue(a) * Pow10(|b|) + DigitsValue(b);
      }
    }
  }

  lemma MulShift(v: int, p: int)
    ensures v * p * 10 == v * (p * 10)
  {
  }

  lemma {:induction false} ZerosValue(k: nat)
    ensures DigitsValue(Zeros(k)) == 0
  {
    if k > 0 {
      assert Zeros(k)[..k - 1] == Zeros(k - 1);
      ZerosValue(k - 1);
    }
  }

  // ---------------------------------------------------------------- Decimal -> text

  /** How `str(Decimal)` lays a value out: the digits before the point, the digits after it (no
      point at all when there are none) and the exponent printed after `E` (none when 0). */
  datatype Layout = Layout(whole: string, fraction: string, shown: int)

  /** The layout of Python's `Decimal.__str__` (also what an f-string prints): plain notation when
      the exponent is at most 0 and the value is not below 1e-6, otherwise one digit before the point
      and an `E` exponent. */
  function LayoutOf(d: Decimal): Layout {
    var digits := NatDigits(d.coefficient);
    var leftdigits := d.exponent + |digits|;
    var dotplace := if d.exponent <= 0 && leftdigits > -6 then leftdigits else 1;
    if dotplace <= 0 then
      Layout("0", Zeros(-dotplace) + digits, leftdigits - dotplace)
    else if dotplace >= |digits| then
      Layout(digits + Zeros(dotplace - |digits|), "", leftdigits - dotplace)
    else
      Layout(digits[..dotplace], digits[dotplace..], leftdigits - dotplace)
  }

  function Str(d: Decimal): (r: string)
    ensures |r| >= 1
  {
    var l := LayoutOf(d);
    (if d.negative then "-" else "")
    + l.whole
    + (if l.fraction == [] then "" else "." + l.fraction)
    + (if l.shown == 0 then "" else "E" + SignedIntStr(l.shown))
  }

  /** The text of a number starts with a minus sign or a digit. */
  lemma StrStart(d: Decimal)
    ensures Str(d)[0] == '-' || IsDigit(Str(d)[0])
  {
    var l := LayoutOf(d);
    LayoutExact(d);
    FirstOfPieces(if d.negative then "-" else "", l.whole,
      if l.fraction == [] then "" else "." + l.fraction,
      if l.shown == 0 then "" else "E" + SignedIntStr(l.shown));
  }

  lemma FirstOfPieces(sign: string, whole: string, fraction: string, exp: string)
    requires |whole| >= 1
    ensures (sign + whole + fraction + exp)[0] == if sign == [] then whole[0] else sign[0]
  {
  }

  /** The layout denotes exactly the decimal it was made from: its digits read together are the
      coefficient, and its exponent less the number of fraction digits is the exponent. */
  lemma {:induction false} LayoutExact(d: Decimal)
    ensures var l := LayoutOf(d);
      && |l.whole| >= 1 && AllDigits(l.whole) && AllDigits(l.fraction)
      && AllDigits(l.whole + l.fraction)
      && DigitsValue(l.whole + l.fraction) == d.coefficient
      && l.shown - |l.fraction| == d.exponent
  {
    var digits := NatDigits(d.coefficient);
    var leftdigits := d.exponent + |digits|;
    var dotplace := if d.exponent <= 0 && leftdigits > -6 then leftdigits else 1;
    if dotplace <= 0 {
      LeadingZerosValue(-dotplace, digits);
    } else if dotplace >= |digits| {
      assert dotplace == |digits|;
      assert digits + Zeros(0) == digits;
    } else {
      assert digits[..dotplace] + digits[dotplace..] == digits;
    }
  }

  lemma {:induction false} LeadingZerosValue(k: nat, digits: string)
    requires AllDigits(digits)
    ensures AllDigits("0" + (Zeros(k) + digits))
    ensures DigitsValue("0" + (Zeros(k) + digits)) == DigitsValue(digits)
  {
    assert "0" + (Zeros(k) + digits) == Zeros(k + 1) + digits;
    DigitsValueAppend(Zeros(k + 1), digits);
    ZerosValue(k + 1);
  }

  // ---------------------------------------------------------------- text -> Decimal

  /** The longest prefix of decimal digits, and what follows it. */
  function LeadingDigits(s: string): (r: (string, string))
    ensures AllDigits(r.0) && |r.0| + |r.1| == |s|
  {
    if s != [] && IsDigit(s[0]) then
      var tail := LeadingDigits(s[1..]);
      ([s[0]] + tail.0, tail.1)
    else
      ([], s)
  }

  /** An optional sign: whether it was `-`, and what follows it. */
  function Sign(s: string): (bool, string) {
    if |s| > 0 && (s[0] == '-' || s[0] == '+') then (s[0] == '-', s[1..]) else (false, s)
  }

  /** An optional exponent `e`/`E`, sign, digits; (0, s) when none is there. */
  function ScanExponent(s: string): (int, string) {
    if |s| > 0 && (s[0] == 'e' || s[0] == 'E') then
      var sign := Sign(s[1..]);
      var digits := LeadingDigits(sign.1);
      if |digits.0| > 0 then
        var v: int := DigitsValue(digits.0);
        (if sign.0 then -v else v, digits.1)
      else
        (0, s)
    else
      (0, s)
  }

  /** A number at the front of `s` — sign, digits, optional point and fraction, optional exponent —
      read exactly (the fraction digits lower the exponent), with the text that follows it. */
  function ScanNumber(s: string): (r: Option<(Decimal, string)>)
    ensures r.Some? ==> |r.value.1| < |s|
  {
    var sign := Sign(s);
    var whole := LeadingDigits(sign.1);
    var fraction := ScanFraction(whole.1);
    if |whole.0| + |fraction.0| == 0 then None
    else
      assert AllDigits(whole.0 + fraction.0);
      var exponent := ScanExponent(fraction.1);
      Some((Decimal(sign.0, DigitsValue(whole.0 + fraction.0), exponent.0 - |fraction.0|), exponent.1))
  }

  /** An optional `.` and the digits after it. */
  function ScanFraction(s: string): (string, string) {
    if |s| > 0 && s[0] == '.' then LeadingDigits(s[1..]) else ([], s)
  }

  /** Python `Decimal(text)` for the plain numeric forms: the whole text must be one number. */
  function ParseDecimal(s: string): Option<Decimal> {
    match ScanNumber(s)
    case Some((d, rest)) => if rest == [] then Some(d) else None
    case None => None
  }

  /** A character that cannot continue a number, so a scan stops in front of it. */
  predicate Boundary(c: char) {
    !IsDigit(c) && c != '.' && c != 'e' && c != 'E'
  }

  lemma {:induction false} LeadingDigitsOf(ds: string, t: string)
    requires AllDigits(ds) && (t == [] || !IsDigit(t[0]))
    ensures LeadingDigits(ds + t) == (ds, t)
  {
    if ds != [] {
      LeadingDigitsOf(ds[1..], t);
      assert (ds + t)[0] == ds[0];
      assert (ds + t)[1..] == ds[1..] + t;
      assert ds == [ds[0]] + ds[1..];
    } else {
      assert ds + t == t;
    }
  }

  lemma {:induction false} ScanExponentOf(e: int, rest: string)
    requires rest == [] || Boundary(rest[0])
    ensures ScanExponent((if e == 0 then "" else "E" + SignedIntStr(e)) + rest) == (e, rest)
  {
    if e != 0 {
      var sg := SignedIntStr(e);
      var digits := if e < 0 then NatDigits(-e) else NatDigits(e);
      assert sg == [sg[0]] + digits;
      assert sg[0] == '-' <==> e < 0;
      var s := "E" + sg + rest;
      assert s[1..] == sg + rest;
      assert (sg + rest)[0] == sg[0];
      assert (sg + rest)[1..] == digits + rest;
      assert Sign(s[1..]) == (e < 0, digits + rest);
      LeadingDigitsOf(digits, rest);
    } else {
      assert "" + rest == rest;
    }
  }

  /** Scanning what `str` printed, followed by text that cannot continue a number, gives back the
      very same Decimal (coefficient and exponent, not only the value) and leaves the text. */
  lemma {:induction false} ScanStr(d: Decimal, rest: string)
    requires rest == [] || Boundary(rest[0])
    ensures ScanNumber(Str(d) + rest) == Some((d, rest))
  {
    var l := LayoutOf(d);
    LayoutExact(d);
    ScanPieces(d.negative, l.whole, l.fraction, l.shown, rest);
  }

  lemma {:induction false} ScanPieces(negative: bool, whole: string, fraction: string, e: int, rest: string)
    requires |whole| >= 1 && AllDigits(whole) && AllDigits(fraction) && AllDigits(whole + fraction)
    requires rest == [] || Boundary(rest[0])
    ensures ScanNumber((if negative then "-" else "") + whole
                       + (if fraction == [] then "" else "." + fraction)
                       + (if e == 0 then "" else "E" + SignedIntStr(e)) + rest)
            == Some((Decimal(negative, DigitsValue(whole + fraction), e - |fraction|), rest))
  {
    var sign := if negative then "-" else "";
    var frac := if fraction == [] then "" else "." + fraction;
    var expo := if e == 0 then "" else "E" + SignedIntStr(e);
    var s := sign + whole + frac + expo + rest;
    var s2 := frac + (expo + rest);
    var body := whole + s2;
    calc {
      s;
      sign + whole + frac + expo + rest;
      { Assoc(sign + whole + frac, expo, rest); }
      sign + whole + frac + (expo + rest);
      { Assoc(sign + whole, frac, expo + rest); }
      sign + whole + s2;
      { Assoc(sign, whole, s2); }
      sign + body;
    }
    SignOf(negative, body);
    assert Sign(s) == (negative, body);
    AfterWhole(fraction, e, rest);
    LeadingDigitsOf(whole, s2);
    assert LeadingDigits(body) == (whole, s2);
    FractionOf(fraction, expo + rest);
    assert ScanFraction(s2) == (fraction, expo + rest);
    ScanExponentOf(e, rest);
    ScanSteps(s, negative, body, whole, s2, fraction, expo + rest, e, rest);
    SomeScan(ScanNumber(s), Decimal(negative, DigitsValue(whole + fraction), e - |fraction|), rest);
  }

  /** ScanNumber, given what each of its steps returns. */
  lemma ScanSteps(s: string, negative: bool, body: string, whole: string, s2: string,
                  fraction: string, s3: string, e: int, rest: string)
    requires Sign(s) == (negative, body) && LeadingDigits(body) == (whole, s2)
    requires ScanFraction(s2) == (fraction, s3) && ScanExponent(s3) == (e, rest)
    requires |whole| >= 1 && AllDigits(whole + fraction)
    ensures ScanNumber(s).Some?
    ensures ScanNumber(s).value.0.negative == negative
    ensures ScanNumber(s).value.0.coefficient == DigitsValue(whole + fraction)
    ensures ScanNumber(s).value.0.exponent == e - |fraction|
    ensures ScanNumber(s).value.1 == rest
  {
  }

  lemma SomeScan(r: Option<(Decimal, string)>, d: Decimal, rest: string)
    requires r.Some? && r.value.0.negative == d.negative && r.value.0.coefficient == d.coefficient
    requires r.value.0.exponent == d.exponent && r.value.1 == rest
    ensures r == Some((d, rest))
  {
  }

  lemma Assoc(a: string, b: string, c: string)
    ensures a + b + c == a + (b + c)
  {
  }

  lemma {:induction false} SignOf(negative: bool, body: string)
    requires |body| >= 1 && IsDigit(body[0])
    ensures Sign((if negative then "-" else "") + body) == (negative, body)
  {
    if negative {
      assert ("-" + body)[1..] == body;
    } else {
      assert "" + body == body;
    }
  }

  /** What follows the whole digits starts with neither a digit nor anything but `.`, `E` or a boundary. */
  lemma {:induction false} AfterWhole(fraction: string, e: int, rest: string)
    requires rest == [] || Boundary(rest[0])
    ensures var expo := if e == 0 then "" else "E" + SignedIntStr(e);
      && (expo + rest == [] || (!IsDigit((expo + rest)[0]) && (expo + rest)[0] != '.'))
      && var s2 := (if fraction == [] then "" else "." + fraction) + (expo + rest);
         s2 == [] || !IsDigit(s2[0])
  {
    var expo := if e == 0 then "" else "E" + SignedIntStr(e);
    if e == 0 {
      assert expo + rest == rest;
    } else {
      assert (expo + rest)[0] == 'E';
    }
    if fraction == [] {
      assert "" + (expo + rest) == expo + rest;
    } else {
      assert ("." + fraction + (expo + rest))[0] == '.';
    }
  }

  lemma {:induction false} FractionOf(fraction: string, tail: string)
    requires AllDigits(fraction)
    requires tail == [] || (!IsDigit(tail[0]) && tail[0] != '.')
    ensures ScanFraction((if fraction == [] then "" else "." + fraction) + tail) == (fraction, tail)
  {
    if fraction == [] {
      assert "" + tail == tail;
    } else {
      var s2 := "." + fraction + tail;
      assert s2[0] == '.' && s2[1..] == fraction + tail;
      LeadingDigitsOf(fraction, tail);
    }
  }

  /** `Decimal(str(d)) == d`, exactly. */
  lemma {:induction false} ParseStr(d: Decimal)
    ensures ParseDecimal(Str(d)) == Some(d)
  {
    ScanStr(d, "");
    assert Str(d) + "" == Str(d);
  }
}
