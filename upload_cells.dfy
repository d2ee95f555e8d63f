/** The cells of an uploaded CSV frame and `safe_decimal`, which turns a cell into the
 *  two-place decimal the upload route stores. */
module UploadCells {
  import opened Wrappers
  import PyText
  /** A cell of the uploaded frame. A float carries the text `str()` gives for it, since float
   *  formatting is not modelled. */
  datatype Cell = NoneCell | NaN | Number(x: real, text: string) | Integer(i: int) | Text(s: string)

  // ---------------------------------------------------------------- safe_decimal

  /** `quantize(Decimal("0.01"), rounding=ROUND_HALF_UP)`: to the nearest cent, halves away
   *  from zero. */
  function Round2(x: real): real
  {
    HalfUpCents(x) as real / 100.0
  }

  /** The whole number of cents nearest to `x`, halves away from zero. */
  function HalfUpCents(x: real): int
  {
    if x >= 0.0 then (x * 100.0 + 0.5).Floor else -((-x) * 100.0 + 0.5).Floor
  }

  /** A whole number of cents. */
  predicate Cents(x: real)
  {
    (x * 100.0).Floor as real == x * 100.0
  }

  /** Rounding moves a value by at most half a cent and lands on a whole cent. */
  lemma Round2Bounds(x: real)
    ensures -0.005 <= Round2(x) - x <= 0.005
    ensures Cents(Round2(x))
  {
    var n := HalfUpCents(x);
    var y := if x >= 0.0 then x else -x;
    var t := y * 100.0 + 0.5;
    assert t.Floor as real <= t < t.Floor as real + 1.0;
    assert -0.5 <= n as real - x * 100.0 <= 0.5;
    assert Round2(x) * 100.0 == n as real;
  }

  /** A value that already is a whole number of cents is kept. */
  lemma Round2Keeps(x: real)
    requires Cents(x)
    ensures Round2(x) == x
  {
    var c := (x * 100.0).Floor;
    if x >= 0.0 {
      assert (x * 100.0 + 0.5).Floor == c;
    } else {
      assert ((-x) * 100.0 + 0.5).Floor == -c;
    }
  }

  /** An exact half cent goes away from zero. */
  lemma Round2HalfUp(x: real)
    ensures x >= 0.0 && Cents(x + 0.005) ==> Round2(x) == x + 0.005
    ensures x < 0.0 && Cents(x - 0.005) ==> Round2(x) == x - 0.005
  {
    if x >= 0.0 && Cents(x + 0.005) {
      var c := ((x + 0.005) * 100.0).Floor;
      assert x * 100.0 + 0.5 == c as real;
    }
    if x < 0.0 && Cents(x - 0.005) {
      var c := ((x - 0.005) * 100.0).Floor;
      assert (-x) * 100.0 + 0.5 == -c as real;
    }
  }

  /** The text is made of decimal digits only. */
  predicate AllDigits(s: string)
  {
    s == [] || ('0' <= s[|s| - 1] <= '9' && AllDigits(s[..|s| - 1]))
  }

  lemma {:induction false} DigitsOnly(s: string)
    requires AllDigits(s)
    ensures forall i :: 0 <= i < |s| ==> '0' <= s[i] <= '9'
  {
    if s != [] {
      DigitsOnly(s[..|s| - 1]);
    }
  }

  function DigitsValue(s: string): nat
    requires AllDigits(s)
  {
    if s == [] then 0 else DigitsValue(s[..|s| - 1]) * 10 + (s[|s| - 1] as int - '0' as int)
  }

  /** Digits with at most one point and at least one digit. */
  function ParseUnsigned(body: string): Option<real>
  {
    var k := PyText.Find(body, '.');
    if k == -1 then ParseParts(body, "") else ParseParts(body[..k], body[k + 1..])
  }

  /** The digits before and after the point; at least one digit in all. */
  function ParseParts(whole: string, fraction: string): Option<real>
  {
    if AllDigits(whole) && AllDigits(fraction) && |whole| + |fraction| > 0 then
      Some(DigitsValue(whole) as real + FractionValue(fraction))
    else None
  }

  /** The value of the digits after a point: `5` is 0.5, `25` is 0.25. */
  function FractionValue(fraction: string): real
  {
    if fraction == [] then 0.0
    else ((fraction[0] as int - '0' as int) as real + FractionValue(fraction[1..])) / 10.0
  }

  /** `Decimal(text)` for finite numbers in ASCII digits: surrounding whitespace is stripped
   *  and every underscore dropped, then an optional sign, a coefficient of digits with at most
   *  one point, and optionally `e` or `E` with a signed exponent. Any other text is None; the
   *  constructor raises InvalidOperation for it, except for the special values (`Infinity`,
   *  `NaN`, `sNaN`) and for digits outside ASCII, which it reads. */
  function ParseDecimal(text: string): Option<real>
  {
    ParseTrimmed(WithoutUnderscores(PyText.Strip(text)))
  }

  /** The text with every `_` removed. */
  function WithoutUnderscores(s: string): string
  {
    if s == [] then []
    else if s[|s| - 1] == '_' then WithoutUnderscores(s[..|s| - 1])
    else WithoutUnderscores(s[..|s| - 1]) + [s[|s| - 1]]
  }

  /** A stripped text without underscores: an optional sign, then the magnitude. */
  function ParseTrimmed(t: string): Option<real>
  {
    if |t| > 0 && (t[0] == '-' || t[0] == '+') then
      Signed(t[0] == '-', ParseMagnitude(t[1..]))
    else ParseMagnitude(t)
  }

  /** A value read after a sign: negated under a minus. */
  function Signed(minus: bool, m: Option<real>): (r: Option<real>)
    ensures r.Some? <==> m.Some?
  {
    match m
    case None => None
    case Some(x) => Some(if minus then -x else x)
  }

  /** Where the exponent marker (`e` or `E`) is, or the length when there is none. */
  function ExponentMarker(b: string): (k: nat)
    ensures k <= |b|
    ensures k < |b| ==> b[k] == 'e' || b[k] == 'E'
  {
    if b == [] then 0 else if b[0] == 'e' || b[0] == 'E' then 0 else 1 + ExponentMarker(b[1..])
  }

  /** A coefficient, then an optional exponent: `2.5e3` is 2500. */
  function ParseMagnitude(b: string): Option<real>
  {
    var k := ExponentMarker(b);
    if k == |b| then ParseUnsigned(b) else Scaled(ParseUnsigned(b[..k]), ParseExponent(b[k + 1..]))
  }

  /** An exponent: an optional sign and at least one digit. */
  function ParseExponent(s: string): (r: Option<int>)
    ensures s == [] ==> r.None?
  {
    if |s| > 0 && (s[0] == '-' || s[0] == '+') then
      (if |s| > 1 && AllDigits(s[1..]) then
         var d: int := DigitsValue(s[1..]);
         Some(if s[0] == '-' then -d else d)
       else None)
    else if s != [] && AllDigits(s) then Some(DigitsValue(s))
    else None
  }

  /** The coefficient times ten to the exponent, where both were read. */
  function Scaled(m: Option<real>, e: Option<int>): Option<real>
  {
    if m.Some? && e.Some? then Some(m.value * Pow10(e.value)) else None
  }

  /** A magnitude under a sign written as text. */
  function SignedValue(sign: string, d: nat): int
  {
    if sign == "-" then -(d as int) else d
  }

  /** Ten to a whole power, negative powers included. */
  function Pow10(e: int): real
    decreases if e >= 0 then e else -e
  {
    if e == 0 then 1.0 else if e > 0 then 10.0 * Pow10(e - 1) else Pow10(e + 1) / 10.0
  }

  /** Dropping underscores works piece by piece. */
  lemma {:induction false} UnderscoresSplit(a: string, b: string)
    ensures WithoutUnderscores(a + b) == WithoutUnderscores(a) + WithoutUnderscores(b)
  {
    if b == [] {
      assert a + b == a;
    } else {
      var c := b[..|b| - 1];
      assert (a + b)[..|a + b| - 1] == a + c;
      UnderscoresSplit(a, c);
    }
  }

  /** Text without underscores is left as it is. */
  lemma {:induction false} NoUnderscores(s: string)
    requires forall i :: 0 <= i < |s| ==> s[i] != '_'
    ensures WithoutUnderscores(s) == s
  {
    if s != [] {
      NoUnderscores(s[..|s| - 1]);
    }
  }

  /** Text with no `e` or `E` has no exponent. */
  lemma {:induction false} NoExponentMarker(b: string)
    requires forall i :: 0 <= i < |b| ==> b[i] != 'e' && b[i] != 'E'
    ensures ExponentMarker(b) == |b|
  {
    if b != [] {
      NoExponentMarker(b[1..]);
    }
  }

  /** The marker is found after a prefix that has none. */
  lemma {:induction false} MarkerAfter(a: string, b: string)
    requires forall i :: 0 <= i < |a| ==> a[i] != 'e' && a[i] != 'E'
    ensures ExponentMarker(a + b) == |a| + ExponentMarker(b)
  {
    if a == [] {
      assert a + b == b;
    } else {
      assert (a + b)[1..] == a[1..] + b;
      MarkerAfter(a[1..], b);
    }
  }

  /** A leading minus negates the number that follows, and a leading plus keeps it. */
  lemma ParseSigned(sign: char, body: string)
    requires sign == '-' || sign == '+'
    requires body != [] && !PyText.IsSpace(body[|body| - 1])
    ensures ParseDecimal([sign] + body) == Signed(sign == '-', ParseMagnitude(WithoutUnderscores(body)))
  {
    SignCleaned(sign, body);
    CleanedTrimmed([sign] + body, [sign] + WithoutUnderscores(body));
    SignedTrimmed(sign, WithoutUnderscores(body));
  }

  lemma SignCleaned(sign: char, body: string)
    requires sign == '-' || sign == '+'
    requires body != [] && !PyText.IsSpace(body[|body| - 1])
    ensures WithoutUnderscores(PyText.Strip([sign] + body)) == [sign] + WithoutUnderscores(body)
  {
    PyText.StripUnpadded([sign] + body);
    SignKept(sign, body);
  }

  lemma SignKept(sign: char, body: string)
    requires sign == '-' || sign == '+'
    ensures WithoutUnderscores([sign] + body) == [sign] + WithoutUnderscores(body)
  {
    UnderscoresSplit([sign], body);
    NoUnderscores([sign]);
  }

  /** Once stripped and rid of underscores, the text is read as it stands. */
  lemma CleanedTrimmed(text: string, t: string)
    requires WithoutUnderscores(PyText.Strip(text)) == t
    ensures ParseDecimal(text) == ParseTrimmed(t)
  {
  }

  lemma SignedTrimmed(sign: char, u: string)
    requires sign == '-' || sign == '+'
    ensures ParseTrimmed([sign] + u) == Signed(sign == '-', ParseMagnitude(u))
  {
    assert ([sign] + u)[1..] == u;
  }

  /** An underscore inside a number is dropped: `1_000` reads as `1000`. */
  lemma ParseGrouped(a: string, b: string)
    requires a != [] && b != [] && !PyText.IsSpace(a[0]) && !PyText.IsSpace(b[|b| - 1])
    ensures ParseDecimal(a + "_" + b) == ParseDecimal(a + b)
  {
    PyText.StripUnpadded(a + "_" + b);
    PyText.StripUnpadded(a + b);
    UnderscoresSplit(a + "_", b);
    UnderscoresSplit(a, "_");
    UnderscoresSplit(a, b);
    assert WithoutUnderscores("_") == [];
  }

  /** Digits, `e` or `E`, and an exponent: the coefficient times ten to the exponent, so
   *  `1e5` is a hundred thousand and `25E-2` a quarter. */
  lemma ParseScientific(m: string, marker: char, x: string)
    requires AllDigits(m) && m != []
    requires marker == 'e' || marker == 'E'
    requires ParseExponent(x).Some?
    ensures ParseDecimal(m + [marker] + x) == Scaled(Some(DigitsValue(m) as real), ParseExponent(x))
  {
    ScientificCleaned(m, marker, x);
    ScientificParts(m, marker, x);
    DigitsUnsigned(m);
  }

  lemma ScientificCleaned(m: string, marker: char, x: string)
    requires AllDigits(m) && m != []
    requires marker == 'e' || marker == 'E'
    requires ParseExponent(x).Some?
    ensures ParseDecimal(m + [marker] + x) == ParseTrimmed(m + [marker] + x)
  {
    var s := m + [marker] + x;
    DigitsOnly(m);
    ExponentChars(x);
    assert s[0] == m[0] && s[|s| - 1] == x[|x| - 1];
    PyText.StripUnpadded(s);
    NoUnderscores(s);
    CleanedTrimmed(s, s);
  }

  /** An exponent is made of a sign and digits. */
  lemma ExponentChars(x: string)
    requires ParseExponent(x).Some?
    ensures x != []
    ensures forall i :: 0 <= i < |x| ==> x[i] == '-' || x[i] == '+' || '0' <= x[i] <= '9'
  {
    if x[0] == '-' || x[0] == '+' {
      DigitsOnly(x[1..]);
    } else {
      DigitsOnly(x);
    }
  }

  /** An optional sign and digits make an exponent. */
  lemma ExponentValue(sign: string, e: string)
    requires AllDigits(e) && e != []
    requires sign == "" || sign == "-" || sign == "+"
    ensures ParseExponent(sign + e) == Some(SignedValue(sign, DigitsValue(e)))
  {
    DigitsOnly(e);
    if sign != "" {
      assert (sign + e)[1..] == e;
    } else {
      assert sign + e == e;
    }
  }

  /** A coefficient of digits, then the marker and an exponent: the coefficient scaled by the
   *  exponent. */
  lemma ScientificParts(m: string, marker: char, x: string)
    requires AllDigits(m) && m != []
    requires marker == 'e' || marker == 'E'
    ensures ParseTrimmed(m + [marker] + x) == Scaled(ParseUnsigned(m), ParseExponent(x))
  {
    var rest := [marker] + x;
    assert m + [marker] + x == m + rest;
    assert rest[1..] == x;
    DigitsOnly(m);
    assert (m + rest)[0] == m[0];
    MagnitudeSplit(m, rest);
  }

  /** A coefficient without a marker, then the marker: the coefficient scaled by the exponent. */
  lemma MagnitudeSplit(m: string, rest: string)
    requires forall i :: 0 <= i < |m| ==> m[i] != 'e' && m[i] != 'E'
    requires rest != [] && (rest[0] == 'e' || rest[0] == 'E')
    ensures ParseMagnitude(m + rest) == Scaled(ParseUnsigned(m), ParseExponent(rest[1..]))
  {
    MarkerAfter(m, rest);
    assert (m + rest)[..|m|] == m;
    assert (m + rest)[|m| + 1..] == rest[1..];
  }

  /** Digits alone read as their value. */
  lemma DigitsUnsigned(m: string)
    requires AllDigits(m) && m != []
    ensures ParseUnsigned(m) == Some(DigitsValue(m) as real)
  {
    DigitsOnly(m);
    assert PyText.Find(m, '.') == -1;
    PartsValue(m, "");
  }

  /** Text with a point splits there into its whole part and its fraction. */
  lemma ParsePoint(whole: string, fraction: string)
    requires '.' !in whole
    ensures ParseUnsigned(whole + "." + fraction) == ParseParts(whole, fraction)
  {
    var s := whole + "." + fraction;
    assert s[..|whole|] == whole && s[|whole|] == '.' && s[|whole| + 1..] == fraction;
  }

  /** Digit text with a point reads as its whole part plus its fraction. */
  lemma ParseDecimalPoint(whole: string, fraction: string)
    requires AllDigits(whole) && AllDigits(fraction) && whole != [] && fraction != []
    ensures ParseDecimal(whole + "." + fraction) == Some(DigitsValue(whole) as real + FractionValue(fraction))
  {
    var s := whole + "." + fraction;
    DigitsOnly(whole);
    DigitsOnly(fraction);
    assert s[0] == whole[0] && s[|s| - 1] == fraction[|fraction| - 1];
    assert forall i :: 0 <= i < |s| ==> s[i] == '.' || '0' <= s[i] <= '9';
    PlainText(s);
    ParsePoint(whole, fraction);
    PartsValue(whole, fraction);
  }

  /** Text with no whitespace round it, no sign, no underscore and no exponent is read by its
   *  coefficient alone. */
  lemma PlainText(s: string)
    requires s != [] && !PyText.IsSpace(s[0]) && !PyText.IsSpace(s[|s| - 1])
    requires s[0] != '-' && s[0] != '+'
    requires forall i :: 0 <= i < |s| ==> s[i] != '_' && s[i] != 'e' && s[i] != 'E'
    ensures ParseDecimal(s) == ParseUnsigned(s)
  {
    PyText.StripUnpadded(s);
    NoUnderscores(s);
    NoExponentMarker(s);
    CleanedTrimmed(s, s);
  }

  lemma PartsValue(whole: string, fraction: string)
    requires AllDigits(whole) && AllDigits(fraction) && |whole| + |fraction| > 0
    ensures ParseParts(whole, fraction) == Some(DigitsValue(whole) as real + FractionValue(fraction))
  {
  }

  /** A point alone, whitespace round it or not, is not a number. */
  lemma ParseDecimalBarePoint(text: string)
    requires PyText.Strip(text) == "."
    ensures ParseDecimal(text) == None
  {
    NoUnderscores(".");
    NoExponentMarker(".");
    assert ParseUnsigned(".") == None;
  }

  /** What `safe_decimal` falls back to: None, or Decimal 0 when `allow_none` is False. */
  function Fallback(allowNone: bool): Option<real>
  {
    if allowNone then None else Some(0.0)
  }

  /** The most cents `quantize` can give under the default 28-digit context, plus one:
   *  10^28. A result with more digits raises InvalidOperation. */
  const QuantizeLimit: int := 10_000_000_000_000_000_000_000_000_000

  /** `quantize(Decimal("0.01"), rounding=ROUND_HALF_UP)` under the default context: the value
   *  to the cent, or None where the rounded value needs more than 28 digits. */
  function Quantize(x: real): Option<real>
  {
    var n := HalfUpCents(x);
    if -QuantizeLimit < n < QuantizeLimit then Some(Round2(x)) else None
  }

  /** `quantize` fails exactly for values within half a cent of 10^26 or beyond, either sign. */
  lemma QuantizeRange(x: real)
    ensures Quantize(x).None? <==>
      x * 100.0 + 0.5 >= QuantizeLimit as real || x * 100.0 - 0.5 <= -QuantizeLimit as real
    ensures Quantize(x).Some? ==> Quantize(x).value == Round2(x)
  {
    if x >= 0.0 {
      var t := x * 100.0 + 0.5;
      assert t.Floor as real <= t < t.Floor as real + 1.0;
    } else {
      var t := (-x) * 100.0 + 0.5;
      assert t.Floor as real <= t < t.Floor as real + 1.0;
    }
  }

  /** A decimal value once read: quantized, or the fallback where `quantize` raises. */
  function SafeNumber(x: real, allowNone: bool): (r: Option<real>)
    ensures !allowNone ==> r.Some?
    ensures r.Some? && r.value != 0.0 ==> Cents(r.value)
  {
    match Quantize(x)
    case None => Fallback(allowNone)
    case Some(y) => Round2Bounds(x); Some(y)
  }

  /** `safe_decimal(value, allow_none)`. */
  function SafeDecimal(value: Cell, allowNone: bool): (r: Option<real>)
    ensures !allowNone ==> r.Some?
    ensures r.Some? && r.value != 0.0 ==> Cents(r.value)
  {
    match value
    case NoneCell => Fallback(allowNone)
    case NaN => Fallback(allowNone)
    case Text(s) =>
      if PyText.Strip(s) == "" then Fallback(allowNone)
      else
        (match ParseDecimal(s)
         case None => Fallback(allowNone)
         case Some(x) => SafeNumber(x, allowNone))
    case Number(x, _) => SafeNumber(x, allowNone)
    case Integer(i) => SafeNumber(i as real, allowNone)
  }

  /** Missing, NaN and blank values, text that is not a number, and numbers too large for
   *  `quantize` give the fallback; any other number gives itself rounded to the cent, and an
   *  integer below 10^26 in size is kept. */
  lemma SafeDecimalCases(value: Cell, allowNone: bool)
    ensures value.NoneCell? || value.NaN? ==> SafeDecimal(value, allowNone) == Fallback(allowNone)
    ensures value.Text? && (PyText.Strip(value.s) == "" || ParseDecimal(value.s).None?) ==>
      SafeDecimal(value, allowNone) == Fallback(allowNone)
    ensures value.Text? && PyText.Strip(value.s) != "" && ParseDecimal(value.s).Some? ==>
      SafeDecimal(value, allowNone) == SafeNumber(ParseDecimal(value.s).value, allowNone)
    ensures value.Number? && Quantize(value.x).Some? ==> SafeDecimal(value, allowNone) == Some(Round2(value.x))
    ensures value.Number? && Quantize(value.x).Some? ==>
      -0.005 <= SafeDecimal(value, allowNone).value - value.x <= 0.005
    ensures value.Number? && Quantize(value.x).None? ==> SafeDecimal(value, allowNone) == Fallback(allowNone)
    ensures value.Integer? && -QuantizeLimit < value.i * 100 < QuantizeLimit ==>
      SafeDecimal(value, allowNone) == Some(value.i as real)
    ensures value.Integer? && !(-QuantizeLimit < value.i * 100 < QuantizeLimit) ==>
      SafeDecimal(value, allowNone) == Fallback(allowNone)
  {
    if value.Number? {
      Round2Bounds(value.x);
    }
    if value.Integer? {
      assert ((value.i as real) * 100.0).Floor == value.i * 100;
      assert HalfUpCents(value.i as real) == value.i * 100;
      Round2Keeps(value.i as real);
    }
  }
}
