/** Number layout of the canonical JSON printer (src/actl/domain/audit/canonical.py).

A float is the shortest decimal that denotes it: digits without leading or
trailing zeros, times a power of ten.  The printer lays the digits out in one of
four ways (section 3.2.2.3 of RFC 8785).  A reader of number texts gets back
exactly that decimal.
*/
module CanonicalNumber {
  import opened Digests

  datatype Float =
    | NotANumber
    | Infinite(negative: bool)
    | Zero(negative: bool)
    | Finite(negative: bool, digits: string, exponent: int)

  /** digits * 10^exponent with a sign, without needless zeros; zero is (false, "", 0). */
  datatype Decimal = Decimal(negative: bool, digits: string, exponent: int)

  /******* Digits *******/

  predicate IsDigit(c: char) { '0' <= c <= '9' }

  predicate AllDigits(s: string) { forall i :: 0 <= i < |s| ==> IsDigit(s[i]) }

  function DigitOf(n: nat): char
    requires n < 10
  {
    '0' + n as char
  }

  function NatOf(s: string): nat
    requires AllDigits(s)
  {
    if s == [] then 0 else NatOf(s[..|s| - 1]) * 10 + (s[|s| - 1] as int - '0' as int)
  }

  /** `str` of a non-negative integer */
  function NatText(n: nat): (s: string)
    ensures s != [] && AllDigits(s) && NatOf(s) == n
    ensures n > 0 ==> s[0] != '0'
  {
    if n < 10 then
      var s := [DigitOf(n)];
      assert s[..0] == [];
      s
    else
      var front := NatText(n / 10);
      var s := front + [DigitOf(n % 10)];
      assert s[..|s| - 1] == front;
      s
  }

  function Zeros(n: nat): (s: string)
    ensures |s| == n && forall i :: 0 <= i < n ==> s[i] == '0'
  {
    seq(n, _ => '0')
  }

  /** The digits of a finite float, as `Decimal.normalize` leaves them. */
  predicate Shortest(digits: string) {
    digits != [] && AllDigits(digits) && digits[0] != '0' && digits[|digits| - 1] != '0'
  }

  predicate ValidFloat(x: Float) {
    x.Finite? ==> Shortest(x.digits)
  }

  /******* The printer *******/

  function SignText(negative: bool): string {
    if negative then "-" else ""
  }

  function IntText(i: int): string {
    SignText(i < 0) + NatText(if i < 0 then -i else i)
  }

  /** `_encode_number` */
  function EncodeNumber(x: Float): Result<string>
    requires ValidFloat(x)
  {
    match x
    case NotANumber => Err("ValueError")
    case Infinite(_) => Err("ValueError")
    case Zero(_) => Ok("0")
    case Finite(negative, digits, exponent) => Ok(SignText(negative) + NumberBody(digits, exponent))
  }

  function NumberBody(digits: string, exponent: int): string
    requires Shortest(digits)
  {
    var k := |digits|;
    var n := exponent + k;
    if k <= n <= 21 then digits + Zeros(n - k)
    else if 0 < n <= 21 then digits[..n] + "." + digits[n..]
    else if -6 < n <= 0 then "0." + Zeros(-n) + digits
    else
      var mantissa := if k == 1 then digits[..1] else digits[..1] + "." + digits[1..];
      var e := n - 1;
      mantissa + "e" + (if e >= 0 then "+" else "-") + NatText(if e >= 0 then e else -e)
  }

  /******* The reader *******/

  function TrimLeft(s: string): (t: string)
  {
    if s != [] && s[0] == '0' then TrimLeft(s[1..]) else s
  }

  function TrimRight(s: string): (t: string)
  {
    if s != [] && s[|s| - 1] == '0' then TrimRight(s[..|s| - 1]) else s
  }

  /** The normal form of digits * 10^exponent. */
  function Normal(negative: bool, digits: string, exponent: int): Decimal {
    var d := TrimLeft(digits);
    if d == [] then Decimal(false, "", 0)
    else
      var t := TrimRight(d);
      Decimal(negative, t, exponent + (|d| - |t|))
  }

  /** The longest digit prefix, and what follows it. */
  function SpanDigits(s: string): (parts: (string, string))
    ensures AllDigits(parts.0)
    ensures s == parts.0 + parts.1
  {
    if s == [] || !IsDigit(s[0]) then ([], s)
    else
      var (front, rest) := SpanDigits(s[1..]);
      ([s[0]] + front, rest)
  }

  predicate StartsWith(s: string, c: char) { s != [] && s[0] == c }

  /** The pieces of a number text; the exponent is a sign and digits. */
  datatype Pieces = Pieces(negative: bool, whole: string, fraction: string, exponent: Option<(bool, string)>)

  predicate Readable(p: Pieces) {
    && p.whole != [] && AllDigits(p.whole) && AllDigits(p.fraction)
    && (p.exponent.Some? ==> p.exponent.value.1 != [] && AllDigits(p.exponent.value.1))
  }

  /** The number that the pieces denote. */
  function ValueOf(p: Pieces): Decimal
    requires Readable(p)
  {
    Normal(p.negative, p.whole + p.fraction, ExponentValue(p.exponent) - |p.fraction|)
  }

  function ExponentValue(e: Option<(bool, string)>): int
    requires e.Some? ==> AllDigits(e.value.1)
  {
    if e.None? then 0
    else
      var size: int := NatOf(e.value.1);
      if e.value.0 then -size else size
  }

  /** Reads one number text from the front: optional minus, digits, optional
      fraction, optional exponent. */
  function ParseNumber(s: string): (r: Option<(Pieces, string)>)
    ensures r.Some? ==> Readable(r.value.0) && |r.value.1| < |s|
  {
    if StartsWith(s, '-') then ParseUnsigned(true, s[1..]) else ParseUnsigned(false, s)
  }

  function ParseUnsigned(negative: bool, s: string): (r: Option<(Pieces, string)>)
    ensures r.Some? ==> Readable(r.value.0) && |r.value.1| < |s|
  {
    var (whole, afterWhole) := SpanDigits(s);
    var (fraction, afterFraction) := ParseFraction(afterWhole);
    var (exponent, rest) := ParseExponent(afterFraction);
    if whole == [] then None else Some((Pieces(negative, whole, fraction, exponent), rest))
  }

  function ParseFraction(s: string): (r: (string, string))
    ensures AllDigits(r.0) && |r.1| <= |s|
  {
    if StartsWith(s, '.') then SpanDigits(s[1..]) else ([], s)
  }

  function ParseExponent(s: string): (r: (Option<(bool, string)>, string))
    ensures r.0.Some? ==> r.0.value.1 != [] && AllDigits(r.0.value.1)
    ensures |r.1| <= |s|
  {
    if StartsWith(s, 'e') && |s| >= 2 && (s[1] == '+' || s[1] == '-') then
      var (digits, rest) := SpanDigits(s[2..]);
      if digits == [] then (None, s) else (Some((s[1] == '-', digits)), rest)
    else (None, s)
  }

  /** What may follow a number so that the reader stops there. */
  predicate Stops(rest: string) {
    rest == [] || (!IsDigit(rest[0]) && rest[0] != '.' && rest[0] != 'e')
  }

  /** The number a value stands for. */
  function DecimalOf(x: Float): Decimal {
    match x
    case Finite(negative, digits, exponent) => Decimal(negative, digits, exponent)
    case _ => Decimal(false, "", 0)
  }

  function DecimalOfInt(i: int): Decimal {
    Normal(i < 0, NatText(if i < 0 then -i else i), 0)
  }

  /******* Normal forms *******/

  lemma {:induction false} TrimLeftIs(n: nat, s: string)
    requires s == [] || s[0] != '0'
    ensures TrimLeft(Zeros(n) + s) == s
    decreases n
  {
    if n == 0 {
      assert Zeros(n) + s == s;
    } else {
      TrimLeftIs(n - 1, s);
      assert (Zeros(n) + s)[1..] == Zeros(n - 1) + s;
    }
  }

  lemma {:induction false} TrimRightIs(s: string, n: nat)
    requires s != [] && s[|s| - 1] != '0'
    ensures TrimRight(s + Zeros(n)) == s
    decreases n
  {
    if n == 0 {
      assert s + Zeros(n) == s;
    } else {
      TrimRightIs(s, n - 1);
      assert (s + Zeros(n))[..|s| + n - 1] == s + Zeros(n - 1);
    }
  }

  lemma {:induction false} TrimLeftDrops(s: string) returns (n: nat)
    ensures s == Zeros(n) + TrimLeft(s)
  {
    if s != [] && s[0] == '0' {
      n := TrimLeftDrops(s[1..]);
      assert s == [s[0]] + s[1..];
      n := n + 1;
    } else {
      n := 0;
    }
  }

  lemma {:induction false} TrimRightDrops(s: string) returns (n: nat)
    ensures s == TrimRight(s) + Zeros(n)
  {
    if s != [] && s[|s| - 1] == '0' {
      n := TrimRightDrops(s[..|s| - 1]);
      assert s == s[..|s| - 1] + [s[|s| - 1]];
      n := n + 1;
    } else {
      n := 0;
    }
  }

  /** Zeros around shortest digits are absorbed by the normal form. */
  lemma NormalIs(negative: bool, left: nat, digits: string, right: nat, exponent: int)
    requires Shortest(digits)
    ensures Normal(negative, Zeros(left) + (digits + Zeros(right)), exponent) == Decimal(negative, digits, exponent + right)
  {
    TrimLeftIs(left, digits + Zeros(right));
    TrimRightIs(digits, right);
  }

  function Pow10(n: nat): nat { if n == 0 then 1 else 10 * Pow10(n - 1) }

  lemma NatOfSnocZero(s: string)
    requires AllDigits(s)
    ensures NatOf(s + "0") == NatOf(s) * 10
  {
    assert (s + "0")[..|s|] == s;
  }

  lemma ZerosSnoc(s: string, n: nat)
    requires n > 0
    ensures s + Zeros(n) == (s + Zeros(n - 1)) + "0"
  {
  }

  lemma TimesPower(a: nat, n: nat)
    requires n > 0
    ensures a * Pow10(n - 1) * 10 == a * Pow10(n)
  {
  }

  lemma {:induction false} NatOfZeros(s: string, n: nat)
    requires AllDigits(s)
    ensures NatOf(s + Zeros(n)) == NatOf(s) * Pow10(n)
    decreases n
  {
    if n == 0 {
      assert s + Zeros(0) == s;
    } else {
      NatOfZeros(s, n - 1);
      NatOfSnocZero(s + Zeros(n - 1));
      ZerosSnoc(s, n);
      TimesPower(NatOf(s), n);
    }
  }

  lemma {:induction false} NatOfLeadingZeros(n: nat, s: string)
    requires AllDigits(s)
    ensures NatOf(Zeros(n) + s) == NatOf(s)
    decreases |s|, n
  {
    if s != [] {
      NatOfLeadingZeros(n, s[..|s| - 1]);
      assert (Zeros(n) + s)[..n + |s| - 1] == Zeros(n) + s[..|s| - 1];
    } else if n > 0 {
      NatOfLeadingZeros(n - 1, s);
      assert (Zeros(n) + s)[..n - 1] == Zeros(n - 1) + s;
    }
  }

  lemma DigitsOfParts(a: string, b: string)
    requires AllDigits(a + b)
    ensures AllDigits(a) && AllDigits(b)
  {
    assert forall i :: 0 <= i < |a| ==> a[i] == (a + b)[i];
    assert forall i :: 0 <= i < |b| ==> b[i] == (a + b)[|a| + i];
  }

  /** Taking the normal form keeps the value: the digits as a number are the
      normal digits times the power of ten by which the exponent grew. */
  lemma NormalKeepsValue(negative: bool, digits: string, exponent: int)
    requires AllDigits(digits)
    ensures var d := Normal(negative, digits, exponent);
      && AllDigits(d.digits)
      && if d.digits == [] then NatOf(digits) == 0 else
          && d.exponent >= exponent && d.negative == negative
          && NatOf(digits) == NatOf(d.digits) * Pow10(d.exponent - exponent)
  {
    var d := TrimLeft(digits);
    var t := TrimRight(d);
    var left := TrimLeftDrops(digits);
    DigitsOfParts(Zeros(left), d);
    NatOfLeadingZeros(left, d);
    var right := TrimRightDrops(d);
    DigitsOfParts(t, Zeros(right));
    NatOfZeros(t, right);
  }

  /******* The reader undoes the printer *******/

  lemma {:induction false} SpanDigitsStops(digits: string, rest: string)
    requires AllDigits(digits) && (rest == [] || !IsDigit(rest[0]))
    ensures SpanDigits(digits + rest) == (digits, rest)
  {
    if digits == [] {
      assert digits + rest == rest;
    } else {
      SpanDigitsStops(digits[1..], rest);
      assert (digits + rest)[1..] == digits[1..] + rest;
      assert [digits[0]] + digits[1..] == digits;
    }
  }

  ghost function FractionText(fraction: string): string {
    if fraction == [] then "" else "." + fraction
  }

  ghost function ExponentText(e: Option<(bool, string)>): string {
    if e.None? then "" else (if e.value.0 then "e-" else "e+") + e.value.1
  }

  ghost function BodyText(p: Pieces): string {
    p.whole + (FractionText(p.fraction) + ExponentText(p.exponent))
  }

  ghost function Render(p: Pieces): string {
    SignText(p.negative) + BodyText(p)
  }

  lemma ParseFractionReads(fraction: string, tail: string)
    requires AllDigits(fraction) && (tail == [] || (!IsDigit(tail[0]) && tail[0] != '.'))
    ensures ParseFraction(FractionText(fraction) + tail) == (fraction, tail)
  {
    var s := FractionText(fraction) + tail;
    if fraction == [] {
      assert s == tail;
    } else {
      assert s[1..] == fraction + tail;
      SpanDigitsStops(fraction, tail);
    }
  }

  lemma ParseExponentReads(e: Option<(bool, string)>, rest: string)
    requires e.Some? ==> e.value.1 != [] && AllDigits(e.value.1)
    requires Stops(rest)
    ensures ParseExponent(ExponentText(e) + rest) == (e, rest)
  {
    if e.Some? {
      assert (ExponentText(e) + rest)[2..] == e.value.1 + rest;
      SpanDigitsStops(e.value.1, rest);
    } else {
      assert ExponentText(e) + rest == rest;
    }
  }

  lemma ParseSignReads(negative: bool, s: string)
    requires s != [] && IsDigit(s[0])
    ensures ParseNumber(SignText(negative) + s) == ParseUnsigned(negative, s)
  {
    assert (SignText(negative) + s)[|SignText(negative)|..] == s;
  }

  lemma Regroup(a: string, b: string, c: string, d: string, e: string)
    ensures a + (b + (c + d)) + e == a + (b + (c + (d + e)))
  {
  }

  lemma ParseUnsignedReads(p: Pieces, tail: string, rest: string)
    requires Readable(p) && (tail == [] || (!IsDigit(tail[0]) && tail[0] != '.'))
    requires ParseExponent(tail) == (p.exponent, rest)
    ensures ParseUnsigned(p.negative, p.whole + (FractionText(p.fraction) + tail)) == Some((p, rest))
  {
    SpanDigitsStops(p.whole, FractionText(p.fraction) + tail);
    ParseFractionReads(p.fraction, tail);
  }

  /** The reader undoes every rendering of pieces. */
  lemma ParseReads(p: Pieces, rest: string)
    requires Readable(p) && Stops(rest)
    ensures ParseNumber(Render(p) + rest) == Some((p, rest))
  {
    var tail := ExponentText(p.exponent) + rest;
    ParseExponentReads(p.exponent, rest);
    ParseUnsignedReads(p, tail, rest);
    ParseSignReads(p.negative, p.whole + (FractionText(p.fraction) + tail));
    Regroup(SignText(p.negative), p.whole, FractionText(p.fraction), ExponentText(p.exponent), rest);
  }

  /** The pieces that the printer chooses. */
  ghost function Layout(negative: bool, digits: string, exponent: int): Pieces
    requires Shortest(digits)
  {
    var n := exponent + |digits|;
    Pieces(negative, WholePart(digits, n), FractionPart(digits, n),
           if -6 < n <= 21 then None else ExponentPart(n - 1))
  }

  ghost function ExponentPart(e: int): (p: Option<(bool, string)>)
    ensures p.Some? && p.value.1 != [] && AllDigits(p.value.1) && ExponentValue(p) == e
  {
    Some((e < 0, NatText(if e < 0 then -e else e)))
  }

  ghost function WholePart(digits: string, n: int): string
    requires Shortest(digits)
  {
    if |digits| <= n <= 21 then digits + Zeros(n - |digits|)
    else if 0 < n <= 21 then digits[..n]
    else if -6 < n <= 0 then "0"
    else digits[..1]
  }

  ghost function FractionPart(digits: string, n: int): string
    requires Shortest(digits)
  {
    if |digits| <= n <= 21 then ""
    else if 0 < n <= 21 then digits[n..]
    else if -6 < n <= 0 then Zeros(-n) + digits
    else digits[1..]
  }

  lemma PartsJoin(digits: string, n: int)
    requires Shortest(digits)
    ensures WholePart(digits, n) + FractionPart(digits, n) ==
      Zeros(if -6 < n <= 0 then -n + 1 else 0) + (digits + Zeros(if |digits| <= n <= 21 then n - |digits| else 0))
  {
  }

  lemma PlainText(whole: string, fraction: string)
    ensures whole + (FractionText(fraction) + ExponentText(None)) == if fraction == [] then whole else whole + "." + fraction
  {
    assert FractionText(fraction) + "" == FractionText(fraction);
  }

  lemma ScientificText(whole: string, fraction: string, below: bool, size: string)
    ensures whole + (FractionText(fraction) + ExponentText(Some((below, size)))) ==
      (if fraction == [] then whole else whole + "." + fraction) + "e" + (if below then "-" else "+") + size
  {
    var point, sign := FractionText(fraction), if below then "-" else "+";
    Assoc(whole, point, "e" + sign + size);
    Assoc(whole + point, "e" + sign, size);
    Assoc(whole + point, "e", sign);
    Assoc(whole, ".", fraction);
    assert whole + "" == whole;
    assert ExponentText(Some((below, size))) == "e" + sign + size;
  }

  lemma LayoutScientific(negative: bool, digits: string, exponent: int)
    requires Shortest(digits) && !(-6 < exponent + |digits| <= 21)
    ensures NumberBody(digits, exponent) == BodyText(Layout(negative, digits, exponent))
  {
    var p := Layout(negative, digits, exponent);
    ScientificText(p.whole, p.fraction, p.exponent.value.0, p.exponent.value.1);
  }

  lemma LayoutPlain(negative: bool, digits: string, exponent: int)
    requires Shortest(digits) && -6 < exponent + |digits| <= 21
    ensures NumberBody(digits, exponent) == BodyText(Layout(negative, digits, exponent))
  {
    var n, p := exponent + |digits|, Layout(negative, digits, exponent);
    PlainText(p.whole, p.fraction);
    if n <= 0 {
      assert "0" + "." + (Zeros(-n) + digits) == "0." + Zeros(-n) + digits;
    }
  }

  lemma LayoutRenders(negative: bool, digits: string, exponent: int)
    requires Shortest(digits)
    ensures SignText(negative) + NumberBody(digits, exponent) == Render(Layout(negative, digits, exponent))
  {
    if -6 < exponent + |digits| <= 21 {
      LayoutPlain(negative, digits, exponent);
    } else {
      LayoutScientific(negative, digits, exponent);
    }
  }

  lemma PlainMeans(negative: bool, digits: string, exponent: int, left: nat, right: nat, whole: string, fraction: string)
    requires Shortest(digits) && whole + fraction == Zeros(left) + (digits + Zeros(right))
    ensures Normal(negative, whole + fraction, exponent - right) == Decimal(negative, digits, exponent)
  {
    NormalIs(negative, left, digits, right, exponent - right);
  }

  lemma LayoutReadable(negative: bool, digits: string, exponent: int)
    requires Shortest(digits)
    ensures Readable(Layout(negative, digits, exponent))
    ensures var n := exponent + |digits|;
      ExponentValue(Layout(negative, digits, exponent).exponent) == if -6 < n <= 21 then 0 else n - 1
  {
  }

  lemma LayoutMeans(negative: bool, digits: string, exponent: int)
    requires Shortest(digits)
    ensures Readable(Layout(negative, digits, exponent))
    ensures ValueOf(Layout(negative, digits, exponent)) == Decimal(negative, digits, exponent)
  {
    var n, p := exponent + |digits|, Layout(negative, digits, exponent);
    var left, right := if -6 < n <= 0 then -n + 1 else 0, if |digits| <= n <= 21 then n - |digits| else 0;
    LayoutReadable(negative, digits, exponent);
    PartsJoin(digits, n);
    PlainMeans(negative, digits, exponent, left, right, p.whole, p.fraction);
  }

  /** The pieces that ECMAScript's layout rules give: n is where the decimal point falls.
      Outside -6 < n <= 21 one digit stands before the point and the exponent is n - 1. */
  ghost predicate LaidOut(p: Pieces, x: Float)
    requires x.Finite? && ValidFloat(x) && Readable(p)
  {
    var k, n := |x.digits|, x.exponent + |x.digits|;
    && p.negative == x.negative
    && (p.exponent.None? <==> -6 < n <= 21)
    && if p.exponent.Some?
      then p.whole == [x.digits[0]] && |p.fraction| == k - 1 && ExponentValue(p.exponent) == n - 1
        && p.exponent.value.1[0] != '0' && (p.exponent.value.0 <==> n < 1)
      else |p.whole| == (if n >= 1 then n else 1) && |p.fraction| == (if k > n then k - n else 0)
  }

  lemma LayoutLaidOut(x: Float)
    requires x.Finite? && ValidFloat(x)
    ensures var p := Layout(x.negative, x.digits, x.exponent); Readable(p) && LaidOut(p, x)
  {
    LayoutReadable(x.negative, x.digits, x.exponent);
    assert x.digits[..1] == [x.digits[0]];
  }

  lemma FiniteRoundTrip(x: Float, rest: string) returns (p: Pieces)
    requires x.Finite? && ValidFloat(x) && Stops(rest)
    ensures Readable(p) && ValueOf(p) == DecimalOf(x) && LaidOut(p, x)
    ensures ParseNumber(EncodeNumber(x).value + rest) == Some((p, rest))
  {
    p := Layout(x.negative, x.digits, x.exponent);
    LayoutRenders(x.negative, x.digits, x.exponent);
    LayoutMeans(x.negative, x.digits, x.exponent);
    LayoutLaidOut(x);
    ParseReads(p, rest);
  }

  /** The text of a float is laid out by the rules, read back, and denotes exactly
      digits * 10^exponent. */
  lemma NumberRoundTrip(x: Float, rest: string) returns (p: Pieces)
    requires ValidFloat(x) && EncodeNumber(x).Ok? && Stops(rest)
    ensures Readable(p) && ValueOf(p) == DecimalOf(x)
    ensures ParseNumber(EncodeNumber(x).value + rest) == Some((p, rest))
    ensures if x.Finite? then LaidOut(p, x) else EncodeNumber(x).value == "0"
  {
    if x.Finite? { p := FiniteRoundTrip(x, rest); return; }
    p := Pieces(false, "0", "", None);
    TrimLeftIs(1, "");
    assert Zeros(1) + "" == "0" == p.whole + p.fraction;
    assert Render(p) == "0";
    ParseReads(p, rest);
  }

  lemma DigitsRoundTrip(negative: bool, digits: string, rest: string)
    requires digits != [] && AllDigits(digits) && Stops(rest)
    ensures var p := Pieces(negative, digits, "", None);
      && ValueOf(p) == Normal(negative, digits, 0)
      && ParseNumber(SignText(negative) + digits + rest) == Some((p, rest))
  {
    PlainText(digits, "");
    ParseReads(Pieces(negative, digits, "", None), rest);
    assert digits + "" == digits;
  }

  lemma IntRoundTrip(i: int, rest: string)
    requires Stops(rest)
    ensures var p := Pieces(i < 0, NatText(if i < 0 then -i else i), "", None);
      Readable(p) && ValueOf(p) == DecimalOfInt(i) && ParseNumber(IntText(i) + rest) == Some((p, rest))
  {
    DigitsRoundTrip(i < 0, NatText(if i < 0 then -i else i), rest);
  }

  /** Different (sign, digits, exponent) triples give different texts. */
  lemma NumberTextDetermines(x: Float, y: Float)
    requires x.Finite? && y.Finite? && ValidFloat(x) && ValidFloat(y)
    requires EncodeNumber(x) == EncodeNumber(y)
    ensures x == y
  {
    var p := NumberRoundTrip(x, "");
    var q := NumberRoundTrip(y, "");
  }

  /******* Integers against floats *******/

  /** The code writes an int digit by digit and a float in exponent form from
      10^21 on, so an int and a float of the same value share a text exactly
      below 10^21. */
  lemma IntAndFloatTexts(i: int, x: Float)
    requires x.Finite? && ValidFloat(x) && DecimalOfInt(i) == DecimalOf(x)
    ensures EncodeNumber(x) == Ok(IntText(i)) <==> x.exponent + |x.digits| <= 21
  {
    assert TrimLeft("0") == [];
    SharedText(i < 0, NatText(if i < 0 then -i else i), x);
  }

  lemma SharedText(negative: bool, text: string, x: Float)
    requires x.Finite? && ValidFloat(x) && text != [] && AllDigits(text) && text[0] != '0'
    requires Normal(negative, text, 0) == DecimalOf(x)
    ensures EncodeNumber(x) == Ok(SignText(negative) + text) <==> x.exponent + |x.digits| <= 21
  {
    var right := TrimRightDrops(text);
    assert text == x.digits + Zeros(x.exponent);
    if x.exponent + |x.digits| > 21 {
      var p := Layout(x.negative, x.digits, x.exponent);
      LayoutRenders(x.negative, x.digits, x.exponent);
      LayoutMeans(x.negative, x.digits, x.exponent);
      ParseReads(p, "");
      DigitsRoundTrip(negative, text, "");
      assert Render(p) + "" == Render(p) && SignText(negative) + text + "" == SignText(negative) + text;
    }
  }

  lemma {:induction false} PowerText(n: nat)
    ensures Pow10(n) > 0 && NatText(Pow10(n)) == "1" + Zeros(n)
  {
    if n == 0 {
      assert "1" + Zeros(0) == "1" == [DigitOf(1)];
    } else {
      PowerText(n - 1);
      assert Pow10(n) / 10 == Pow10(n - 1) && Pow10(n) % 10 == 0;
      assert "1" + Zeros(n) == ("1" + Zeros(n - 1)) + [DigitOf(0)];
    }
  }

  lemma PowerNormal(n: nat)
    ensures Normal(false, "1" + Zeros(n), 0) == Decimal(false, "1", n)
  {
    NormalIs(false, 0, "1", n, 0);
    assert Zeros(0) + ("1" + Zeros(n)) == "1" + Zeros(n);
  }

  /** 10^n as an int and as a float are equal in value, and print alike exactly up to
      10^20; so 10^21 and 1e21 do not. */
  lemma PowersOfTen(n: nat)
    ensures var x := Finite(false, "1", n);
      && ValidFloat(x) && DecimalOfInt(Pow10(n)) == DecimalOf(x)
      && (EncodeNumber(x) == Ok(IntText(Pow10(n))) <==> n <= 20)
  {
    PowerText(n);
    PowerNormal(n);
    IntAndFloatTexts(Pow10(n), Finite(false, "1", n));
  }

  /** Plain layouts, the smallest one among them. */
  lemma PlainSamples()
    ensures EncodeNumber(Zero(true)) == Ok("0")
    ensures EncodeNumber(Finite(false, "1", -6)) == Ok("0.000001")
    ensures EncodeNumber(Finite(true, "12345", -2)) == Ok("-123.45")
  {
    assert "" + NumberBody("1", -6) == "0." + Zeros(5) + "1" == "0.000001";
    assert "-" + NumberBody("12345", -2) == "-" + ("123" + "." + "45") == "-123.45";
  }

  /** The exponent form just below and just above the plain ones. */
  lemma ExponentSamples()
    ensures EncodeNumber(Finite(false, "1", -7)) == Ok("1e-7")
    ensures EncodeNumber(Finite(false, "1", 21)) == Ok("1e+21")
  {
    OneDigit(-7, "-", "7");
    assert NatText(2) == "2" && NatText(21) == "2" + "1" == "21";
    OneDigit(21, "+", "21");
    assert "1e" + "-" + "7" == "1e-7" && "1e" + "+" + "21" == "1e+21";
  }

  lemma OneDigit(exponent: int, sign: string, size: string)
    requires !(-6 <= exponent < 21) && sign == (if exponent < 0 then "-" else "+")
    requires size == NatText(if exponent < 0 then -exponent else exponent)
    ensures EncodeNumber(Finite(false, "1", exponent)) == Ok("1e" + sign + size)
  {
    assert "1"[..1] == "1" && "1" + "e" == "1e";
    assert "" + NumberBody("1", exponent) == NumberBody("1", exponent);
  }
}
