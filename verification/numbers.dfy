/**
 * Python's number <-> text conversions as the agent uses them: `int(str)`, `float(str)`,
 * `int(float)` (truncation toward zero), `str(int)` and the `:.3f` format of a rate.
 * Python floats are modelled as exact `real`s.
 */
module Numbers {
  import opened Wrappers
  import opened Text

  predicate IsDigit(c: char) {
    '0' <= c <= '9'
  }

  predicate IsDigits(s: string) {
    forall i | 0 <= i < |s| :: IsDigit(s[i])
  }

  predicate HasDigit(s: string) {
    exists i | 0 <= i < |s| :: IsDigit(s[i])
  }

  function DigitValue(c: char): nat
    requires IsDigit(c)
  {
    c as int - '0' as int
  }

  function DigitChar(d: nat): (c: char)
    requires d < 10
    ensures IsDigit(c) && DigitValue(c) == d
  {
    ('0' as int + d) as char
  }

  function Pow10(n: nat): (r: nat)
    ensures r >= 1
  {
    if n == 0 then 1 else 10 * Pow10(n - 1)
  }

  /** The value of a string of decimal digits, most significant first. */
  function DigitsValue(s: string): nat
    requires IsDigits(s)
  {
    if |s| == 0 then 0 else 10 * DigitsValue(s[..|s| - 1]) + DigitValue(s[|s| - 1])
  }

  lemma DigitsAppend(a: string, b: string)
    requires IsDigits(a) && IsDigits(b)
    ensures IsDigits(a + b)
  {
  }

  /** The value of a concatenation of digit strings. */
  lemma {:induction false} DigitsValueAppend(a: string, b: string)
    requires IsDigits(a) && IsDigits(b)
    ensures IsDigits(a + b)
    ensures DigitsValue(a + b) == DigitsValue(a) * Pow10(|b|) + DigitsValue(b)
  {
    if |b| == 0 {
      assert a + b == a;
    } else {
      var b' := b[..|b| - 1];
      DigitsValueAppend(a, b');
      DropLast(a, b);
      ShiftDigit(DigitsValue(a), Pow10(|b'|), DigitsValue(b'), DigitValue(b[|b| - 1]));
    }
  }

  /** Dropping the last character of `a + b`, for a nonempty `b`, drops it from `b`. */
  lemma DropLast(a: string, b: string)
    requires |b| > 0
    ensures (a + b)[..|a + b| - 1] == a + b[..|b| - 1]
    ensures (a + b)[|a + b| - 1] == b[|b| - 1]
  {
  }

  /** Appending a digit to `x * p + y` in base ten. */
  lemma ShiftDigit(x: nat, p: nat, y: nat, d: nat)
    ensures 10 * (x * p + y) + d == x * (10 * p) + (10 * y + d)
  {
  }

  /** Python's `str(n)` for a natural number: its decimal digits, no leading zeros. */
  function NatToString(n: nat): (r: string)
    ensures IsDigits(r) && |r| >= 1
    ensures |r| > 1 ==> r[0] != '0'
  {
    if n < 10 then [DigitChar(n)] else NatToString(n / 10) + [DigitChar(n % 10)]
  }

  /** Reading back the digits of `n` gives `n`. */
  lemma {:induction false} NatToStringValue(n: nat)
    ensures DigitsValue(NatToString(n)) == n
  {
    if n >= 10 {
      var s := NatToString(n);
      assert s[..|s| - 1] == NatToString(n / 10);
      NatToStringValue(n / 10);
    }
  }

  /** Python's `str(i)` for an integer. */
  function IntToString(i: int): string {
    if i < 0 then "-" + NatToString(-i) else NatToString(i)
  }

  /** Length of the longest prefix of `s` made of digits. */
  function LeadingDigits(s: string): (n: nat)
    ensures n <= |s| && IsDigits(s[..n])
    ensures n < |s| ==> !IsDigit(s[n])
  {
    if |s| > 0 && IsDigit(s[0]) then
      var k := LeadingDigits(s[1..]);
      assert s[..1 + k] == [s[0]] + s[1..][..k];
      1 + k
    else 0
  }

  /** The leading digits of `a + b` are exactly `a` when `a` is all digits and `b` does not start with one. */
  lemma {:induction false} LeadingDigitsOf(a: string, b: string)
    requires IsDigits(a)
    requires |b| > 0 ==> !IsDigit(b[0])
    ensures LeadingDigits(a + b) == |a|
  {
    if |a| > 0 {
      assert (a + b)[1..] == a[1..] + b;
      LeadingDigitsOf(a[1..], b);
    } else {
      assert a + b == b;
    }
  }

  /** An optional sign followed by at least one digit, the whole string. */
  function ParseSignedDigits(s: string): (r: Option<int>)
    ensures r.Some? ==> |s| > 0
  {
    var signed := |s| > 0 && (s[0] == '+' || s[0] == '-');
    var body := if signed then s[1..] else s;
    if |body| > 0 && IsDigits(body) then
      Some(if signed && s[0] == '-' then -(DigitsValue(body) as int) else DigitsValue(body))
    else None
  }

  /** Python's `int(text)` in base 10: surrounding whitespace, an optional sign, digits. */
  function ParseInt(s: string): Option<int> {
    ParseSignedDigits(Strip(s))
  }

  /** `m * 10^e` for a possibly negative exponent. */
  function Scale(m: nat, e: int): (r: real)
    ensures r >= 0.0
    decreases if e < 0 then -e else e
  {
    if e == 0 then m as real
    else if e > 0 then 10.0 * Scale(m, e - 1)
    else Scale(m, e + 1) / 10.0
  }

  /** The exponent part of a float literal: nothing, or `e`/`E` then signed digits. */
  function ParseExponent(tail: string): Option<int> {
    if |tail| == 0 then Some(0)
    else if tail[0] == 'e' || tail[0] == 'E' then ParseSignedDigits(tail[1..])
    else None
  }

  /** A float literal cut into its whole digits, an optional `.`, its fraction digits and the rest. */
  datatype Literal = Literal(whole: string, dot: bool, fraction: string, tail: string)

  function DotText(dot: bool): string {
    if dot then "." else ""
  }

  /** Cuts the longest `digits [. digits]` prefix off `u`. */
  function SplitLiteral(u: string): (d: Literal)
    ensures IsDigits(d.whole) && IsDigits(d.fraction)
    ensures !d.dot ==> d.fraction == ""
    ensures |d.tail| > 0 ==> !IsDigit(d.tail[0]) && (!d.dot ==> d.tail[0] != '.')
  {
    var i := LeadingDigits(u);
    if i < |u| && u[i] == '.' then
      var rest := u[i + 1..];
      var f := LeadingDigits(rest);
      Literal(u[..i], true, rest[..f], rest[f..])
    else
      Literal(u[..i], false, "", u[i..])
  }

  /** The cut loses nothing: its pieces put together give back the string. */
  lemma SplitLiteralParts(u: string)
    ensures var d := SplitLiteral(u); u == d.whole + DotText(d.dot) + d.fraction + d.tail
  {
    var i := LeadingDigits(u);
    if i < |u| && u[i] == '.' {
      var rest := u[i + 1..];
      CutAround(u, i, LeadingDigits(rest));
    } else {
      CutAt(u, i);
    }
  }

  /** A string is its prefix and its suffix at any position, with nothing in between. */
  lemma CutAt(u: string, i: nat)
    requires i <= |u|
    ensures u == u[..i] + "" + "" + u[i..]
  {
  }

  /** A string with `.` at `i` is its prefix, the dot, and the rest cut at `f`. */
  lemma CutAround(u: string, i: nat, f: nat)
    requires i < |u| && u[i] == '.' && f <= |u| - i - 1
    ensures u == u[..i] + "." + u[i + 1..][..f] + u[i + 1..][f..]
  {
    var rest := u[i + 1..];
    assert rest == rest[..f] + rest[f..];
    assert u == u[..i] + [u[i]] + rest;
  }

  /** The cut is unique: any decomposition meeting the same conditions is the one `SplitLiteral` finds. */
  lemma SplitLiteralUnique(w: string, dot: bool, f: string, t: string)
    requires IsDigits(w) && IsDigits(f)
    requires !dot ==> f == ""
    requires |t| > 0 ==> !IsDigit(t[0]) && (!dot ==> t[0] != '.')
    ensures SplitLiteral(w + DotText(dot) + f + t) == Literal(w, dot, f, t)
  {
    if dot {
      SplitLiteralWithDot(w, f, t);
    } else {
      SplitLiteralNoDot(w, t);
      assert w + DotText(dot) + f + t == w + t;
    }
  }

  lemma SplitLiteralNoDot(w: string, t: string)
    requires IsDigits(w)
    requires |t| > 0 ==> !IsDigit(t[0]) && t[0] != '.'
    ensures SplitLiteral(w + t) == Literal(w, false, "", t)
  {
    var u := w + t;
    LeadingDigitsOf(w, t);
    assert u[..|w|] == w;
    assert u[|w|..] == t;
  }

  lemma SplitLiteralWithDot(w: string, f: string, t: string)
    requires IsDigits(w) && IsDigits(f)
    requires |t| > 0 ==> !IsDigit(t[0])
    ensures SplitLiteral(w + "." + f + t) == Literal(w, true, f, t)
  {
    var u := w + "." + f + t;
    var after := "." + f + t;
    assert u == w + after;
    LeadingDigitsOf(w, after);
    assert u[..|w|] == w;
    assert u[|w|..] == after;
    var rest := f + t;
    assert after[1..] == rest;
    LeadingDigitsOf(f, t);
    assert rest[..|f|] == f;
    assert rest[|f|..] == t;
  }

  /** An unsigned float literal: digits, an optional `.` and fraction digits (at least one digit
      in all), then an optional exponent. */
  function ParseUnsignedDecimal(u: string): (r: Option<real>)
    ensures r.Some? ==> r.value >= 0.0
  {
    var d := SplitLiteral(u);
    if |d.whole| + |d.fraction| == 0 then None
    else
      match ParseExponent(d.tail)
      case None => None
      case Some(e) =>
        DigitsAppend(d.whole, d.fraction);
        Some(Scale(DigitsValue(d.whole + d.fraction), e - |d.fraction|))
  }

  /** Applies a parsed sign to a parsed magnitude. */
  function Signed(negative: bool, magnitude: Option<real>): Option<real> {
    match magnitude
    case None => None
    case Some(v) => Some(if negative then -v else v)
  }

  /** Python's `float(text)` for finite decimal literals. */
  function ParseFloat(s: string): Option<real> {
    var t := Strip(s);
    if |t| > 0 && (t[0] == '+' || t[0] == '-') then Signed(t[0] == '-', ParseUnsignedDecimal(t[1..]))
    else ParseUnsignedDecimal(t)
  }

  /** `str(i)` neither starts nor ends with whitespace. */
  lemma IntToStringEdges(i: int)
    ensures var s := IntToString(i); |s| > 0 && !IsSpace(s[0]) && !IsSpace(s[|s| - 1])
  {
    var n: nat := if i < 0 then -i else i;
    var digits := NatToString(n);
    assert !IsSpace(digits[0]) && !IsSpace(digits[|digits| - 1]);
    var s := IntToString(i);
    assert s[|s| - 1] == digits[|digits| - 1];
  }

  /** The sign-and-digits reader reads back `str(i)`. */
  lemma SignedDigitsOfIntString(i: int)
    ensures ParseSignedDigits(IntToString(i)) == Some(i)
  {
    var n: nat := if i < 0 then -i else i;
    var digits := NatToString(n);
    NatToStringValue(n);
    if i < 0 {
      var s := IntToString(i);
      assert s[0] == '-';
      assert s[1..] == digits;
    } else {
      assert digits[0] != '+' && digits[0] != '-';
    }
  }

  /** `int(text)` reads back `str(i)`. */
  lemma IntRoundTrip(i: int)
    ensures ParseInt(IntToString(i)) == Some(i)
  {
    IntToStringEdges(i);
    StripUnchanged(IntToString(i));
    SignedDigitsOfIntString(i);
  }

  /** A digit is neither whitespace nor a sign. */
  lemma DigitIsPlain(c: char)
    requires IsDigit(c)
    ensures !IsSpace(c) && c != '+' && c != '-'
  {
  }

  /** Without surrounding whitespace or a sign, `float(text)` is the unsigned literal reader. */
  lemma ParseFloatUnsigned(s: string)
    requires |s| > 0 ==> !IsSpace(s[0]) && !IsSpace(s[|s| - 1]) && s[0] != '+' && s[0] != '-'
    ensures ParseFloat(s) == ParseUnsignedDecimal(s)
  {
    StripUnchanged(s);
  }

  /**
   * A literal with a decimal point, `w.f` with at least one digit in all, is
   * read as the digits of `w` and `f` together scaled down by one power of ten
   * per fraction digit.
   */
  lemma PointValue(w: string, f: string)
    requires IsDigits(w) && IsDigits(f) && |w| + |f| > 0
    ensures ParseFloat(w + "." + f) == Some(Scale(DigitsValue(w + f), -|f|))
  {
    var s := w + "." + f;
    SplitLiteralWithDot(w, f, "");
    assert w + "." + f + "" == s;
    PointEdges(w, f);
    ParseFloatUnsigned(s);
  }

  /** `w.f` neither starts nor ends with whitespace and has no sign. */
  lemma PointEdges(w: string, f: string)
    requires IsDigits(w) && IsDigits(f)
    ensures var s := w + "." + f;
      !IsSpace(s[0]) && !IsSpace(s[|s| - 1]) && s[0] != '+' && s[0] != '-'
  {
    var s := w + "." + f;
    if |w| > 0 {
      assert s[0] == w[0];
      DigitIsPlain(w[0]);
    }
    if |f| > 0 {
      assert s[|s| - 1] == f[|f| - 1];
      DigitIsPlain(f[|f| - 1]);
    }
  }

  /** Whether the unsigned reader succeeds depends only on the cut having a digit and the tail
      being a valid exponent. */
  lemma UnsignedDecimalDefined(u: string)
    ensures var d := SplitLiteral(u);
      ParseUnsignedDecimal(u).Some? <==> |d.whole| + |d.fraction| > 0 && ParseExponent(d.tail).Some?
  {
  }

  /** `float(text)` of a nonempty digit string is the digits' value. */
  lemma FloatOfDigits(s: string)
    requires |s| > 0 && IsDigits(s)
    ensures ParseFloat(s) == Some(DigitsValue(s) as real)
  {
    assert !IsSpace(s[0]) && !IsSpace(s[|s| - 1]);
    ParseFloatUnsigned(s);
    UnsignedOfDigits(s);
  }

  /** The unsigned literal reader reads a nonempty digit string as the digits' value. */
  lemma UnsignedOfDigits(s: string)
    requires |s| > 0 && IsDigits(s)
    ensures ParseUnsignedDecimal(s) == Some(DigitsValue(s) as real)
  {
    assert s + DotText(false) + "" + "" == s;
    SplitLiteralUnique(s, false, "", "");
    assert s + "" == s;
  }

  /** `float(text)` reads back `str(n)` of a natural number. */
  lemma FloatOfNatString(n: nat)
    ensures ParseFloat(NatToString(n)) == Some(n as real)
  {
    FloatOfDigits(NatToString(n));
    NatToStringValue(n);
  }

  /** A cut of a digits-and-dots string: the dots are the cut's own dot and the dots of the tail,
      and the tail is empty or starts with a further dot. */
  lemma DigitsAndDotsCut(s: string)
    requires forall i | 0 <= i < |s| :: IsDigit(s[i]) || s[i] == '.'
    ensures var d := SplitLiteral(s);
      && Count(s, '.') == (if d.dot then 1 else 0) + Count(d.tail, '.')
      && (|d.tail| > 0 ==> d.dot && d.tail[0] == '.' && Count(d.tail, '.') >= 1)
  {
    var d := SplitLiteral(s);
    var lead := d.whole + DotText(d.dot) + d.fraction;
    SplitLiteralParts(s);
    assert s == lead + d.tail;
    CountAppend(lead, d.tail, '.');
    CountAppend(d.whole + DotText(d.dot), d.fraction, '.');
    CountAppend(d.whole, DotText(d.dot), '.');
    CountZero(d.whole, '.');
    CountZero(d.fraction, '.');
    if |d.tail| > 0 {
      assert d.tail[0] == s[|lead|];
    }
  }

  /** When the cut consumes the whole string, it has a digit exactly when the cut has digits. */
  lemma DigitsAndDotsHasDigit(s: string)
    requires forall i | 0 <= i < |s| :: IsDigit(s[i]) || s[i] == '.'
    requires SplitLiteral(s).tail == ""
    ensures var d := SplitLiteral(s); HasDigit(s) <==> |d.whole| + |d.fraction| > 0
  {
    var d := SplitLiteral(s);
    SplitLiteralParts(s);
    assert s == d.whole + DotText(d.dot) + d.fraction;
    if |d.whole| > 0 {
      assert s[0] == d.whole[0];
    } else if |d.fraction| > 0 {
      assert s[|DotText(d.dot)|] == d.fraction[0];
    } else {
      assert s == DotText(d.dot);
    }
  }

  /**
   * A string of digits and dots, as left by the agent's reply cleaning, parses as a float
   * exactly when it has at most one dot and at least one digit.
   */
  lemma DigitsAndDotsParse(s: string)
    requires forall i | 0 <= i < |s| :: IsDigit(s[i]) || s[i] == '.'
    ensures ParseFloat(s).Some? <==> Count(s, '.') <= 1 && HasDigit(s)
  {
    ParseFloatUnsigned(s);
    DigitsAndDotsUnsigned(s);
  }

  /** The unsigned reader on digits and dots: at most one dot and at least one digit. */
  lemma DigitsAndDotsUnsigned(s: string)
    requires forall i | 0 <= i < |s| :: IsDigit(s[i]) || s[i] == '.'
    ensures ParseUnsignedDecimal(s).Some? <==> Count(s, '.') <= 1 && HasDigit(s)
  {
    if |SplitLiteral(s).tail| == 0 {
      DigitsAndDotsWhole(s);
    } else {
      DigitsAndDotsLeftover(s);
    }
  }

  /** Digits and dots the cut consumes entirely: at most one dot, read exactly when there is a digit. */
  lemma DigitsAndDotsWhole(s: string)
    requires forall i | 0 <= i < |s| :: IsDigit(s[i]) || s[i] == '.'
    requires SplitLiteral(s).tail == ""
    ensures Count(s, '.') <= 1
    ensures ParseUnsignedDecimal(s).Some? <==> HasDigit(s)
  {
    DigitsAndDotsCut(s);
    UnsignedDecimalDefined(s);
    DigitsAndDotsHasDigit(s);
    assert ParseExponent("") == Some(0);
  }

  /** Digits and dots the cut does not consume: a second dot, and nothing is read. */
  lemma DigitsAndDotsLeftover(s: string)
    requires forall i | 0 <= i < |s| :: IsDigit(s[i]) || s[i] == '.'
    requires |SplitLiteral(s).tail| > 0
    ensures Count(s, '.') >= 2 && ParseUnsignedDecimal(s).None?
  {
    DigitsAndDotsCut(s);
    UnsignedDecimalDefined(s);
    assert ParseExponent(SplitLiteral(s).tail).None?;
  }

  /** Such a string without a dot parses as the value of its digits, which is never negative. */
  lemma DigitsAndDotsValue(s: string)
    requires forall i | 0 <= i < |s| :: IsDigit(s[i]) || s[i] == '.'
    ensures ParseFloat(s).Some? ==> ParseFloat(s).value >= 0.0
    ensures Count(s, '.') == 0 && |s| > 0 ==> IsDigits(s) && ParseFloat(s) == Some(DigitsValue(s) as real)
  {
    ParseFloatUnsigned(s);
    CountZero(s, '.');
    if Count(s, '.') == 0 && |s| > 0 {
      FloatOfDigits(s);
    }
  }

  /** Python's `int(x)` for a float: truncation toward zero. */
  function Trunc(x: real): (r: int)
    ensures 0.0 <= x ==> 0 <= r && r as real <= x < r as real + 1.0
    ensures x < 0.0 ==> r <= 0 && r as real - 1.0 < x <= r as real
  {
    if x >= 0.0 then x.Floor else -((-x).Floor)
  }

  /** The nearest natural number to `y`, ties to the even neighbour (Python's float formatting rule). */
  function RoundHalfEven(y: real): (n: nat)
    requires y >= 0.0
    ensures y - 0.5 <= n as real <= y + 0.5
    ensures (n as real == y - 0.5 || n as real == y + 0.5) ==> n % 2 == 0
  {
    var f := y.Floor;
    var frac := y - f as real;
    if frac < 0.5 then f
    else if frac > 0.5 then f + 1
    else if f % 2 == 0 then f else f + 1
  }

  function Abs(x: real): (r: real)
    ensures r >= 0.0 && (r == x || r == -x)
  {
    if x < 0.0 then -x else x
  }

  /** A count of thousandths as a number. */
  function FromThousandths(n: nat): (r: real)
    ensures r >= 0.0 && r * 1000.0 == n as real
  {
    n as real / 1000.0
  }

  /** A count of tenths as a number. */
  function FromTenths(n: nat): (r: real)
    ensures r >= 0.0 && r * 10.0 == n as real
  {
    n as real / 10.0
  }

  /** `v` with a minus sign applied when `negative`. */
  function SignedValue(negative: bool, v: real): real {
    if negative then -v else v
  }

  /** `|x|` in thousandths, rounded half to even. */
  function Thousandths(x: real): (n: nat)
    ensures Abs(x) * 1000.0 - 0.5 <= n as real <= Abs(x) * 1000.0 + 0.5
  {
    RoundHalfEven(Abs(x) * 1000.0)
  }

  /** `|x|` rounded to three decimals. */
  function Magnitude3(x: real): (r: real)
    ensures Abs(x) - 0.0005 <= r <= Abs(x) + 0.0005
  {
    FromThousandths(Thousandths(x))
  }

  /** The value `format(x, '.3f')` shows: `x` rounded to three decimals, sign kept. */
  function Rounded3(x: real): (r: real)
    ensures x - 0.0005 <= r <= x + 0.0005
  {
    SignedValue(x < 0.0, Magnitude3(x))
  }

  /** Three digits, zero padded. */
  function Pad3(k: nat): (r: string)
    requires k < 1000
    ensures |r| == 3 && IsDigits(r) && DigitsValue(r) == k
  {
    var a, b, c := k / 100, k / 10 % 10, k % 10;
    var r := [DigitChar(a), DigitChar(b), DigitChar(c)];
    assert r[..2][..1] == [r[0]];
    assert r[..2][..0] == [];
    assert DigitsValue(r[..2][..1]) == a;
    assert DigitsValue(r[..2]) == 10 * a + b;
    assert DigitsValue(r) == 100 * a + 10 * b + c;
    assert k == 100 * a + 10 * b + c;
    r
  }

  /** The text of a number of thousandths `n` with three decimals, unsigned. */
  function ThousandthsText(n: nat): (r: string)
    ensures |r| > 0 && IsDigit(r[0]) && IsDigit(r[|r| - 1])
  {
    var q := NatToString(n / 1000);
    var p := Pad3(n % 1000);
    var r := q + "." + p;
    assert r[0] == q[0] && r[|r| - 1] == p[2];
    r
  }

  lemma Pow10Three()
    ensures Pow10(3) == 1000
  {
    assert Pow10(1) == 10;
    assert Pow10(2) == 100;
  }

  /** The text of `n` thousandths reads back as `n / 1000`. */
  lemma ThousandthsTextValue(n: nat)
    ensures ParseUnsignedDecimal(ThousandthsText(n)) == Some(FromThousandths(n))
  {
    var q := NatToString(n / 1000);
    var p := Pad3(n % 1000);
    assert q + DotText(true) + p + "" == ThousandthsText(n);
    SplitLiteralUnique(q, true, p, "");
    DigitsValueAppend(q, p);
    NatToStringValue(n / 1000);
    Pow10Three();
    assert DigitsValue(q + p) == n;
    assert Scale(n, -1) == n as real / 10.0;
    assert Scale(n, -2) == n as real / 100.0;
  }

  /** A literal with a leading `-` when `negative`. */
  function SignedText(negative: bool, body: string): string {
    if negative then "-" + body else body
  }

  /** The first and last characters of a signed literal whose body starts and ends with a digit. */
  lemma SignedTextEdges(negative: bool, body: string)
    requires |body| > 0 && IsDigit(body[0]) && IsDigit(body[|body| - 1])
    ensures var t := SignedText(negative, body);
      && |t| > 0 && !IsSpace(t[0]) && !IsSpace(t[|t| - 1])
      && (t[0] == '+' || t[0] == '-' <==> negative)
      && (negative ==> t[1..] == body)
      && (!negative ==> t == body)
  {
    var t := SignedText(negative, body);
    DigitIsPlain(body[0]);
    DigitIsPlain(body[|body| - 1]);
    assert t[|t| - 1] == body[|body| - 1];
  }

  /** `float(text)` of an unsigned literal that starts and ends with a digit is its value. */
  lemma ParseFloatPositive(body: string, v: real)
    requires |body| > 0 && IsDigit(body[0]) && IsDigit(body[|body| - 1])
    requires ParseUnsignedDecimal(body) == Some(v)
    ensures ParseFloat(body) == Some(v)
  {
    DigitIsPlain(body[0]);
    DigitIsPlain(body[|body| - 1]);
    ParseFloatUnsigned(body);
  }

  /** A signed literal whose unsigned body reads as `v` reads as `v` with the sign applied. */
  lemma SignedRoundTrip(negative: bool, body: string, v: real)
    requires |body| > 0 && IsDigit(body[0]) && IsDigit(body[|body| - 1])
    requires ParseUnsignedDecimal(body) == Some(v)
    ensures ParseFloat(SignedText(negative, body)) == Some(SignedValue(negative, v))
  {
    SignedTextEdges(negative, body);
    StripUnchanged(SignedText(negative, body));
  }

  /** Python's `f"{x:.3f}"`: the sign of `x`, then `|x|` rounded half-even to thousandths. */
  function Fixed3(x: real): string {
    SignedText(x < 0.0, ThousandthsText(Thousandths(x)))
  }

  /** The three-decimal text of a number parses back to the number rounded to three decimals. */
  lemma Fixed3RoundTrip(x: real)
    ensures ParseFloat(Fixed3(x)) == Some(Rounded3(x))
  {
    ThousandthsTextValue(Thousandths(x));
    SignedRoundTrip(x < 0.0, ThousandthsText(Thousandths(x)), FromThousandths(Thousandths(x)));
  }

  /** `|x|` in tenths, rounded half to even. */
  function Tenths(x: real): (n: nat)
    ensures Abs(x) * 10.0 - 0.5 <= n as real <= Abs(x) * 10.0 + 0.5
  {
    RoundHalfEven(Abs(x) * 10.0)
  }

  /** The value `format(x, '.1f')` shows: `x` rounded to one decimal, sign kept. */
  function Rounded1(x: real): (r: real)
    ensures x - 0.05 <= r <= x + 0.05
  {
    SignedValue(x < 0.0, FromTenths(Tenths(x)))
  }

  /** The text of a number of tenths `n` with one decimal, unsigned. */
  function TenthsText(n: nat): (r: string)
    ensures |r| > 0 && IsDigit(r[0]) && IsDigit(r[|r| - 1])
  {
    var q := NatToString(n / 10);
    var r := q + "." + [DigitChar(n % 10)];
    assert r[0] == q[0];
    r
  }

  /** The text of `n` tenths reads back as `n / 10`. */
  lemma TenthsTextValue(n: nat)
    ensures ParseUnsignedDecimal(TenthsText(n)) == Some(FromTenths(n))
  {
    var q := NatToString(n / 10);
    var p := [DigitChar(n % 10)];
    assert q + DotText(true) + p + "" == TenthsText(n);
    SplitLiteralUnique(q, true, p, "");
    DigitsValueAppend(q, p);
    NatToStringValue(n / 10);
    assert p[..0] == [];
    assert DigitsValue(q + p) == n;
    assert Scale(n, -1) == Scale(n, 0) / 10.0;
  }

  /** Python's `f"{x:.1f}"`: the sign of `x`, then `|x|` rounded half-even to tenths. */
  function Fixed1(x: real): string {
    SignedText(x < 0.0, TenthsText(Tenths(x)))
  }

  /** The one-decimal text of a number parses back to the number rounded to one decimal. */
  lemma Fixed1RoundTrip(x: real)
    ensures ParseFloat(Fixed1(x)) == Some(Rounded1(x))
  {
    TenthsTextValue(Tenths(x));
    SignedRoundTrip(x < 0.0, TenthsText(Tenths(x)), FromTenths(Tenths(x)));
  }

  /** Only digits, minus signs and decimal points: the characters Python prints for a number. */
  predicate NumberChars(s: string) {
    forall i | 0 <= i < |s| :: IsDigit(s[i]) || s[i] == '-' || s[i] == '.'
  }

  /** A number's text holds no comma. */
  lemma NumberCharsCommaFree(s: string)
    requires NumberChars(s)
    ensures Count(s, ',') == 0
  {
    CountZero(s, ',');
  }

  /** `str(i)` is made of number characters and starts and ends with one that is not whitespace. */
  lemma IntToStringChars(i: int)
    ensures var s := IntToString(i); NumberChars(s) && |s| > 0 && !IsSpace(s[0]) && !IsSpace(s[|s| - 1])
  {
    IntToStringEdges(i);
  }

  /** `f"{x:.1f}"` is made of number characters. */
  lemma Fixed1Chars(x: real)
    ensures NumberChars(Fixed1(x))
  {
    var body := TenthsText(Tenths(x));
    assert NumberChars(body) by {
      var q := NatToString(Tenths(x) / 10);
      assert body == q + "." + [DigitChar(Tenths(x) % 10)];
    }
  }

  /** Python's `format(n, ',')` for a natural number: its digits in groups of three, separated by commas. */
  function GroupedNat(n: nat): (r: string)
    ensures |r| > 0
  {
    if n < 1000 then NatToString(n) else GroupedNat(n / 1000) + "," + Pad3(n % 1000)
  }

  /** Python's `format(i, ',')` for an integer. */
  function Grouped(i: int): string {
    if i < 0 then "-" + GroupedNat(-i) else GroupedNat(i)
  }

  /** The text with its commas removed. */
  function Uncomma(s: string): string {
    if |s| == 0 then "" else (if s[0] == ',' then "" else [s[0]]) + Uncomma(s[1..])
  }

  lemma {:induction false} UncommaAppend(a: string, b: string)
    ensures Uncomma(a + b) == Uncomma(a) + Uncomma(b)
  {
    if |a| == 0 {
      assert a + b == b;
    } else {
      assert (a + b)[1..] == a[1..] + b;
      UncommaAppend(a[1..], b);
    }
  }

  lemma {:induction false} UncommaDigits(s: string)
    requires IsDigits(s)
    ensures Uncomma(s) == s
  {
    if |s| > 0 {
      UncommaDigits(s[1..]);
    }
  }

  /** The grouping only inserts commas: without them the text is the digits of `n`. */
  lemma {:induction false} GroupedNatDigits(n: nat)
    ensures IsDigits(Uncomma(GroupedNat(n))) && DigitsValue(Uncomma(GroupedNat(n))) == n
  {
    if n < 1000 {
      UncommaDigits(NatToString(n));
      NatToStringValue(n);
    } else {
      var front := GroupedNat(n / 1000);
      var p := Pad3(n % 1000);
      GroupedNatDigits(n / 1000);
      UncommaAppend(front + ",", p);
      UncommaAppend(front, ",");
      UncommaDigits(p);
      assert Uncomma(GroupedNat(n)) == Uncomma(front) + p;
      DigitsValueAppend(Uncomma(front), p);
      Pow10Three();
    }
  }
}
