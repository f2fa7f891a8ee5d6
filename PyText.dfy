/**
  The Python built-ins the invoice layer leans on, restricted to what the
  model needs: `int(text)`, `Decimal(text)`, `str(int)`, `round(Decimal)` and
  `str.upper` on ASCII letters.
*/
module PyText {
  import opened Wrappers

  predicate IsDigit(c: char) {
    '0' <= c <= '9'
  }

  predicate AllDigits(s: string) {
    forall i :: 0 <= i < |s| ==> IsDigit(s[i])
  }

  function DigitValue(c: char): (d: nat)
    requires IsDigit(c)
    ensures d < 10
  {
    c as int - '0' as int
  }

  function DigitChar(d: nat): (c: char)
    requires d < 10
    ensures IsDigit(c) && DigitValue(c) == d
  {
    ('0' as int + d) as char
  }

  /** The value of a run of decimal digits, most significant first. */
  function DigitsValue(s: string): nat
    requires AllDigits(s)
    decreases |s|
  {
    if s == [] then 0 else DigitsValue(s[..|s| - 1]) * 10 + DigitValue(s[|s| - 1])
  }

  function Pow10(n: nat): (p: nat)
    ensures p >= 1
  {
    if n == 0 then 1 else 10 * Pow10(n - 1)
  }

  /** The decimal spelling of a natural number, without leading zeros. */
  function NatToString(n: nat): (s: string)
    ensures |s| > 0 && AllDigits(s)
    ensures DigitsValue(s) == n
    ensures s[0] == '0' ==> n == 0
    decreases n
  {
    if n < 10 then [DigitChar(n)]
    else
      var front := NatToString(n / 10);
      var s := front + [DigitChar(n % 10)];
      assert s[..|s| - 1] == front;
      s
  }

  /** `str(i)` for a Python int. */
  function IntToString(i: int): string {
    if i < 0 then "-" + NatToString(-i) else NatToString(i)
  }

  /** The texts `int()` reads: one or more ASCII digits, after at most one leading sign. */
  predicate SignedDigits(s: string) {
    && |s| > 0
    && (IsDigit(s[0]) || (|s| > 1 && (s[0] == '-' || s[0] == '+')))
    && AllDigits(s[1..])
  }

  /** `int(text)`: an optional sign followed by one or more digits; None where Python raises ValueError. */
  function ParseInt(s: string): Option<int> {
    if |s| > 0 && (s[0] == '-' || s[0] == '+') then
      var ds := s[1..];
      if |ds| > 0 && AllDigits(ds) then Some(if s[0] == '-' then -(DigitsValue(ds) as int) else DigitsValue(ds) as int)
      else None
    else if |s| > 0 && AllDigits(s) then Some(DigitsValue(s))
    else None
  }

  /** `int()` raises exactly on the texts that are not signed digits. */
  lemma ParseIntSucceedsIff(s: string)
    ensures ParseInt(s).Some? <==> SignedDigits(s)
  {
    if |s| > 0 && IsDigit(s[0]) && AllDigits(s[1..]) {
      assert forall i :: 0 < i < |s| ==> s[i] == s[1..][i - 1];
    }
    if |s| > 0 && AllDigits(s) {
      assert forall i :: 0 <= i < |s| - 1 ==> s[1..][i] == s[i + 1];
    }
  }

  /** `int(str(i)) == i`: the spelling of an integer reads back as that integer. */
  lemma ParseIntToString(i: int)
    ensures ParseInt(IntToString(i)) == Some(i)
  {
    if i < 0 {
      assert IntToString(i)[1..] == NatToString(-i);
    }
  }

  /** The index of the first `c` in `s`, or `|s|` when there is none. */
  function IndexOf(s: string, c: char): (k: nat)
    ensures k <= |s|
    ensures k < |s| ==> s[k] == c
    ensures forall j :: 0 <= j < k ==> s[j] != c
    decreases |s|
  {
    if s == [] then 0
    else if s[0] == c then 0
    else 1 + IndexOf(s[1..], c)
  }

  /**
    `Decimal(text)` for plain decimal notation: an optional sign, digits, and an
    optional fraction after one '.', with at least one digit in all. None where
    Decimal raises InvalidOperation.
  */
  function ParseDecimal(s: string): Option<real> {
    var negative := |s| > 0 && s[0] == '-';
    var body := Unsigned(s);
    if SplitsAsDecimal(body) then
      var v := DecimalValue(WholePart(body), FractionPart(body));
      Some(if negative then -v else v)
    else None
  }

  /** A text with its one leading sign, if any, removed. */
  function Unsigned(s: string): (b: string)
    ensures |b| <= |s|
  {
    if |s| > 0 && (s[0] == '-' || s[0] == '+') then s[1..] else s
  }

  /**
    The plain decimal texts `Decimal()` reads: after at most one leading sign,
    only digits and points, no more than one point, and at least one digit.
  */
  predicate DecimalText(s: string) {
    DecimalBody(Unsigned(s))
  }

  /** The value of `whole.fraction` in decimal notation. */
  function DecimalValue(whole: string, fraction: string): real
    requires AllDigits(whole) && AllDigits(fraction)
  {
    DigitsValue(whole) as real + DigitsValue(fraction) as real / Pow10(|fraction|) as real
  }

  /** In digits, a point and digits, the first point is the one between the two runs. */
  lemma PointSplits(whole: string, fraction: string)
    requires AllDigits(whole)
    ensures var s := whole + "." + fraction;
      IndexOf(s, '.') == |whole| && s[..|whole|] == whole && s[|whole| + 1..] == fraction
  {
    var s := whole + "." + fraction;
    assert s[|whole|] == '.';
    assert forall j :: 0 <= j < |whole| ==> s[j] == whole[j] && s[j] != '.';
    assert s[..|whole|] == whole;
    assert s[|whole| + 1..] == fraction;
  }

  /**
    Digits, a point and digits read as the whole part plus the fraction;
    either run may be empty, but not both (".5" is 0.5, "2." is 2).
  */
  lemma ParseDecimalPoint(whole: string, fraction: string)
    requires |whole| + |fraction| > 0 && AllDigits(whole) && AllDigits(fraction)
    ensures ParseDecimal(whole + "." + fraction) == Some(DecimalValue(whole, fraction))
  {
    var s := whole + "." + fraction;
    assert s[0] == (if |whole| > 0 then whole[0] else '.');
    assert s[0] != '-' && s[0] != '+';
    PointSplits(whole, fraction);
  }

  /** A leading '-' negates the value of digits, a point and digits; a leading '+' keeps it. */
  lemma ParseDecimalSignedPoint(whole: string, fraction: string)
    requires |whole| + |fraction| > 0 && AllDigits(whole) && AllDigits(fraction)
    ensures ParseDecimal("-" + whole + "." + fraction) == Some(-DecimalValue(whole, fraction))
    ensures ParseDecimal("+" + whole + "." + fraction) == Some(DecimalValue(whole, fraction))
  {
    var t := whole + "." + fraction;
    ParseDecimalPoint(whole, fraction);
    assert t[0] == (if |whole| > 0 then whole[0] else '.');
    assert Unsigned(t) == t;
    assert "-" + whole + "." + fraction == "-" + t && ("-" + t)[1..] == t;
    assert "+" + whole + "." + fraction == "+" + t && ("+" + t)[1..] == t;
  }

  /** The digits before the first point of `b`. */
  function WholePart(b: string): string {
    b[..IndexOf(b, '.')]
  }

  /** The characters after the first point of `b`; empty without a point. */
  function FractionPart(b: string): string {
    var k := IndexOf(b, '.');
    if k < |b| then b[k + 1..] else []
  }

  /** Both runs around the first point are digits, and one of them is not empty. */
  predicate SplitsAsDecimal(b: string) {
    AllDigits(WholePart(b)) && AllDigits(FractionPart(b)) && |WholePart(b)| + |FractionPart(b)| > 0
  }

  /** Digits, points and at least one digit, with no second point. */
  predicate DecimalBody(b: string) {
    && (forall i :: 0 <= i < |b| ==> IsDigit(b[i]) || b[i] == '.')
    && (forall i, j :: 0 <= i < j < |b| && b[i] == '.' ==> b[j] != '.')
    && (exists i :: 0 <= i < |b| && IsDigit(b[i]))
  }

  lemma SplitsAsDecimalIsBody(b: string)
    requires SplitsAsDecimal(b)
    ensures DecimalBody(b)
  {
    var k := IndexOf(b, '.');
    var whole, fraction := WholePart(b), FractionPart(b);
    assert forall i :: 0 <= i < k ==> b[i] == whole[i];
    assert forall i :: k < i < |b| ==> b[i] == fraction[i - k - 1];
    if |whole| > 0 {
      assert IsDigit(b[0]);
    } else {
      assert IsDigit(b[k + 1]);
    }
  }

  lemma BodySplitsAsDecimal(b: string)
    requires DecimalBody(b)
    ensures SplitsAsDecimal(b)
  {
    var k := IndexOf(b, '.');
    var whole, fraction := WholePart(b), FractionPart(b);
    assert forall i :: 0 <= i < k ==> whole[i] == b[i];
    assert forall i :: 0 <= i < |fraction| ==> fraction[i] == b[k + 1 + i];
    var i :| 0 <= i < |b| && IsDigit(b[i]);
    assert i < k ==> |whole| > 0;
    assert i > k ==> |fraction| > 0;
  }

  /** `Decimal()` raises exactly on the texts that are not plain decimal notation. */
  lemma ParseDecimalSucceedsIff(s: string)
    ensures ParseDecimal(s).Some? <==> DecimalText(s)
  {
    var b := Unsigned(s);
    assert ParseDecimal(s).Some? <==> SplitsAsDecimal(b);
    assert DecimalText(s) <==> DecimalBody(b);
    if SplitsAsDecimal(b) {
      SplitsAsDecimalIsBody(b);
    }
    if DecimalBody(b) {
      BodySplitsAsDecimal(b);
    }
  }

  /** Every text `int()` accepts, `Decimal()` accepts too, with the same value. */
  lemma ParseDecimalExtendsParseInt(s: string)
    requires ParseInt(s).Some?
    ensures ParseDecimal(s) == Some(ParseInt(s).value as real)
  {
    var body := if |s| > 0 && (s[0] == '-' || s[0] == '+') then s[1..] else s;
    assert AllDigits(body);
    assert IndexOf(body, '.') == |body|;
    assert body[..|body|] == body;
  }

  /** `round(x)` for a Decimal `x`: the nearest integer, ties to the even one. */
  function RoundHalfEven(x: real): (r: int)
    ensures x - 0.5 <= r as real <= x + 0.5
    ensures (r as real == x - 0.5 || r as real == x + 0.5) ==> r % 2 == 0
  {
    var f := x.Floor;
    var d := x - f as real;
    if d < 0.5 then f
    else if d > 0.5 then f + 1
    else if f % 2 == 0 then f
    else f + 1
  }

  /** An integer rounds to itself. */
  lemma RoundInteger(n: int)
    ensures RoundHalfEven(n as real) == n
  {
  }

  predicate IsLower(c: char) {
    'a' <= c <= 'z'
  }

  function UpperChar(c: char): (u: char)
    ensures !IsLower(u)
    ensures IsLower(c) ==> u as int == c as int - 32
    ensures !IsLower(c) ==> u == c
  {
    if IsLower(c) then (c as int - 32) as char else c
  }

  /** `str.upper()` on ASCII letters; every other character is kept. */
  function AsciiUpper(s: string): (r: string)
    ensures |r| == |s|
    ensures forall i :: 0 <= i < |s| ==> !IsLower(r[i])
    ensures forall i :: 0 <= i < |s| && IsLower(s[i]) ==> r[i] as int == s[i] as int - 32
    ensures forall i :: 0 <= i < |s| && !IsLower(s[i]) ==> r[i] == s[i]
  {
    seq(|s|, i requires 0 <= i < |s| => UpperChar(s[i]))
  }

  /** Upper-casing twice is upper-casing once. */
  lemma AsciiUpperIdempotent(s: string)
    ensures AsciiUpper(AsciiUpper(s)) == AsciiUpper(s)
  {
  }

  /** Text without lower-case letters is left as it is. */
  lemma AsciiUpperKeeps(s: string)
    requires forall i :: 0 <= i < |s| ==> !IsLower(s[i])
    ensures AsciiUpper(s) == s
  {
  }
}
