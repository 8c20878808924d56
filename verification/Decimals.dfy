/**
 Python `Decimal` and `UUID` values and the text the canonical encoder gives
 them: `format(d.normalize(), "f")` and `str(u)`. Decimals are finite, carry at
 most 28 significant digits, so that `normalize` does not round, and no
 negative zero.
 */
module Decimals {
  import opened JsonText

  /** The number `(-1)^negative * coefficient * 10^exponent`. */
  datatype Decimal = Decimal(negative: bool, coefficient: nat, exponent: int)

  const MAX_COEFFICIENT: nat := 10_000_000_000_000_000_000_000_000_000

  predicate IsPlain(d: Decimal) {
    d.coefficient < MAX_COEFFICIENT && (d.negative ==> d.coefficient != 0)
  }

  type PlainDecimal = d: Decimal | IsPlain(d) witness Decimal(false, 0, 0)

  ghost function Signed(d: Decimal): int {
    if d.negative then -(d.coefficient as int) else d.coefficient
  }

  function Pow10(n: nat): (p: nat)
    ensures p > 0
  {
    if n == 0 then 1 else 10 * Pow10(n - 1)
  }

  /** The number `d` in units of `10^unit`. */
  ghost function InUnits(d: Decimal, unit: int): int
    requires unit <= d.exponent
  {
    Signed(d) * Pow10(d.exponent - unit)
  }

  /** The two decimals stand for the same number. */
  ghost predicate SameNumber(a: Decimal, b: Decimal) {
    var unit := if a.exponent < b.exponent then a.exponent else b.exponent;
    InUnits(a, unit) == InUnits(b, unit)
  }

  /** `Decimal.normalize`: no trailing zeros; zero gets exponent 0. */
  function Normalize(d: Decimal): Decimal
    decreases d.coefficient
  {
    if d.coefficient == 0 then Decimal(d.negative, 0, 0)
    else if d.coefficient % 10 == 0 then Normalize(Decimal(d.negative, d.coefficient / 10, d.exponent + 1))
    else d
  }

  function Zeros(n: nat): (s: string)
    ensures |s| == n && forall c | c in s :: c == '0'
  {
    seq(n, _ => '0')
  }

  /** `format(d, "f")` of the magnitude of a normalised decimal. */
  function FixedText(coefficient: nat, exponent: int): string {
    var ds := Digits(coefficient);
    if exponent >= 0 then ds + Zeros(exponent)
    else
      var k := -exponent;
      if k < |ds| then ds[..|ds| - k] + "." + ds[|ds| - k..]
      else "0." + Zeros(k - |ds|) + ds
  }

  function DecimalText(d: Decimal): string {
    var n := Normalize(d);
    (if n.negative then "-" else "") + FixedText(n.coefficient, n.exponent)
  }

  /** Reads a fixed-point text back as a decimal whose exponent is minus its fraction length. */
  function ReadFixed(s: string): Decimal {
    var negative := Ahead(s, '-');
    var body := if negative then s[1..] else s;
    var (whole, rest) := ReadDigits(body, 0);
    if Ahead(rest, '.') then Decimal(negative, ReadDigits(rest[1..], whole).0, 1 - |rest|)
    else Decimal(negative, whole, 0)
  }

  // ---------------------------------------------------------------- values

  lemma TenFactor(y: int, p: nat, q: nat)
    requires p == 10 * q
    ensures y * p == (10 * y) * q == 10 * (y * q)
  {
  }

  lemma ProductOfThree(x: int, y: int, z: int)
    ensures x * (y * z) == (x * y) * z
  {
  }

  lemma {:induction false} Pow10Sum(m: nat, n: nat)
    ensures Pow10(m + n) == Pow10(m) * Pow10(n)
  {
    if m > 0 {
      Pow10Sum(m - 1, n);
      ProductOfThree(10, Pow10(m - 1), Pow10(n));
    }
  }

  lemma ZeroProduct(d: int, p: nat)
    requires p > 0
    ensures d * p == 0 <==> d == 0
  {
    if d > 0 {
      assert d * p > 0;
    } else if d < 0 {
      assert d * p < 0;
    }
  }

  lemma {:induction false} Cancel(x: int, y: int, p: nat)
    requires p > 0 && x * p == y * p
    ensures x == y
  {
    ZeroProduct(x - y, p);
    assert (x - y) * p == x * p - y * p;
  }

  predicate Reduced(d: Decimal) { d.coefficient % 10 != 0 }

  lemma {:induction false} NormalizeReduces(d: Decimal)
    ensures Normalize(d).negative == d.negative
    ensures d.coefficient == 0 ==> Normalize(d) == Decimal(d.negative, 0, 0)
    ensures d.coefficient != 0 ==> Reduced(Normalize(d)) && Normalize(d).exponent >= d.exponent
    decreases d.coefficient
  {
    if d.coefficient != 0 && d.coefficient % 10 == 0 {
      NormalizeReduces(Decimal(d.negative, d.coefficient / 10, d.exponent + 1));
    }
  }

  lemma {:induction false} NormalizeKeepsNumber(d: Decimal, unit: int)
    requires d.coefficient != 0 && unit <= d.exponent
    ensures Normalize(d).exponent >= unit && InUnits(Normalize(d), unit) == InUnits(d, unit)
    decreases d.coefficient
  {
    if d.coefficient % 10 == 0 {
      var up := Decimal(d.negative, d.coefficient / 10, d.exponent + 1);
      NormalizeKeepsNumber(up, unit);
      assert Signed(d) == 10 * Signed(up);
      TenFactor(Signed(up), Pow10(up.exponent - unit), Pow10(d.exponent - unit));
    }
  }

  lemma {:induction false} EndsInZero(c: nat, x: int, y: int, n: nat)
    requires n > 0 && x == y * Pow10(n) && (x == c || x == -(c as int))
    ensures c % 10 == 0
  {
    TenFactor(y, Pow10(n), Pow10(n - 1));
    var q := y * Pow10(n - 1);
    assert c == 10 * (if x == c then q else -q);
  }

  /** A number has one exponent at which its coefficient does not end in zero. */
  lemma {:induction false} ReducedUnique(a: Decimal, b: Decimal, unit: int)
    requires Reduced(a) && Reduced(b) && unit <= a.exponent <= b.exponent
    requires InUnits(a, unit) == InUnits(b, unit)
    ensures a == b
  {
    var n, p := b.exponent - a.exponent, Pow10(a.exponent - unit);
    Pow10Sum(n, a.exponent - unit);
    ProductOfThree(Signed(b), Pow10(n), p);
    Cancel(Signed(a), Signed(b) * Pow10(n), p);
    if n > 0 {
      EndsInZero(a.coefficient, Signed(a), Signed(b), n);
    }
  }

  lemma NonZeroUnits(d: Decimal, unit: int)
    requires unit <= d.exponent
    ensures InUnits(d, unit) == 0 <==> d.coefficient == 0
  {
    if d.coefficient != 0 && InUnits(d, unit) == 0 {
      Cancel(Signed(d), 0, Pow10(d.exponent - unit));
    }
  }

  /** Normalising decides equality of numbers. */
  lemma {:induction false} NormalizeDecides(a: Decimal, b: Decimal)
    requires IsPlain(a) && IsPlain(b)
    ensures Normalize(a) == Normalize(b) <==> SameNumber(a, b)
  {
    var unit := if a.exponent < b.exponent then a.exponent else b.exponent;
    NonZeroUnits(a, unit);
    NonZeroUnits(b, unit);
    NormalizeReduces(a);
    NormalizeReduces(b);
    if a.coefficient != 0 && b.coefficient != 0 {
      NormalizeKeepsNumber(a, unit);
      NormalizeKeepsNumber(b, unit);
      var m, n := Normalize(a), Normalize(b);
      if SameNumber(a, b) {
        if m.exponent <= n.exponent {
          ReducedUnique(m, n, unit);
        } else {
          ReducedUnique(n, m, unit);
        }
      }
    }
  }

  // ---------------------------------------------------------------- text

  predicate AllDigits(s: string) { forall c | c in s :: IsDigit(c) }

  function DigitsValue(s: string, acc: nat): nat
    requires AllDigits(s)
  {
    if s == "" then acc else DigitsValue(s[1..], 10 * acc + DigitOf(s[0]))
  }

  lemma {:induction false} ReadAllDigits(s: string, rest: string, acc: nat)
    requires AllDigits(s)
    ensures ReadDigits(s + rest, acc) == ReadDigits(rest, DigitsValue(s, acc))
  {
    if s == "" {
      assert s + rest == rest;
    } else {
      assert (s + rest)[1..] == s[1..] + rest;
      ReadAllDigits(s[1..], rest, 10 * acc + DigitOf(s[0]));
    }
  }

  lemma {:induction false} DigitsValueConcat(s: string, t: string, acc: nat)
    requires AllDigits(s) && AllDigits(t)
    ensures AllDigits(s + t)
    ensures DigitsValue(s + t, acc) == DigitsValue(t, DigitsValue(s, acc))
  {
    if s == "" {
      assert s + t == t;
    } else {
      assert (s + t)[1..] == s[1..] + t;
      DigitsValueConcat(s[1..], t, 10 * acc + DigitOf(s[0]));
    }
  }

  lemma DigitsValueOfDigits(n: nat)
    ensures AllDigits(Digits(n)) && DigitsValue(Digits(n), 0) == n
  {
    DigitsAreDigits(n);
    ReadDigitsOfDigits(n, "");
    ReadAllDigits(Digits(n), "", 0);
  }

  lemma {:induction false} DigitsValueOfZeros(n: nat, acc: nat)
    ensures DigitsValue(Zeros(n), acc) == acc * Pow10(n)
  {
    if n > 0 {
      assert Zeros(n)[1..] == Zeros(n - 1);
      DigitsValueOfZeros(n - 1, 10 * acc);
      TenFactor(acc, Pow10(n), Pow10(n - 1));
    }
  }

  lemma ReadFixedWhole(ds: string)
    requires AllDigits(ds)
    ensures ReadFixed(ds) == Decimal(false, DigitsValue(ds, 0), 0)
  {
    ReadAllDigits(ds, "", 0);
    assert ds + "" == ds;
    if ds != "" {
      assert ds[0] in ds;
    }
  }

  lemma {:induction false} ReadFixedPoint(whole: string, part: string)
    requires AllDigits(whole) && AllDigits(part) && whole != ""
    ensures AllDigits(whole + part)
    ensures ReadFixed(whole + "." + part) == Decimal(false, DigitsValue(whole + part, 0), -|part|)
  {
    var tail := "." + part;
    assert whole + "." + part == whole + tail;
    assert whole[0] in whole;
    ReadAllDigits(whole, tail, 0);
    assert tail[1..] == part;
    ReadAllDigits(part, "", DigitsValue(whole, 0));
    assert part + "" == part;
    DigitsValueConcat(whole, part, 0);
  }

  lemma ReadFixedOfFixedText(c: nat, e: int)
    ensures ReadFixed(FixedText(c, e)) == if e >= 0 then Decimal(false, c * Pow10(e), 0) else Decimal(false, c, e)
    ensures FixedText(c, e) != "" && IsDigit(FixedText(c, e)[0])
  {
    var ds := Digits(c);
    DigitsValueOfDigits(c);
    DigitsAreDigits(c);
    assert ds[0] in ds;
    if e >= 0 {
      DigitsValueConcat(ds, Zeros(e), 0);
      DigitsValueOfZeros(e, c);
      ReadFixedWhole(ds + Zeros(e));
    } else if -e < |ds| {
      var k := |ds| + e;
      assert ds[..k][0] in ds;
      ReadFixedPoint(ds[..k], ds[k..]);
      assert ds[..k] + ds[k..] == ds;
    } else {
      var pad := Zeros(-e - |ds|);
      DigitsValueConcat(pad, ds, 0);
      DigitsValueOfZeros(-e - |ds|, 0);
      DigitsValueConcat("0", pad + ds, 0);
      ReadFixedPoint("0", pad + ds);
      assert "0." + pad + ds == "0" + "." + (pad + ds);
    }
  }

  lemma ReadFixedSign(text: string)
    requires text != "" && IsDigit(text[0])
    ensures !ReadFixed(text).negative
    ensures ReadFixed("-" + text) == ReadFixed(text).(negative := true)
  {
    assert ("-" + text)[1..] == text;
  }

  /** The fixed-point reading of a decimal's text, at exponent 0 when there is no point. */
  lemma {:induction false} ReadFixedOfText(d: Decimal)
    ensures ReadFixed(DecimalText(d)) ==
            var n := Normalize(d);
            if n.exponent >= 0 then Decimal(d.negative, n.coefficient * Pow10(n.exponent), 0) else n
  {
    var n := Normalize(d);
    NormalizeReduces(d);
    ReadFixedOfFixedText(n.coefficient, n.exponent);
    var text := FixedText(n.coefficient, n.exponent);
    ReadFixedSign(text);
    assert DecimalText(d) == if n.negative then "-" + text else text;
  }

  lemma TextDecidesNormal(a: Decimal, b: Decimal)
    requires IsPlain(a) && IsPlain(b) && DecimalText(a) == DecimalText(b)
    ensures Normalize(a) == Normalize(b)
  {
    ReadFixedOfText(a);
    ReadFixedOfText(b);
    NormalizeReduces(a);
    NormalizeReduces(b);
    var m, n := Normalize(a), Normalize(b);
    if m.exponent >= 0 {
      assert m.coefficient * Pow10(m.exponent) == n.coefficient * Pow10(n.exponent);
      SameWhole(m, n);
      WholeIsZero(m);
      WholeIsZero(n);
      if m.coefficient != 0 {
        if m.exponent <= n.exponent { ReducedUnique(m, n, 0); } else { ReducedUnique(n, m, 0); }
      }
    }
  }

  lemma SameWhole(m: Decimal, n: Decimal)
    requires m.exponent >= 0 && n.exponent >= 0 && m.negative == n.negative
    requires m.coefficient * Pow10(m.exponent) == n.coefficient * Pow10(n.exponent)
    ensures InUnits(m, 0) == InUnits(n, 0)
  {
  }

  lemma WholeIsZero(m: Decimal)
    requires m.exponent >= 0
    ensures m.coefficient * Pow10(m.exponent) == 0 <==> m.coefficient == 0
  {
    if m.coefficient != 0 && m.coefficient * Pow10(m.exponent) == 0 {
      Cancel(m.coefficient, 0, Pow10(m.exponent));
    }
  }

  /** Equal numbers get equal text, and different numbers never do. */
  lemma DecimalTextExact(a: Decimal, b: Decimal)
    requires IsPlain(a) && IsPlain(b)
    ensures DecimalText(a) == DecimalText(b) <==> SameNumber(a, b)
  {
    NormalizeDecides(a, b);
    if DecimalText(a) == DecimalText(b) {
      TextDecidesNormal(a, b);
    }
  }

  lemma WholeNumber(n: Decimal, unit: int)
    requires 0 <= n.exponent && unit <= 0
    ensures InUnits(Decimal(n.negative, n.coefficient * Pow10(n.exponent), 0), unit) == InUnits(n, unit)
  {
    Pow10Sum(n.exponent, -unit);
    ProductOfThree(Signed(n), Pow10(n.exponent), Pow10(-unit));
    assert Signed(Decimal(n.negative, n.coefficient * Pow10(n.exponent), 0)) == Signed(n) * Pow10(n.exponent);
  }

  /** What a reader of fixed-point notation makes of a decimal's text is the same number. */
  lemma {:induction false} DecimalTextReads(d: Decimal)
    ensures SameNumber(ReadFixed(DecimalText(d)), d)
  {
    var n := Normalize(d);
    ReadFixedOfText(d);
    NormalizeReduces(d);
    if d.coefficient == 0 {
      assert Pow10(0) == 1;
    } else {
      var unit := if d.exponent < 0 then d.exponent else 0;
      NormalizeKeepsNumber(d, d.exponent);
      if n.exponent >= 0 {
        NormalizeKeepsNumber(d, unit);
        WholeNumber(n, unit);
      }
    }
  }

  // ---------------------------------------------------------------- UUIDs

  /** A UUID as its 32 hexadecimal digits. */
  type Uuid = u: seq<nat> | |u| == 32 && forall i | 0 <= i < 32 :: u[i] < 16 witness seq(32, _ => 0)

  function HexText(u: seq<nat>): (s: string)
    requires forall i | 0 <= i < |u| :: u[i] < 16
    ensures |s| == |u|
  {
    seq(|u|, i requires 0 <= i < |u| => HexChar(u[i]))
  }

  function UuidText(u: Uuid): string {
    HexText(u[..8]) + "-" + HexText(u[8..12]) + "-" + HexText(u[12..16]) + "-" + HexText(u[16..20]) + "-" +
      HexText(u[20..])
  }

  /** The digits a text of hexadecimal digits stands for; none if some character is no lower-case digit. */
  function ReadHex(s: string): Option<seq<nat>> {
    if s == "" then Some([])
    else match (ReadHex(s[..|s| - 1]), HexOf(s[|s| - 1]))
      case (Some(ds), Some(d)) => Some(ds + [d])
      case _ => None
  }

  /** Reads a UUID written in groups of 8, 4, 4, 4 and 12 digits (section 4 of RFC 9562). */
  function ReadUuid(s: string): Option<seq<nat>> {
    if |s| == 36 && s[8] == '-' && s[13] == '-' && s[18] == '-' && s[23] == '-'
    then ReadHex(s[..8] + s[9..13] + s[14..18] + s[19..23] + s[24..])
    else None
  }

  lemma {:induction false} ReadHexOfText(u: seq<nat>)
    requires forall i | 0 <= i < |u| :: u[i] < 16
    ensures ReadHex(HexText(u)) == Some(u)
  {
    if u != [] {
      var n := |u| - 1;
      ReadHexOfText(u[..n]);
      HexOfHexChar(u[n]);
      assert HexText(u)[..n] == HexText(u[..n]);
      assert u[..n] + [u[n]] == u;
    }
  }

  lemma UuidTextReads(u: Uuid)
    ensures ReadUuid(UuidText(u)) == Some(u)
  {
    var s := UuidText(u);
    assert s[..8] == HexText(u[..8]) && s[9..13] == HexText(u[8..12]) && s[14..18] == HexText(u[12..16]);
    assert s[19..23] == HexText(u[16..20]) && s[24..] == HexText(u[20..]);
    assert s[..8] + s[9..13] + s[14..18] + s[19..23] + s[24..] == HexText(u);
    ReadHexOfText(u);
  }

  /** Where digit `i` stands in the hyphenated text. */
  function UuidIndex(i: nat): nat {
    i + (if i < 8 then 0 else if i < 12 then 1 else if i < 16 then 2 else if i < 20 then 3 else 4)
  }

  lemma UuidTextInjective(u: Uuid, v: Uuid)
    ensures UuidText(u) == UuidText(v) <==> u == v
  {
    if UuidText(u) == UuidText(v) {
      forall i | 0 <= i < 32 ensures u[i] == v[i] {
        assert UuidText(u)[UuidIndex(i)] == HexChar(u[i]);
        assert UuidText(v)[UuidIndex(i)] == HexChar(v[i]);
        HexOfHexChar(u[i]);
        HexOfHexChar(v[i]);
      }
    }
  }
}
