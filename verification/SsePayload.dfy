/**
 What a client can read back from an event's payload: every field of the event,
 leaf by leaf, with ids and numbers recovered from their texts.
 */
module SsePayload {
  import opened JsonText
  import opened Decimals
  import opened SseLines
  import opened SseWire

  // ---------------------------------------------------------------- Python's reading of a number

  /** The power of ten at the end of a number's text. */
  function ReadPower(s: string): int {
    if |s| < 2 || s[0] != 'E' then 0
    else if s[1] == '-' then -(ReadDigits(s[2..], 0).0 as int)
    else ReadDigits(s[2..], 0).0
  }

  /** `Decimal(text)` for a text of digits with an optional point and an optional power of ten. */
  function ReadMagnitude(s: string): Decimal {
    var (whole, rest) := ReadDigits(s, 0);
    if Ahead(rest, '.') then
      var (all, power) := ReadDigits(rest[1..], whole);
      Decimal(false, all, ReadPower(power) - (|rest| - 1 - |power|))
    else Decimal(false, whole, ReadPower(rest))
  }

  function ReadDecimal(s: string): Decimal {
    if Ahead(s, '-') then ReadMagnitude(s[1..]).(negative := true) else ReadMagnitude(s)
  }

  lemma ReadDigitsText(n: nat)
    ensures ReadDigits(Digits(n), 0).0 == n
  {
    DigitsValueOfDigits(n);
    ReadAllDigits(Digits(n), "", 0);
    assert Digits(n) + "" == Digits(n);
  }

  lemma PowerReads(power: int)
    ensures ReadPower(PowerText(power)) == power
    ensures NoDigitAhead(PowerText(power)) && !Ahead(PowerText(power), '.')
  {
    if power > 0 {
      ReadDigitsText(power);
      assert PowerText(power)[2..] == Digits(power);
    } else if power < 0 {
      ReadDigitsText(-power);
      assert PowerText(power)[2..] == Digits(-power);
    }
  }

  lemma {:induction false} WholeReads(whole: string, power: int)
    requires AllDigits(whole)
    ensures ReadMagnitude(whole + PowerText(power)) == Decimal(false, DigitsValue(whole, 0), power)
  {
    PowerReads(power);
    ReadAllDigits(whole, PowerText(power), 0);
  }

  lemma Regroup(whole: string, part: string, power: string)
    ensures whole + "." + part + power == whole + ("." + (part + power))
    ensures ("." + (part + power))[1..] == part + power
  {
  }

  lemma {:induction false} PartReads(part: string, power: int, acc: nat)
    requires AllDigits(part)
    ensures ReadDigits(part + PowerText(power), acc) == (DigitsValue(part, acc), PowerText(power))
  {
    PowerReads(power);
    ReadAllDigits(part, PowerText(power), acc);
  }

  lemma {:induction false} PointReads(whole: string, part: string, power: int)
    requires AllDigits(whole) && AllDigits(part)
    ensures AllDigits(whole + part)
    ensures ReadMagnitude(whole + "." + part + PowerText(power)) ==
            Decimal(false, DigitsValue(whole + part, 0), power - |part|)
  {
    var tail := "." + (part + PowerText(power));
    Regroup(whole, part, PowerText(power));
    DigitsValueConcat(whole, part, 0);
    ReadAllDigits(whole, tail, 0);
    PartReads(part, power, DigitsValue(whole, 0));
    PowerReads(power);
    ReadAtPoint(whole + tail, DigitsValue(whole, 0), tail);
  }

  lemma ReadAtPoint(s: string, whole: nat, rest: string)
    requires ReadDigits(s, 0) == (whole, rest) && Ahead(rest, '.')
    ensures var (all, power) := ReadDigits(rest[1..], whole);
            ReadMagnitude(s) == Decimal(false, all, ReadPower(power) - (|rest| - 1 - |power|))
  {
  }

  lemma SmallText(pad: string, digits: string)
    ensures "0." + pad + digits == "0" + "." + (pad + digits)
  {
  }

  lemma {:induction false} PaddedValue(n: nat, digits: string)
    requires AllDigits(digits)
    ensures AllDigits("0" + (Zeros(n) + digits))
    ensures DigitsValue("0" + (Zeros(n) + digits), 0) == DigitsValue(digits, 0)
  {
    DigitsValueConcat(Zeros(n), digits, 0);
    DigitsValueOfZeros(n, 0);
    DigitsValueConcat("0", Zeros(n) + digits, 0);
  }

  lemma {:induction false} SmallReads(digits: string, dot: int, power: int)
    requires AllDigits(digits) && dot <= 0
    ensures ReadMagnitude(Positional(digits, dot) + PowerText(power)) ==
            Decimal(false, DigitsValue(digits, 0), power + dot - |digits|)
  {
    var pad := Zeros(-dot);
    PaddedValue(-dot, digits);
    SmallText(pad, digits);
    assert AllDigits(pad + digits) && AllDigits("0");
    PointReads("0", pad + digits, power);
  }

  lemma {:induction false} PositionalReads(digits: string, dot: int, power: int)
    requires AllDigits(digits) && digits != "" && dot <= |digits|
    ensures ReadMagnitude(Positional(digits, dot) + PowerText(power)) ==
            Decimal(false, DigitsValue(digits, 0), power + dot - |digits|)
    ensures Positional(digits, dot) != "" && IsDigit(Positional(digits, dot)[0])
  {
    assert digits[0] in digits;
    if dot <= 0 {
      SmallReads(digits, dot, power);
    } else if dot == |digits| {
      WholeReads(digits, power);
      assert Positional(digits, dot) == digits;
    } else {
      assert digits[..dot] + digits[dot..] == digits;
      PointReads(digits[..dot], digits[dot..], power);
      assert digits[..dot][0] == digits[0];
    }
  }

  lemma ReadUnsigned(text: string)
    requires text != "" && IsDigit(text[0])
    ensures ReadDecimal(text) == ReadMagnitude(text)
    ensures ReadDecimal("-" + text) == ReadMagnitude(text).(negative := true)
  {
    assert ("-" + text)[1..] == text;
  }

  lemma {:induction false} MagnitudeReads(d: PlainDecimal)
    ensures ReadMagnitude(MagnitudeText(d)) == Decimal(false, d.coefficient, d.exponent)
    ensures MagnitudeText(d) != "" && IsDigit(MagnitudeText(d)[0])
  {
    var digits := Digits(d.coefficient);
    DigitsValueOfDigits(d.coefficient);
    DigitsAreDigits(d.coefficient);
    var lead := d.exponent + |digits|;
    var dot := if d.exponent <= 0 && lead > -6 then lead else 1;
    PositionalReads(digits, dot, lead - dot);
    assert MagnitudeText(d)[0] == Positional(digits, dot)[0];
  }

  /** `Decimal(str(d))` is `d`, sign, digits and exponent alike. */
  lemma DecimalStrReads(d: PlainDecimal)
    ensures ReadDecimal(DecimalStr(d)) == d
  {
    MagnitudeReads(d);
    ReadUnsigned(MagnitudeText(d));
    assert "" + MagnitudeText(d) == MagnitudeText(d);
  }

  // ---------------------------------------------------------------- leaf by leaf

  /** The JSON value carries the field: what it is can be read back, and every item and key is in its place. */
  ghost predicate Carries(j: Json, v: Raw) {
    match v
    case RNull => j == JNull
    case RBool(b) => j == JBool(b)
    case RInt(n) => j == JInt(n)
    case RText(s) => j == JStr(s)
    case RUuid(u) => j.JStr? && ReadUuid(j.s) == Some(u)
    case RDecimal(d) => j.JStr? && ReadDecimal(j.s) == d
    case RTime(iso) => j == JStr(iso)
    case REnum(value) => j == value
    case RList(items) =>
      j.JArr? && |j.items| == |items| && forall i | 0 <= i < |items| :: Carries(j.items[i], items[i])
    case RDict(entries) =>
      && j.JObj? && |j.fields| == |entries|
      && forall i | 0 <= i < |entries| ::
           j.fields[i].key == entries[i].key && Carries(j.fields[i].value, entries[i].value)
  }

  lemma {:induction false} JsonSafeCarries(v: Raw)
    ensures Carries(JsonSafe(v), v)
  {
    match v
    case RUuid(u) => UuidTextReads(u);
    case RDecimal(d) => DecimalStrReads(d);
    case RList(items) =>
      forall i | 0 <= i < |items| ensures Carries(JsonSafe(items[i]), items[i]) {
        JsonSafeCarries(items[i]);
      }
    case RDict(entries) =>
      forall i | 0 <= i < |entries| ensures Carries(JsonSafe(entries[i].value), entries[i].value) {
        JsonSafeCarries(entries[i].value);
      }
    case _ =>
  }

  // ---------------------------------------------------------------- what arrives

  /** What the client gets is this event: its class name, and its fields in its payload. */
  ghost predicate IsEvent(p: Parsed, e: Event) {
    p.kind == KindName(e.kind) && Carries(p.data, RDict(e.fields))
  }

  /** Wherever the stream is cut, what the client has are the events that arrived whole, field by field. */
  lemma {:induction false} WhatArrives(loads: Loads, events: seq<Event>, n: nat)
    requires Inverts(loads) && AllProper(events) && n <= |Wire(events)|
    ensures var got := Received(loads, Wire(events)[..n]);
            |got| == Arrived(events, n) && forall i | 0 <= i < |got| :: IsEvent(got[i], events[i])
  {
    var k := Arrived(events, n);
    PrefixYieldsWholeEvents(loads, events, n);
    forall i | 0 <= i < k ensures IsEvent(SentAll(events)[..k][i], events[i]) {
      JsonSafeCarries(RDict(events[i].fields));
      assert SentAll(events)[i] == Sent(events[i]);
    }
  }

  // ---------------------------------------------------------------- telling events apart

  /** Which of the types that go out as a text, if any. */
  function TextType(v: Raw): nat {
    match v
    case RText(_) => 1
    case RUuid(_) => 2
    case RDecimal(_) => 3
    case RTime(_) => 4
    case _ => 0
  }

  /** Where the two have a text both have the same type of text, and where one has an enum both do. */
  ghost predicate SameTypes(v: Raw, w: Raw) {
    && (TextType(v) > 0 && TextType(w) > 0 ==> TextType(v) == TextType(w))
    && (v.REnum? <==> w.REnum?)
    && (v.RList? && w.RList? ==>
          forall i | 0 <= i < |v.items| && i < |w.items| :: SameTypes(v.items[i], w.items[i]))
    && (v.RDict? && w.RDict? ==>
          forall i | 0 <= i < |v.entries| && i < |w.entries| :: SameTypes(v.entries[i].value, w.entries[i].value))
  }

  /** One JSON value does not carry two different fields of the same types. */
  lemma {:induction false} CarriesOne(j: Json, v: Raw, w: Raw)
    requires SameTypes(v, w) && Carries(j, v) && Carries(j, w)
    ensures v == w
  {
    match v
    case RList(items) =>
      forall i | 0 <= i < |items| ensures items[i] == w.items[i] {
        CarriesOne(j.items[i], items[i], w.items[i]);
      }
    case RDict(entries) =>
      forall i | 0 <= i < |entries| ensures entries[i] == w.entries[i] {
        CarriesOne(j.fields[i].value, entries[i].value, w.entries[i].value);
      }
    case _ =>
  }

  /** The length of a kind's name and its ninth letter. */
  function KindCode(k: Kind): (int, char) {
    match k
    case InvocationStarted => (17, 'o')
    case IterationStarted => (16, 'n')
    case LLMCallStarted => (14, 't')
    case ContentDelta => (12, 'e')
    case ToolCallProposed => (16, 'P')
    case ToolCallExecuting => (17, 'E')
    case ToolCallCompleted => (17, 'C')
    case IterationCompleted => (18, 'n')
    case InvocationCompleted => (19, 'o')
    case InvocationFailed => (16, 'o')
    case InvariantBlocked => (16, 't')
  }

  lemma KindLetters(k: Kind)
    ensures |KindName(k)| >= 12 && (|KindName(k)|, KindName(k)[8]) == KindCode(k)
  {
  }

  lemma KindNamesDiffer(a: Kind, b: Kind)
    ensures KindName(a) == KindName(b) <==> a == b
  {
    KindLetters(a);
    KindLetters(b);
  }

  /** Two events go out alike exactly when they are of one kind and their fields agree. */
  lemma {:induction false} SentTells(e: Event, f: Event)
    requires SameTypes(RDict(e.fields), RDict(f.fields))
    ensures Sent(e) == Sent(f) <==> e == f
  {
    KindNamesDiffer(e.kind, f.kind);
    JsonSafeCarries(RDict(e.fields));
    JsonSafeCarries(RDict(f.fields));
    if Payload(e) == Payload(f) {
      CarriesOne(Payload(e), RDict(e.fields), RDict(f.fields));
    }
  }
}
