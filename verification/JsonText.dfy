/**
 JSON text as Python's `json.dumps` writes it with compact separators and
 `ensure_ascii` on: sections 4 and 7 of RFC 8259, non-BMP characters as
 surrogate-pair escapes. A Dafny `char` is a Unicode scalar value, so a `string`
 is a Python `str` without lone surrogates. Floats are not modelled.

 `Decode` is the inverse: it reads back exactly what `Dumps` writes, which makes
 the printed text a prefix-free, injective encoding of the tree.
 */
module JsonText {

  /** A JSON tree. Object members keep the insertion order of the Python dict. */
  datatype Json =
    | JNull
    | JBool(b: bool)
    | JInt(n: int)
    | JStr(s: string)
    | JArr(items: seq<Json>)
    | JObj(fields: seq<Field>)

  datatype Field = Field(key: string, value: Json)

  /** What a reader found at the front of a text, and the text it left. */
  datatype Read<+T> = Got(value: T, rest: string) | Bad {
    predicate IsFailure() { Bad? }
    function PropagateFailure<U>(): Read<U> requires Bad? { Bad }
    function Extract(): (T, string) requires Got? { (value, rest) }
  }

  datatype Option<+T> = None | Some(value: T)

  /** `json.loads`; none stands for `JSONDecodeError`. */
  type Loads = string -> Option<Json>

  // ---------------------------------------------------------------- numbers

  predicate IsDigit(c: char) { '0' <= c <= '9' }

  predicate NoDigitAhead(rest: string) { rest == "" || !IsDigit(rest[0]) }

  function DigitChar(d: nat): (c: char)
    requires d < 10
    ensures IsDigit(c)
  {
    '0' + d as char
  }

  function DigitOf(c: char): (d: nat)
    requires IsDigit(c)
    ensures d < 10 && DigitChar(d) == c
  {
    (c - '0') as nat
  }

  function Digits(n: nat): string {
    if n < 10 then [DigitChar(n)] else Digits(n / 10) + [DigitChar(n % 10)]
  }

  function IntText(n: int): string {
    if n < 0 then "-" + Digits(-n) else Digits(n)
  }

  /** Reads the digits at the front of `s` after a prefix worth `acc`. */
  function ReadDigits(s: string, acc: nat): (nat, string) {
    if NoDigitAhead(s) then (acc, s) else ReadDigits(s[1..], 10 * acc + DigitOf(s[0]))
  }

  lemma {:induction false} ReadDigitsOfDigits(n: nat, rest: string)
    ensures ReadDigits(Digits(n) + rest, 0) == ReadDigits(rest, n)
  {
    if n < 10 {
      assert ([DigitChar(n)] + rest)[1..] == rest;
    } else {
      var tail := [DigitChar(n % 10)] + rest;
      ReadDigitsOfDigits(n / 10, tail);
      assert Digits(n) + rest == Digits(n / 10) + tail;
      assert tail[1..] == rest;
    }
  }

  lemma {:induction false} DigitsAreDigits(n: nat)
    ensures Digits(n) != "" && forall c | c in Digits(n) :: IsDigit(c)
  {
    if n >= 10 {
      DigitsAreDigits(n / 10);
    }
  }

  // ---------------------------------------------------------------- hexadecimal

  function HexChar(d: nat): char
    requires d < 16
  {
    if d < 10 then '0' + d as char else 'a' + (d - 10) as char
  }

  function HexOf(c: char): Option<nat> {
    if '0' <= c <= '9' then Some((c - '0') as nat)
    else if 'a' <= c <= 'f' then Some(10 + (c - 'a') as nat)
    else None
  }

  lemma HexOfHexChar(d: nat)
    requires d < 16
    ensures HexOf(HexChar(d)) == Some(d)
  {
  }

  /** Four lower-case hexadecimal digits, as in a `\u` escape. */
  function Hex4(v: nat): string
    requires v < 0x1_0000
  {
    [HexChar(v / 4096), HexChar(v / 256 % 16), HexChar(v / 16 % 16), HexChar(v % 16)]
  }

  function ReadHex4(s: string): Option<nat> {
    if |s| < 4 then None
    else match (HexOf(s[0]), HexOf(s[1]), HexOf(s[2]), HexOf(s[3]))
      case (Some(a), Some(b), Some(c), Some(d)) => Some(4096 * a + 256 * b + 16 * c + d)
      case _ => None
  }

  lemma HexSplit(v: nat)
    requires v < 0x1_0000
    ensures v / 4096 < 16 && v == 4096 * (v / 4096) + 256 * (v / 256 % 16) + 16 * (v / 16 % 16) + v % 16
  {
  }

  lemma {:induction false} ReadHex4OfHex4(v: nat, rest: string)
    requires v < 0x1_0000
    ensures ReadHex4(Hex4(v) + rest) == Some(v)
  {
    HexSplit(v);
    var s := Hex4(v) + rest;
    var a, b, c, d := v / 4096, v / 256 % 16, v / 16 % 16, v % 16;
    assert s[0] == HexChar(a) && s[1] == HexChar(b) && s[2] == HexChar(c) && s[3] == HexChar(d);
    HexOfHexChar(a);
    HexOfHexChar(b);
    HexOfHexChar(c);
    HexOfHexChar(d);
  }

  // ---------------------------------------------------------------- strings

  predicate HighSurrogate(v: nat) { 0xD800 <= v < 0xDC00 }
  predicate LowSurrogate(v: nat) { 0xDC00 <= v < 0xE000 }

  function HighHalf(v: nat): (hi: nat)
    requires 0x1_0000 <= v < 0x11_0000
    ensures HighSurrogate(hi)
  {
    0xD800 + (v - 0x1_0000) / 0x400
  }

  function LowHalf(v: nat): (lo: nat)
    requires 0x1_0000 <= v < 0x11_0000
    ensures LowSurrogate(lo)
  {
    0xDC00 + (v - 0x1_0000) % 0x400
  }

  /** The code point a surrogate pair stands for. */
  function Joined(hi: nat, lo: nat): (v: nat)
    requires HighSurrogate(hi) && LowSurrogate(lo)
    ensures 0x1_0000 <= v < 0x11_0000
  {
    0x1_0000 + (hi - 0xD800) * 0x400 + (lo - 0xDC00)
  }

  lemma JoinedHalves(v: nat)
    requires 0x1_0000 <= v < 0x11_0000
    ensures Joined(HighHalf(v), LowHalf(v)) == v
  {
  }

  /** A `\u` escape, or a surrogate pair of them above the basic plane. */
  function UnicodeEscape(c: char): string {
    ['\\', 'u'] + HexEscape(c)
  }

  function HexEscape(c: char): string {
    var v := c as int;
    if v < 0x1_0000 then Hex4(v) else Hex4(HighHalf(v)) + ['\\', 'u'] + Hex4(LowHalf(v))
  }

  /** The letter of a two-character escape, for the characters that have one. */
  function ShortEscape(c: char): Option<char> {
    if c == '\"' || c == '\\' then Some(c)
    else if c == '\n' then Some('n')
    else if c == '\r' then Some('r')
    else if c == '\t' then Some('t')
    else if c as int == 0x0C then Some('f')
    else if c as int == 0x08 then Some('b')
    else None
  }

  function ShortMeaning(letter: char): Option<char> {
    if letter == '\"' || letter == '\\' then Some(letter)
    else if letter == 'n' then Some('\n')
    else if letter == 'r' then Some('\r')
    else if letter == 't' then Some('\t')
    else if letter == 'f' then Some(0x0C as char)
    else if letter == 'b' then Some(0x08 as char)
    else None
  }

  function EscapeChar(c: char): string {
    match ShortEscape(c)
    case Some(letter) => ['\\', letter]
    case None => if ' ' <= c <= '~' then [c] else UnicodeEscape(c)
  }

  function EscapeAll(s: string): string {
    if s == "" then "" else EscapeChar(s[0]) + EscapeAll(s[1..])
  }

  function StringText(s: string): string {
    "\"" + EscapeAll(s) + "\""
  }

  /** One character of a string body, from the backslash on. */
  function ReadEscape(s: string): (r: Read<char>)
    requires s != ""
    ensures r.Got? ==> |r.rest| < |s|
  {
    if |s| < 2 then Bad
    else if s[1] == 'u' then ReadUnicode(s[2..])
    else match ShortMeaning(s[1])
      case Some(c) => Got(c, s[2..])
      case None => Bad
  }

  function ReadUnicode(s: string): (r: Read<char>)
    ensures r.Got? ==> |r.rest| < |s|
  {
    match ReadHex4(s)
    case None => Bad
    case Some(hi) =>
      if HighSurrogate(hi) then
        if |s| < 6 || s[4] != '\\' || s[5] != 'u' then Bad
        else match ReadHex4(s[6..])
          case Some(lo) =>
            if LowSurrogate(lo) then Got(Joined(hi, lo) as char, s[10..]) else Bad
          case None => Bad
      else if LowSurrogate(hi) || hi >= 0x1_0000 then Bad
      else Got(hi as char, s[4..])
  }

  function ReadStringBody(s: string): (r: Read<string>)
    ensures r.Got? ==> |r.rest| < |s|
    decreases |s|
  {
    if s == "" then Bad
    else if s[0] == '\"' then Got("", s[1..])
    else if s[0] == '\\' then
      var (c, rest) :- ReadEscape(s);
      var (cs, after) :- ReadStringBody(rest);
      Got([c] + cs, after)
    else
      var (cs, after) :- ReadStringBody(s[1..]);
      Got([s[0]] + cs, after)
  }

  lemma {:induction false} ReadPairOfHex(hi: nat, lo: nat, rest: string)
    requires HighSurrogate(hi) && LowSurrogate(lo)
    ensures ReadUnicode(Hex4(hi) + ['\\', 'u'] + Hex4(lo) + rest) == Got(Joined(hi, lo) as char, rest)
  {
    var tail := Hex4(lo) + rest;
    var s := Hex4(hi) + ['\\', 'u'] + Hex4(lo) + rest;
    assert s == Hex4(hi) + (['\\', 'u'] + tail);
    ReadHex4OfHex4(hi, ['\\', 'u'] + tail);
    assert s[4] == '\\' && s[5] == 'u';
    assert s[6..] == tail;
    ReadHex4OfHex4(lo, rest);
    assert s[10..] == rest;
  }

  lemma {:induction false} ReadUnicodeOfHex(v: nat, rest: string)
    requires v < 0x1_0000 && !HighSurrogate(v) && !LowSurrogate(v)
    ensures ReadUnicode(Hex4(v) + rest) == Got(v as char, rest)
  {
    ReadHex4OfHex4(v, rest);
    assert (Hex4(v) + rest)[4..] == rest;
  }

  lemma {:induction false} ReadUnicodeOfEscape(c: char, rest: string)
    ensures ReadUnicode(HexEscape(c) + rest) == Got(c, rest)
  {
    var v := c as int;
    if v < 0x1_0000 {
      ReadUnicodeOfHex(v, rest);
    } else {
      JoinedHalves(v);
      ReadPairOfHex(HighHalf(v), LowHalf(v), rest);
    }
  }

  predicate Literal(c: char) { ' ' <= c <= '~' && ShortEscape(c).None? }

  lemma ShortEscapeMeaning(c: char)
    requires ShortEscape(c).Some?
    ensures ShortEscape(c).value != 'u' && ShortMeaning(ShortEscape(c).value) == Some(c)
  {
  }

  lemma {:induction false} ReadShortEscape(c: char, letter: char, tail: string)
    requires ShortEscape(c) == Some(letter)
    ensures ReadEscape(['\\', letter] + tail) == Got(c, tail)
  {
    var s := ['\\', letter] + tail;
    ShortEscapeMeaning(c);
    assert s[1] == letter && s[2..] == tail;
  }

  lemma {:induction false} ReadLongEscape(c: char, tail: string)
    ensures ReadEscape(UnicodeEscape(c) + tail) == Got(c, tail)
  {
    var s := UnicodeEscape(c) + tail;
    ReadUnicodeOfEscape(c, tail);
    assert s[1] == 'u' && s[2..] == HexEscape(c) + tail;
  }

  lemma {:induction false} ReadEscapeOfChar(c: char, tail: string)
    requires !Literal(c)
    ensures EscapeChar(c)[0] == '\\' && ReadEscape(EscapeChar(c) + tail) == Got(c, tail)
  {
    match ShortEscape(c)
    case Some(letter) => ReadShortEscape(c, letter, tail);
    case None => ReadLongEscape(c, tail);
  }

  lemma {:induction false} ReadBodyOfChar(c: char, tail: string, cs: string, rest: string)
    requires ReadStringBody(tail) == Got(cs, rest)
    ensures ReadStringBody(EscapeChar(c) + tail) == Got([c] + cs, rest)
  {
    var s := EscapeChar(c) + tail;
    if Literal(c) {
      assert s[1..] == tail;
    } else {
      ReadEscapeOfChar(c, tail);
      assert s[0] == '\\';
    }
  }

  lemma {:induction false} ReadBodyOfQuote(rest: string)
    ensures ReadStringBody("\"" + rest) == Got("", rest)
  {
    assert ("\"" + rest)[1..] == rest;
  }

  lemma {:induction false} Assoc(a: string, b: string, c: string)
    ensures (a + b) + c == a + (b + c)
  {
  }

  lemma {:induction false} ReadBodyOfEscapeAll(s: string, rest: string)
    ensures ReadStringBody(EscapeAll(s) + ("\"" + rest)) == Got(s, rest)
  {
    var close := "\"" + rest;
    if s == "" {
      ReadBodyOfQuote(rest);
      assert EscapeAll(s) + close == close;
    } else {
      ReadBodyOfEscapeAll(s[1..], rest);
      ReadBodyOfChar(s[0], EscapeAll(s[1..]) + close, s[1..], rest);
      Assoc(EscapeChar(s[0]), EscapeAll(s[1..]), close);
      assert s == [s[0]] + s[1..];
    }
  }

  // ---------------------------------------------------------------- trees

  function Dumps(j: Json): string
    decreases j, 1
  {
    match j
    case JNull => "null"
    case JBool(b) => if b then "true" else "false"
    case JInt(n) => IntText(n)
    case JStr(s) => StringText(s)
    case JArr(items) => "[" + ItemsText(items) + "]"
    case JObj(fields) => "{" + FieldsText(fields) + "}"
  }

  function ItemsText(items: seq<Json>): string
    decreases items, 0
  {
    if items == [] then ""
    else if |items| == 1 then Dumps(items[0])
    else Dumps(items[0]) + "," + ItemsText(items[1..])
  }

  function FieldText(f: Field): string
    decreases f, 2
  {
    StringText(f.key) + ":" + Dumps(f.value)
  }

  function FieldsText(fields: seq<Field>): string
    decreases fields, 0
  {
    if fields == [] then ""
    else if |fields| == 1 then FieldText(fields[0])
    else FieldText(fields[0]) + "," + FieldsText(fields[1..])
  }

  /** Does the text go on with the character `c`? */
  predicate Ahead(s: string, c: char) { s != "" && s[0] == c }

  function ReadWord(s: string, word: string, j: Json): (r: Read<Json>)
    requires word != ""
    ensures r.Got? ==> |r.rest| < |s|
  {
    if |word| <= |s| && s[..|word|] == word then Got(j, s[|word|..]) else Bad
  }

  function ReadNumber(s: string): (r: Read<Json>)
    ensures r.Got? ==> |r.rest| < |s|
  {
    var body := if Ahead(s, '-') then s[1..] else s;
    if NoDigitAhead(body) then Bad
    else
      ReadDigitsShrinks(body[1..], DigitOf(body[0]));
      var (n, rest) := ReadDigits(body, 0);
      if Ahead(s, '-') then Got(JInt(-(n as int)), rest) else Got(JInt(n), rest)
  }

  lemma {:induction false} ReadDigitsShrinks(s: string, acc: nat)
    ensures |ReadDigits(s, acc).1| <= |s|
  {
    if !NoDigitAhead(s) {
      ReadDigitsShrinks(s[1..], 10 * acc + DigitOf(s[0]));
    }
  }

  function ReadValue(s: string): (r: Read<Json>)
    ensures r.Got? ==> |r.rest| < |s|
    decreases |s|, 1
  {
    if s == "" then Bad
    else if s[0] == 'n' then ReadWord(s, "null", JNull)
    else if s[0] == 't' then ReadWord(s, "true", JBool(true))
    else if s[0] == 'f' then ReadWord(s, "false", JBool(false))
    else if s[0] == '\"' then
      var (t, rest) :- ReadStringBody(s[1..]);
      Got(JStr(t), rest)
    else if s[0] == '[' then
      var (items, rest) :- ReadItems(s[1..]);
      Got(JArr(items), rest)
    else if s[0] == '{' then
      var (fields, rest) :- ReadFields(s[1..]);
      Got(JObj(fields), rest)
    else ReadNumber(s)
  }

  /** What follows an opening bracket. */
  function ReadItems(s: string): (r: Read<seq<Json>>)
    ensures r.Got? ==> |r.rest| < |s|
    decreases |s|, 3
  {
    if Ahead(s, ']') then Got([], s[1..]) else ReadSomeItems(s)
  }

  function ReadSomeItems(s: string): (r: Read<seq<Json>>)
    ensures r.Got? ==> |r.rest| < |s|
    decreases |s|, 2
  {
    var (item, rest) :- ReadValue(s);
    if Ahead(rest, ']') then Got([item], rest[1..])
    else if Ahead(rest, ',') then
      var (items, after) :- ReadSomeItems(rest[1..]);
      Got([item] + items, after)
    else Bad
  }

  function ReadField(s: string): (r: Read<Field>)
    ensures r.Got? ==> |r.rest| < |s|
    decreases |s|, 2
  {
    if !Ahead(s, '\"') then Bad
    else
      var (key, afterKey) :- ReadStringBody(s[1..]);
      if !Ahead(afterKey, ':') then Bad
      else
        var (value, rest) :- ReadValue(afterKey[1..]);
        Got(Field(key, value), rest)
  }

  /** What follows an opening brace. */
  function ReadFields(s: string): (r: Read<seq<Field>>)
    ensures r.Got? ==> |r.rest| < |s|
    decreases |s|, 4
  {
    if Ahead(s, '}') then Got([], s[1..]) else ReadSomeFields(s)
  }

  function ReadSomeFields(s: string): (r: Read<seq<Field>>)
    ensures r.Got? ==> |r.rest| < |s|
    decreases |s|, 3
  {
    var (field, rest) :- ReadField(s);
    if Ahead(rest, '}') then Got([field], rest[1..])
    else if Ahead(rest, ',') then
      var (fields, after) :- ReadSomeFields(rest[1..]);
      Got([field] + fields, after)
    else Bad
  }

  function Decode(s: string): Option<Json> {
    match ReadValue(s)
    case Bad => None
    case Got(j, rest) => if rest == "" then Some(j) else None
  }

  // ---------------------------------------------------------------- round trip

  lemma {:induction false} ReadNumberOfInt(n: int, rest: string)
    requires NoDigitAhead(rest)
    ensures ReadNumber(IntText(n) + rest) == Got(JInt(n), rest)
  {
    var m: nat := if n < 0 then -n else n;
    DigitsAreDigits(m);
    assert Digits(m)[0] in Digits(m);
    ReadDigitsOfDigits(m, rest);
    if n < 0 {
      assert (IntText(n) + rest)[1..] == Digits(m) + rest;
    }
  }

  lemma {:induction false} ReadValueOfDumps(j: Json, rest: string)
    requires NoDigitAhead(rest)
    ensures ReadValue(Dumps(j) + rest) == Got(j, rest)
    decreases j, 1
  {
    var s := Dumps(j) + rest;
    match j
    case JNull => ReadWordOf("null", rest, j);
    case JBool(b) => ReadWordOf(Dumps(j), rest, j);
    case JInt(n) =>
      IntTextOpens(n);
      ReadNumberOfInt(n, rest);
      ReadValueOfNumber(s);
    case JStr(t) =>
      ReadBodyOfEscapeAll(t, rest);
      ReadStringOf(EscapeAll(t), rest);
    case JArr(items) =>
      ReadItemsOfText(items, rest);
      ReadArrayOf(ItemsText(items), rest);
    case JObj(fields) =>
      ReadFieldsOfText(fields, rest);
      ReadObjectOf(FieldsText(fields), rest);
  }

  lemma {:induction false} ReadValueOfNumber(s: string)
    requires s != "" && (s[0] == '-' || IsDigit(s[0]))
    ensures ReadValue(s) == ReadNumber(s)
  {
  }

  lemma {:induction false} ReadStringOf(body: string, rest: string)
    ensures ReadValue("\"" + body + "\"" + rest) ==
            match ReadStringBody(body + ("\"" + rest)) case Bad => Bad case Got(t, after) => Got(JStr(t), after)
  {
    assert ("\"" + body + "\"" + rest)[1..] == body + ("\"" + rest);
  }

  lemma {:induction false} ReadArrayOf(body: string, rest: string)
    ensures ReadValue("[" + body + "]" + rest) ==
            match ReadItems(body + ("]" + rest)) case Bad => Bad case Got(items, after) => Got(JArr(items), after)
  {
    assert ("[" + body + "]" + rest)[1..] == body + ("]" + rest);
  }

  lemma {:induction false} ReadObjectOf(body: string, rest: string)
    ensures ReadValue("{" + body + "}" + rest) ==
            match ReadFields(body + ("}" + rest)) case Bad => Bad case Got(fields, after) => Got(JObj(fields), after)
  {
    assert ("{" + body + "}" + rest)[1..] == body + ("}" + rest);
  }

  lemma {:induction false} Regroup(a: string, b: string, c: string, d: string)
    ensures a + b + c + d == a + (b + (c + d))
  {
  }

  lemma {:induction false} ReadWordOf(word: string, rest: string, j: Json)
    requires word != ""
    ensures ReadWord(word + rest, word, j) == Got(j, rest)
  {
    assert (word + rest)[..|word|] == word && (word + rest)[|word|..] == rest;
  }

  lemma {:induction false} IntTextOpens(n: int)
    ensures IntText(n) != "" && (IntText(n)[0] == '-' || IsDigit(IntText(n)[0]))
  {
    var m: nat := if n < 0 then -n else n;
    DigitsAreDigits(m);
    assert Digits(m)[0] in Digits(m);
  }

  lemma {:induction false} DumpsOpens(j: Json)
    ensures Dumps(j) != "" && Dumps(j)[0] != ']'
  {
    if j.JInt? {
      IntTextOpens(j.n);
    }
  }

  lemma {:induction false} ReadItemsOfText(items: seq<Json>, rest: string)
    ensures ReadItems(ItemsText(items) + ("]" + rest)) == Got(items, rest)
    decreases items, 1
  {
    var s := ItemsText(items) + ("]" + rest);
    if items == [] {
      assert s[1..] == rest;
    } else {
      DumpsOpens(items[0]);
      ReadSomeItemsOfText(items, rest);
    }
  }

  lemma {:induction false} ReadItemAndMore(s: string, item: Json, tail: string)
    requires ReadValue(s) == Got(item, "," + tail)
    ensures ReadSomeItems(s) ==
            match ReadSomeItems(tail) case Bad => Bad case Got(items, after) => Got([item] + items, after)
  {
    assert ("," + tail)[1..] == tail;
  }

  lemma {:induction false} ReadSomeItemsOfText(items: seq<Json>, rest: string)
    requires items != []
    ensures ReadSomeItems(ItemsText(items) + ("]" + rest)) == Got(items, rest)
    decreases items, 0
  {
    var s := ItemsText(items) + ("]" + rest);
    if |items| == 1 {
      var after := "]" + rest;
      assert s == Dumps(items[0]) + after && after[1..] == rest;
      ReadValueOfDumps(items[0], after);
      assert items == [items[0]];
    } else {
      var tail := ItemsText(items[1..]) + ("]" + rest);
      Regroup(Dumps(items[0]), ",", ItemsText(items[1..]), "]" + rest);
      ReadValueOfDumps(items[0], "," + tail);
      ReadSomeItemsOfText(items[1..], rest);
      ReadItemAndMore(s, items[0], tail);
      assert items == [items[0]] + items[1..];
    }
  }

  lemma FieldParts(key: string, value: string, rest: string)
    ensures ("\"" + key + "\"" + ":" + value + rest)[0] == '\"'
    ensures ("\"" + key + "\"" + ":" + value + rest)[1..] == key + ("\"" + (":" + (value + rest)))
  {
  }

  lemma {:induction false} ReadFieldOfText(f: Field, rest: string)
    requires NoDigitAhead(rest)
    ensures ReadField(FieldText(f) + rest) == Got(f, rest)
    decreases f, 2
  {
    var tail := ":" + (Dumps(f.value) + rest);
    FieldParts(EscapeAll(f.key), Dumps(f.value), rest);
    ReadBodyOfEscapeAll(f.key, tail);
    assert tail[1..] == Dumps(f.value) + rest;
    ReadValueOfDumps(f.value, rest);
  }

  lemma {:induction false} ReadFieldsOfText(fields: seq<Field>, rest: string)
    ensures ReadFields(FieldsText(fields) + ("}" + rest)) == Got(fields, rest)
    decreases fields, 1
  {
    var s := FieldsText(fields) + ("}" + rest);
    if fields == [] {
      assert s[1..] == rest;
    } else {
      assert FieldText(fields[0])[0] == '\"';
      ReadSomeFieldsOfText(fields, rest);
    }
  }

  lemma {:induction false} ReadFieldAndMore(s: string, field: Field, tail: string)
    requires ReadField(s) == Got(field, "," + tail)
    ensures ReadSomeFields(s) ==
            match ReadSomeFields(tail) case Bad => Bad case Got(fields, after) => Got([field] + fields, after)
  {
    assert ("," + tail)[1..] == tail;
  }

  lemma {:induction false} ReadSomeFieldsOfText(fields: seq<Field>, rest: string)
    requires fields != []
    ensures ReadSomeFields(FieldsText(fields) + ("}" + rest)) == Got(fields, rest)
    decreases fields, 0
  {
    var s := FieldsText(fields) + ("}" + rest);
    if |fields| == 1 {
      var after := "}" + rest;
      assert s == FieldText(fields[0]) + after && after[1..] == rest;
      ReadFieldOfText(fields[0], after);
      assert fields == [fields[0]];
    } else {
      var tail := FieldsText(fields[1..]) + ("}" + rest);
      Regroup(FieldText(fields[0]), ",", FieldsText(fields[1..]), "}" + rest);
      ReadFieldOfText(fields[0], "," + tail);
      ReadSomeFieldsOfText(fields[1..], rest);
      ReadFieldAndMore(s, fields[0], tail);
      assert fields == [fields[0]] + fields[1..];
    }
  }

  /** The printer loses nothing: every tree is read back from its own text. */
  lemma {:induction false} DecodeOfDumps(j: Json)
    ensures Decode(Dumps(j)) == Some(j)
  {
    ReadValueOfDumps(j, "");
    assert Dumps(j) + "" == Dumps(j);
  }

  lemma {:induction false} DumpsInjective(j: Json, k: Json)
    requires Dumps(j) == Dumps(k)
    ensures j == k
  {
    DecodeOfDumps(j);
    DecodeOfDumps(k);
  }

  // ---------------------------------------------------------------- alphabet

  /** Printable ASCII: UTF-8 leaves such a text unchanged, and it holds no line break. */
  predicate Printable(s: string) {
    forall c | c in s :: ' ' <= c <= '~'
  }

  lemma {:induction false} DumpsPrintable(j: Json)
    ensures Printable(Dumps(j))
    decreases j, 1
  {
    match j
    case JNull =>
    case JBool(_) =>
    case JInt(n) => DigitsAreDigits(if n < 0 then -n else n);
    case JStr(s) => EscapeAllPrintable(s);
    case JArr(items) => ItemsPrintable(items);
    case JObj(fields) => FieldsPrintable(fields);
  }

  lemma {:induction false} Hex4Printable(v: nat)
    requires v < 0x1_0000
    ensures Printable(Hex4(v))
  {
    HexSplit(v);
  }

  lemma {:induction false} HexEscapePrintable(c: char)
    ensures Printable(HexEscape(c))
  {
    var v := c as int;
    if v < 0x1_0000 {
      Hex4Printable(v);
    } else {
      Hex4Printable(HighHalf(v));
      Hex4Printable(LowHalf(v));
      PrintableConcat(['\\', 'u'], Hex4(LowHalf(v)));
      PrintableConcat(Hex4(HighHalf(v)), ['\\', 'u'] + Hex4(LowHalf(v)));
      assert Hex4(HighHalf(v)) + ['\\', 'u'] + Hex4(LowHalf(v)) == Hex4(HighHalf(v)) + (['\\', 'u'] + Hex4(LowHalf(v)));
    }
  }

  lemma {:induction false} EscapeCharPrintable(c: char)
    ensures Printable(EscapeChar(c))
  {
    match ShortEscape(c)
    case Some(letter) => assert ' ' <= letter <= '~';
    case None =>
      HexEscapePrintable(c);
      PrintableConcat(['\\', 'u'], HexEscape(c));
  }

  lemma {:induction false} EscapeAllPrintable(s: string)
    ensures Printable(EscapeAll(s))
  {
    if s != "" {
      EscapeCharPrintable(s[0]);
      EscapeAllPrintable(s[1..]);
      PrintableConcat(EscapeChar(s[0]), EscapeAll(s[1..]));
    }
  }

  lemma {:induction false} PrintableConcat(s: string, t: string)
    requires Printable(s) && Printable(t)
    ensures Printable(s + t)
  {
  }

  lemma {:induction false} ItemsPrintable(items: seq<Json>)
    ensures Printable(ItemsText(items))
    decreases items, 0
  {
    if items != [] {
      DumpsPrintable(items[0]);
      ItemsPrintable(items[1..]);
    }
  }

  lemma {:induction false} FieldsPrintable(fields: seq<Field>)
    ensures Printable(FieldsText(fields))
    decreases fields, 0
  {
    if fields != [] {
      EscapeAllPrintable(fields[0].key);
      DumpsPrintable(fields[0].value);
      FieldsPrintable(fields[1..]);
    }
  }
}
