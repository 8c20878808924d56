/**
 The canonical JSON of a payload (padhanam/security/hash_chain.py): keys sorted
 at every depth, compact separators, Decimals and UUIDs as text. The reference
 it is measured against is `Meaning`, where an object is a finite map, so that
 key order is gone by construction.
 */
module CanonicalJson {
  import opened JsonText
  import opened Decimals
  import opened Sorting

  /** A Python payload value. A dict keeps its insertion order and never repeats a key. */
  datatype Value =
    | VNull
    | VBool(b: bool)
    | VInt(n: int)
    | VText(s: string)
    | VDecimal(d: PlainDecimal)
    | VUuid(u: Uuid)
    | VList(items: seq<Value>)
    | VDict(entries: seq<Entry>)

  datatype Entry = Entry(key: string, value: Value)

  /** What the encoder's `default` does: Decimals and UUIDs become their text. */
  function Erase(v: Value): Json {
    match v
    case VNull => JNull
    case VBool(b) => JBool(b)
    case VInt(n) => JInt(n)
    case VText(s) => JStr(s)
    case VDecimal(d) => JStr(DecimalText(d))
    case VUuid(u) => JStr(UuidText(u))
    case VList(items) => JArr(seq(|items|, i requires 0 <= i < |items| => Erase(items[i])))
    case VDict(entries) =>
      JObj(seq(|entries|, i requires 0 <= i < |entries| => Field(entries[i].key, Erase(entries[i].value))))
  }

  predicate FieldLeq(f: Field, g: Field) { TextLeq(f.key, g.key) }

  /** `sort_keys=True`, at every depth. */
  function SortKeys(j: Json): Json {
    match j
    case JArr(items) => JArr(seq(|items|, i requires 0 <= i < |items| => SortKeys(items[i])))
    case JObj(fields) =>
      var sorted := seq(|fields|, i requires 0 <= i < |fields| => Field(fields[i].key, SortKeys(fields[i].value)));
      JObj(Sort(sorted, FieldLeq))
    case _ => j
  }

  /** The text `canonical_json` encodes as UTF-8. */
  function Canonical(v: Value): string {
    Dumps(SortKeys(Erase(v)))
  }

  /** JSON data with objects as maps. */
  datatype Data =
    | DNull
    | DBool(b: bool)
    | DInt(n: int)
    | DText(s: string)
    | DList(items: seq<Data>)
    | DDict(entries: map<string, Data>)

  function Meaning(j: Json): Data
    decreases j, 1
  {
    match j
    case JNull => DNull
    case JBool(b) => DBool(b)
    case JInt(n) => DInt(n)
    case JStr(s) => DText(s)
    case JArr(items) => DList(seq(|items|, i requires 0 <= i < |items| => Meaning(items[i])))
    case JObj(fields) => DDict(FieldsMeaning(fields))
  }

  /** As `dict(pairs)`: a later pair overrides an earlier one. */
  function FieldsMeaning(fields: seq<Field>): map<string, Data>
    decreases fields, 0
  {
    if fields == [] then map[]
    else
      var last := fields[|fields| - 1];
      FieldsMeaning(fields[..|fields| - 1])[last.key := Meaning(last.value)]
  }

  /** The meaning of a payload, with Decimals and UUIDs read as text. */
  function PayloadMeaning(v: Value): Data { Meaning(Erase(v)) }

  // ---------------------------------------------------------------- distinct keys

  ghost predicate DistinctFields(fields: seq<Field>) {
    forall i, j | 0 <= i < j < |fields| :: fields[i].key != fields[j].key
  }

  /** No object repeats a key, at any depth. */
  ghost predicate WellKeyed(j: Json) {
    match j
    case JArr(items) => forall i | 0 <= i < |items| :: WellKeyed(items[i])
    case JObj(fields) => DistinctFields(fields) && forall i | 0 <= i < |fields| :: WellKeyed(fields[i].value)
    case _ => true
  }

  /** Every dict of the payload is a Python dict. */
  ghost predicate WellFormed(v: Value) { WellKeyed(Erase(v)) }

  lemma {:induction false} FieldsMeaningKeys(fields: seq<Field>)
    ensures forall k :: k in FieldsMeaning(fields) <==> exists i :: 0 <= i < |fields| && fields[i].key == k
  {
    if fields != [] {
      var front := fields[..|fields| - 1];
      FieldsMeaningKeys(front);
      forall k ensures k in FieldsMeaning(fields) <==> exists i :: 0 <= i < |fields| && fields[i].key == k {
        if k in FieldsMeaning(front) {
          var i :| 0 <= i < |front| && front[i].key == k;
          assert fields[i].key == k;
        }
        if exists i :: 0 <= i < |fields| && fields[i].key == k {
          var i :| 0 <= i < |fields| && fields[i].key == k;
          assert i < |front| ==> front[i].key == k;
        }
      }
    }
  }

  lemma {:induction false} FieldsMeaningAt(fields: seq<Field>, i: nat)
    requires DistinctFields(fields) && i < |fields|
    ensures fields[i].key in FieldsMeaning(fields)
    ensures FieldsMeaning(fields)[fields[i].key] == Meaning(fields[i].value)
  {
    if i < |fields| - 1 {
      var front := fields[..|fields| - 1];
      assert front[i] == fields[i];
      FieldsMeaningAt(front, i);
    }
  }

  ghost predicate HasKey(fields: seq<Field>, key: string) {
    exists i :: 0 <= i < |fields| && fields[i].key == key
  }

  /** Some member has the key and the meaning of `x`. */
  ghost predicate Holds(fields: seq<Field>, x: Field) {
    exists i :: 0 <= i < |fields| && fields[i].key == x.key && Meaning(fields[i].value) == Meaning(x.value)
  }

  lemma HoldsMeaning(fields: seq<Field>, x: Field)
    requires DistinctFields(fields) && Holds(fields, x)
    ensures x.key in FieldsMeaning(fields) && FieldsMeaning(fields)[x.key] == Meaning(x.value)
  {
    var i :| 0 <= i < |fields| && fields[i].key == x.key && Meaning(fields[i].value) == Meaning(x.value);
    FieldsMeaningAt(fields, i);
  }

  /** A map is determined by the members of a list of distinct keys. */
  lemma {:induction false} SameMembersSameMeaning(f: seq<Field>, g: seq<Field>)
    requires DistinctFields(f) && DistinctFields(g)
    requires forall x | x in f :: Holds(g, x)
    requires forall x | x in g :: HasKey(f, x.key)
    ensures FieldsMeaning(f) == FieldsMeaning(g)
  {
    var m, n := FieldsMeaning(f), FieldsMeaning(g);
    forall k | k in m ensures k in n && m[k] == n[k] {
      FieldsMeaningKeys(f);
      var i :| 0 <= i < |f| && f[i].key == k;
      FieldsMeaningAt(f, i);
      assert f[i] in f;
      HoldsMeaning(g, f[i]);
    }
    forall k | k in n ensures k in m {
      FieldsMeaningKeys(f);
      FieldsMeaningKeys(g);
      var l :| 0 <= l < |g| && g[l].key == k;
      assert g[l] in g;
    }
  }

  // ---------------------------------------------------------------- sorting keeps the meaning

  function SortedChildren(fields: seq<Field>): (r: seq<Field>)
    ensures |r| == |fields|
  {
    seq(|fields|, i requires 0 <= i < |fields| => Field(fields[i].key, SortKeys(fields[i].value)))
  }

  lemma FieldOrder()
    ensures Order(FieldLeq)
  {
    TextOrder();
  }

  lemma {:induction false} InsertDistinct(x: Field, xs: seq<Field>)
    requires DistinctFields(xs) && forall i | 0 <= i < |xs| :: xs[i].key != x.key
    ensures DistinctFields(Insert(x, xs, FieldLeq))
  {
    if xs != [] && !FieldLeq(x, xs[0]) {
      InsertDistinct(x, xs[1..]);
      InsertPermutes(x, xs[1..], FieldLeq);
      var tail := Insert(x, xs[1..], FieldLeq);
      forall j | 0 <= j < |tail| ensures tail[j].key != xs[0].key {
        assert tail[j] in multiset(tail);
        assert tail[j] == x || tail[j] in xs[1..];
      }
    }
  }

  lemma {:induction false} SortDistinct(xs: seq<Field>)
    requires DistinctFields(xs)
    ensures DistinctFields(Sort(xs, FieldLeq))
  {
    if xs != [] {
      SortDistinct(xs[1..]);
      SortPermutes(xs[1..], FieldLeq);
      var tail := Sort(xs[1..], FieldLeq);
      forall i | 0 <= i < |tail| ensures tail[i].key != xs[0].key {
        assert tail[i] in multiset(tail);
        assert tail[i] in xs[1..];
      }
      InsertDistinct(xs[0], tail);
    }
  }

  /** Sorting members by key changes no member, so it changes no meaning. */
  lemma SortKeepsFieldsMeaning(f: seq<Field>)
    requires DistinctFields(f)
    ensures DistinctFields(Sort(f, FieldLeq)) && FieldsMeaning(Sort(f, FieldLeq)) == FieldsMeaning(f)
  {
    var g := Sort(f, FieldLeq);
    SortDistinct(f);
    SortPermutes(f, FieldLeq);
    assert forall x :: x in g <==> x in multiset(g);
    assert forall x :: x in f <==> x in multiset(f);
    SameMembersSameMeaning(g, f);
  }

  lemma {:induction false} SortKeysKeepsMeaning(j: Json)
    requires WellKeyed(j)
    ensures Meaning(SortKeys(j)) == Meaning(j)
  {
    match j
    case JArr(items) =>
      forall i | 0 <= i < |items| ensures Meaning(SortKeys(items[i])) == Meaning(items[i]) {
        SortKeysKeepsMeaning(items[i]);
      }
    case JObj(fields) =>
      var cs := SortedChildren(fields);
      forall i | 0 <= i < |fields| ensures Meaning(cs[i].value) == Meaning(fields[i].value) {
        SortKeysKeepsMeaning(fields[i].value);
      }
      forall x | x in cs ensures Holds(fields, x) {
        var i :| 0 <= i < |cs| && cs[i] == x;
        assert fields[i].key == x.key;
      }
      forall x | x in fields ensures HasKey(cs, x.key) {
        var i :| 0 <= i < |fields| && fields[i] == x;
        assert cs[i].key == x.key;
      }
      SameMembersSameMeaning(cs, fields);
      SortKeepsFieldsMeaning(cs);
    case _ =>
  }

  // ---------------------------------------------------------------- the meaning decides the sorted form

  lemma {:induction false} NoDuplicatesCount<T>(xs: seq<T>, x: T)
    requires forall i, j | 0 <= i < j < |xs| :: xs[i] != xs[j]
    ensures multiset(xs)[x] == if x in xs then 1 else 0
  {
    if xs != [] {
      NoDuplicatesCount(xs[1..], x);
      assert xs == [xs[0]] + xs[1..];
      assert xs[0] !in xs[1..];
    }
  }

  /** Distinct members listed in two orders sort to one list. */
  lemma SameMembersSameSort(f: seq<Field>, g: seq<Field>)
    requires DistinctFields(f) && DistinctFields(g)
    requires forall x :: x in f <==> x in g
    ensures Sort(f, FieldLeq) == Sort(g, FieldLeq)
  {
    forall x ensures multiset(f)[x] == multiset(g)[x] {
      NoDuplicatesCount(f, x);
      NoDuplicatesCount(g, x);
    }
    FieldOrder();
    TextOrder();
    assert TiesAreEqual(f, FieldLeq);
    SortCanonical(f, g, FieldLeq);
  }

  lemma {:induction false} MeaningDecidesSorted(j: Json, k: Json)
    requires WellKeyed(j) && WellKeyed(k) && Meaning(j) == Meaning(k)
    ensures SortKeys(j) == SortKeys(k)
    decreases j, 1
  {
    match j
    case JArr(items) =>
      assert |k.items| == |items| by {
        assert |Meaning(j).items| == |Meaning(k).items|;
      }
      forall i | 0 <= i < |items| ensures SortKeys(items[i]) == SortKeys(k.items[i]) {
        assert Meaning(j).items[i] == Meaning(k).items[i];
        MeaningDecidesSorted(items[i], k.items[i]);
      }
    case JObj(fields) =>
      var f, g := SortedChildren(fields), SortedChildren(k.fields);
      forall x | x in f ensures x in g {
        var i :| 0 <= i < |f| && f[i] == x;
        var l := MatchingMember(fields, k.fields, i);
        MeaningDecidesSorted(fields[i].value, k.fields[l].value);
        assert g[l] == x;
      }
      forall x | x in g ensures x in f {
        var l :| 0 <= l < |g| && g[l] == x;
        var i := MatchingMember(k.fields, fields, l);
        MeaningDecidesSorted(fields[i].value, k.fields[l].value);
        assert f[i] == x;
      }
      SameMembersSameSort(f, g);
    case _ =>
  }

  lemma {:induction false} MatchingMember(f: seq<Field>, g: seq<Field>, i: nat) returns (l: nat)
    requires DistinctFields(f) && DistinctFields(g) && FieldsMeaning(f) == FieldsMeaning(g) && i < |f|
    ensures l < |g| && g[l].key == f[i].key && Meaning(g[l].value) == Meaning(f[i].value)
  {
    FieldsMeaningAt(f, i);
    FieldsMeaningKeys(g);
    l :| 0 <= l < |g| && g[l].key == f[i].key;
    FieldsMeaningAt(g, l);
  }

  // ---------------------------------------------------------------- main results

  /** A reader recovers the payload's meaning from its canonical text. */
  lemma CanonicalDecodes(v: Value)
    requires WellFormed(v)
    ensures Decode(Canonical(v)).Some? && Meaning(Decode(Canonical(v)).value) == PayloadMeaning(v)
  {
    DecodeOfDumps(SortKeys(Erase(v)));
    SortKeysKeepsMeaning(Erase(v));
  }

  /** Canonical texts agree exactly when the payloads mean the same. */
  lemma CanonicalExact(v: Value, w: Value)
    requires WellFormed(v) && WellFormed(w)
    ensures Canonical(v) == Canonical(w) <==> PayloadMeaning(v) == PayloadMeaning(w)
  {
    if Canonical(v) == Canonical(w) {
      CanonicalDecodes(v);
      CanonicalDecodes(w);
    }
    if PayloadMeaning(v) == PayloadMeaning(w) {
      MeaningDecidesSorted(Erase(v), Erase(w));
    }
  }

  // ---------------------------------------------------------------- the order of the keys

  /** `a` comes before `b` code point by code point: at the first difference it is lower, or it is a proper prefix. */
  ghost predicate Before(a: string, b: string) {
    exists i :: 0 <= i <= |a| && i <= |b| && a[..i] == b[..i] && LowerAt(a, b, i)
  }

  predicate LowerAt(a: string, b: string, i: nat)
    requires i <= |a| && i <= |b|
  {
    if i == |a| then i < |b| else i < |b| && a[i] < b[i]
  }

  /** Every object lists its keys in strictly ascending order, at every depth. */
  ghost predicate Ascending(j: Json) {
    match j
    case JArr(items) => forall i | 0 <= i < |items| :: Ascending(items[i])
    case JObj(fields) => AscendingKeys(fields) && forall i | 0 <= i < |fields| :: Ascending(fields[i].value)
    case _ => true
  }

  ghost predicate AscendingKeys(fields: seq<Field>) {
    forall i, j | 0 <= i < j < |fields| :: Before(fields[i].key, fields[j].key)
  }

  lemma BeforeTail(a: string, b: string)
    requires a != "" && b != "" && a[0] == b[0]
    ensures Before(a, b) <==> Before(a[1..], b[1..])
  {
    if Before(a, b) {
      var i :| 0 <= i <= |a| && i <= |b| && a[..i] == b[..i] && LowerAt(a, b, i);
      assert i > 0;
      assert a[1..][..i - 1] == a[..i][1..] && b[1..][..i - 1] == b[..i][1..];
      assert LowerAt(a[1..], b[1..], i - 1);
    }
    if Before(a[1..], b[1..]) {
      var i :| 0 <= i <= |a[1..]| && i <= |b[1..]| && a[1..][..i] == b[1..][..i] && LowerAt(a[1..], b[1..], i);
      assert a[..i + 1] == [a[0]] + a[1..][..i] && b[..i + 1] == [b[0]] + b[1..][..i];
      assert LowerAt(a, b, i + 1);
    }
  }

  lemma SameFirst(a: string, b: string, i: nat)
    requires 0 < i <= |a| && i <= |b| && a[..i] == b[..i]
    ensures a[0] == b[0]
  {
    assert a[..i][0] == b[..i][0];
  }

  lemma BeforeAtOnce(a: string, b: string)
    requires a == "" || b == "" || a[0] != b[0]
    ensures Before(a, b) <==> b != "" && (a == "" || a[0] < b[0])
  {
    if Before(a, b) {
      var i :| 0 <= i <= |a| && i <= |b| && a[..i] == b[..i] && LowerAt(a, b, i);
      if i > 0 {
        SameFirst(a, b, i);
      }
    }
    if b != "" && (a == "" || a[0] < b[0]) {
      assert a[..0] == b[..0] && LowerAt(a, b, 0);
    }
  }

  /** The comparison the sort uses is that order. */
  lemma {:induction false} TextLeqIsBefore(a: string, b: string)
    ensures TextLeq(a, b) <==> a == b || Before(a, b)
  {
    if a != "" && b != "" && a[0] == b[0] {
      TextLeqIsBefore(a[1..], b[1..]);
      BeforeTail(a, b);
      assert a == [a[0]] + a[1..] && b == [b[0]] + b[1..];
    } else {
      BeforeAtOnce(a, b);
    }
  }

  lemma SortedAscends(fields: seq<Field>)
    requires DistinctFields(fields)
    ensures AscendingKeys(Sort(fields, FieldLeq))
  {
    var g := Sort(fields, FieldLeq);
    SortDistinct(fields);
    FieldOrder();
    SortSorted(fields, FieldLeq);
    forall i, j | 0 <= i < j < |g| ensures Before(g[i].key, g[j].key) {
      assert FieldLeq(g[i], g[j]);
      TextLeqIsBefore(g[i].key, g[j].key);
    }
  }

  lemma {:induction false} SortKeysAscends(j: Json)
    requires WellKeyed(j)
    ensures Ascending(SortKeys(j))
  {
    match j
    case JArr(items) =>
      forall i | 0 <= i < |items| ensures Ascending(SortKeys(items[i])) {
        SortKeysAscends(items[i]);
      }
    case JObj(fields) =>
      var cs := SortedChildren(fields);
      var g := Sort(cs, FieldLeq);
      forall i | 0 <= i < |fields| ensures Ascending(cs[i].value) {
        SortKeysAscends(fields[i].value);
      }
      SortedAscends(cs);
      SortPermutes(cs, FieldLeq);
      forall i | 0 <= i < |g| ensures Ascending(g[i].value) {
        assert g[i] in multiset(g);
        assert g[i] in cs;
      }
    case _ =>
  }

  lemma AscendingDistinct(fields: seq<Field>)
    requires AscendingKeys(fields)
    ensures DistinctFields(fields) && Sorted(fields, FieldLeq)
  {
    forall i, j | 0 <= i < j < |fields| ensures fields[i].key != fields[j].key && FieldLeq(fields[i], fields[j]) {
      NotBeforeItself(fields[i].key);
      TextLeqIsBefore(fields[i].key, fields[j].key);
    }
  }

  lemma NotBeforeItself(a: string)
    ensures !Before(a, a)
  {
  }

  /** A tree whose keys ascend is already sorted. */
  lemma {:induction false} AscendingIsSorted(j: Json)
    requires Ascending(j)
    ensures WellKeyed(j) && SortKeys(j) == j
  {
    match j
    case JArr(items) =>
      forall i | 0 <= i < |items| ensures WellKeyed(items[i]) && SortKeys(items[i]) == items[i] {
        AscendingIsSorted(items[i]);
      }
    case JObj(fields) =>
      forall i | 0 <= i < |fields| ensures WellKeyed(fields[i].value) && SortKeys(fields[i].value) == fields[i].value {
        AscendingIsSorted(fields[i].value);
      }
      assert SortedChildren(fields) == fields;
      AscendingDistinct(fields);
      FieldOrder();
      TextOrder();
      SortSorted(fields, FieldLeq);
      SortPermutes(fields, FieldLeq);
      assert TiesAreEqual(fields, FieldLeq);
      SortedUnique(fields, Sort(fields, FieldLeq), FieldLeq);
    case _ =>
  }

  /** In the canonical text every object lists its keys in ascending order. */
  lemma CanonicalAscends(v: Value)
    requires WellFormed(v)
    ensures Decode(Canonical(v)).Some? && Ascending(Decode(Canonical(v)).value)
  {
    DecodeOfDumps(SortKeys(Erase(v)));
    SortKeysAscends(Erase(v));
  }

  /** The order of the keys and the meaning of the payload leave one text. */
  lemma CanonicalIs(v: Value, j: Json)
    requires WellFormed(v) && Ascending(j)
    ensures Canonical(v) == Dumps(j) <==> Meaning(j) == PayloadMeaning(v)
  {
    AscendingIsSorted(j);
    if Canonical(v) == Dumps(j) {
      DecodeOfDumps(j);
      CanonicalDecodes(v);
    }
    if Meaning(j) == PayloadMeaning(v) {
      MeaningDecidesSorted(j, Erase(v));
    }
  }

  // ---------------------------------------------------------------- leaf by leaf

  /** What a reader of the data finds in the payload's place: numbers and ids can be read back from their texts. */
  ghost predicate Reads(v: Value, d: Data) {
    match v
    case VNull => d == DNull
    case VBool(b) => d == DBool(b)
    case VInt(n) => d == DInt(n)
    case VText(s) => d == DText(s)
    case VDecimal(x) => d.DText? && SameNumber(ReadFixed(d.s), x)
    case VUuid(u) => d.DText? && ReadUuid(d.s) == Some(u)
    case VList(items) =>
      d.DList? && |d.items| == |items| && forall i | 0 <= i < |items| :: Reads(items[i], d.items[i])
    case VDict(entries) =>
      && d.DDict?
      && (forall k :: k in d.entries <==> exists i :: 0 <= i < |entries| && entries[i].key == k)
      && (forall i | 0 <= i < |entries| ::
            entries[i].key in d.entries && Reads(entries[i].value, d.entries[entries[i].key]))
  }

  lemma {:induction false} MeaningReads(v: Value)
    requires WellFormed(v)
    ensures Reads(v, PayloadMeaning(v))
  {
    match v
    case VDecimal(x) => DecimalTextReads(x);
    case VUuid(u) => UuidTextReads(u);
    case VList(items) =>
      var js := Erase(v).items;
      forall i | 0 <= i < |items| ensures Reads(items[i], PayloadMeaning(items[i])) {
        assert WellKeyed(js[i]);
        MeaningReads(items[i]);
      }
    case VDict(entries) =>
      DictReads(entries);
    case _ =>
  }

  lemma {:induction false} DictReads(entries: seq<Entry>)
    requires WellFormed(VDict(entries))
    ensures Reads(VDict(entries), PayloadMeaning(VDict(entries)))
  {
    var fields := Erase(VDict(entries)).fields;
    FieldsMeaningKeys(fields);
    forall i | 0 <= i < |entries|
      ensures fields[i].key == entries[i].key && entries[i].key in FieldsMeaning(fields)
      ensures Reads(entries[i].value, FieldsMeaning(fields)[entries[i].key])
    {
      assert WellKeyed(fields[i].value);
      FieldsMeaningAt(fields, i);
      MeaningReads(entries[i].value);
    }
    forall k ensures k in FieldsMeaning(fields) <==> exists i :: 0 <= i < |entries| && entries[i].key == k {
      if i :| 0 <= i < |fields| && fields[i].key == k {
        assert entries[i].key == k;
      }
      if i :| 0 <= i < |entries| && entries[i].key == k {
        assert fields[i].key == k;
      }
    }
  }

  /** A reader of the canonical text finds every key and every value in its place. */
  lemma CanonicalReads(v: Value)
    requires WellFormed(v)
    ensures Decode(Canonical(v)).Some? && Reads(v, Meaning(Decode(Canonical(v)).value))
  {
    CanonicalDecodes(v);
    MeaningReads(v);
  }

  // ---------------------------------------------------------------- printing

  /** The text is printable ASCII, so its UTF-8 bytes are its characters. */
  lemma CanonicalPrintable(v: Value)
    ensures Printable(Canonical(v))
  {
    DumpsPrintable(SortKeys(Erase(v)));
  }

  // ---------------------------------------------------------------- bytes

  type Byte = n: nat | n < 256 witness 0

  /** UTF-8, one character. */
  function Utf8Char(c: char): seq<Byte> {
    var n := c as int;
    if n < 0x80 then [n]
    else if n < 0x800 then [0xC0 + n / 64, 0x80 + n % 64]
    else if n < 0x1_0000 then [0xE0 + n / 4096, 0x80 + n / 64 % 64, 0x80 + n % 64]
    else [0xF0 + n / 262144, 0x80 + n / 4096 % 64, 0x80 + n / 64 % 64, 0x80 + n % 64]
  }

  function Utf8(s: string): seq<Byte> {
    if s == "" then [] else Utf8(s[..|s| - 1]) + Utf8Char(s[|s| - 1])
  }

  /** What `canonical_json` returns. */
  function CanonicalBytes(v: Value): seq<Byte> { Utf8(Canonical(v)) }

  lemma {:induction false} PrintableBytes(s: string)
    requires Printable(s)
    ensures |Utf8(s)| == |s| && forall i | 0 <= i < |s| :: Utf8(s)[i] == s[i] as int
  {
    if s != "" {
      var front, c := s[..|s| - 1], s[|s| - 1];
      assert c in s && forall d | d in front :: d in s;
      PrintableBytes(front);
      assert Utf8Char(c) == [c as int];
    }
  }

  lemma PrintableBytesTell(s: string, t: string)
    requires Printable(s) && Printable(t) && Utf8(s) == Utf8(t)
    ensures s == t
  {
    PrintableBytes(s);
    PrintableBytes(t);
    forall i | 0 <= i < |s| ensures s[i] == t[i] {
      assert s[i] as int == t[i] as int;
    }
  }

  /** Two payloads give equal bytes exactly when they mean the same. */
  lemma BytesExact(v: Value, w: Value)
    requires WellFormed(v) && WellFormed(w)
    ensures CanonicalBytes(v) == CanonicalBytes(w) <==> PayloadMeaning(v) == PayloadMeaning(w)
  {
    CanonicalExact(v, w);
    CanonicalPrintable(v);
    CanonicalPrintable(w);
    if CanonicalBytes(v) == CanonicalBytes(w) {
      PrintableBytesTell(Canonical(v), Canonical(w));
    }
  }

  // ---------------------------------------------------------------- one text, character by character

  const SAMPLE_TEXT := "\n\U{00E9}"

  const SAMPLE := VDict([
    Entry("b", VList([VBool(true), VNull, VInt(-12)])),
    Entry("a", VText(SAMPLE_TEXT))])

  lemma EscapeFirst(c: char, rest: string)
    ensures EscapeAll([c] + rest) == EscapeChar(c) + EscapeAll(rest)
  {
    assert ([c] + rest)[1..] == rest;
  }

  lemma SampleString()
    ensures StringText(SAMPLE_TEXT) == "\"\\n\\u00e9\""
  {
    EscapeFirst('\U{00E9}', "");
    EscapeFirst('\n', "\U{00E9}");
    assert ['\U{00E9}'] + "" == "\U{00E9}" && ['\n'] + "\U{00E9}" == SAMPLE_TEXT;
    assert EscapeChar('\n') == "\\n" && EscapeChar('\U{00E9}') == "\\u00e9";
  }

  lemma SampleItems()
    ensures Dumps(JArr([JBool(true), JNull, JInt(-12)])) == "[true,null,-12]"
  {
    var items := [JBool(true), JNull, JInt(-12)];
    assert Digits(12) == "12" by {
      assert Digits(1) == "1";
    }
    assert items[1..] == [JNull, JInt(-12)] && items[1..][1..] == [JInt(-12)];
    assert ItemsText(items[1..][1..]) == "-12";
    assert ItemsText(items[1..]) == "null,-12";
  }

  lemma KeyLetter(c: char)
    requires c == 'a' || c == 'b'
    ensures StringText([c]) == ['\"', c, '\"']
  {
    EscapeFirst(c, "");
    assert [c] + "" == [c];
  }

  lemma TwoFieldsText(f: Field, g: Field)
    ensures Dumps(JObj([f, g])) == "{" + (FieldText(f) + "," + FieldText(g)) + "}"
  {
    assert [f, g][1..] == [g];
    assert FieldsText([g]) == FieldText(g);
  }

  /** Sorted keys, compact separators, escapes: one payload's canonical text in full. */
  lemma SampleCanonical()
    ensures Canonical(SAMPLE) ==
            "{" + ("\"a\":\"\\n\\u00e9\"" + "," + "\"b\":[true,null,-12]") + "}"
  {
    var list := JArr([JBool(true), JNull, JInt(-12)]);
    var f, g := Field("a", JStr(SAMPLE_TEXT)), Field("b", list);
    TwoFieldsText(f, g);
    SampleSorted(list);
    FirstField(f);
    SecondField(g);
  }

  lemma FirstField(f: Field)
    requires f == Field("a", JStr(SAMPLE_TEXT))
    ensures FieldText(f) == "\"a\":\"\\n\\u00e9\""
  {
    SampleString();
    KeyLetter('a');
    assert ['a'] == "a";
  }

  lemma SecondField(g: Field)
    requires g == Field("b", JArr([JBool(true), JNull, JInt(-12)]))
    ensures FieldText(g) == "\"b\":[true,null,-12]"
  {
    SampleItems();
    KeyLetter('b');
    assert ['b'] == "b";
  }

  lemma SampleSorted(list: Json)
    requires list == JArr([JBool(true), JNull, JInt(-12)])
    ensures Canonical(SAMPLE) == Dumps(JObj([Field("a", JStr(SAMPLE_TEXT)), Field("b", list)]))
  {
    var a, b := Field("a", JStr(SAMPLE_TEXT)), Field("b", list);
    var erased := [b, a];
    assert Erase(VList([VBool(true), VNull, VInt(-12)])) == list;
    assert Erase(SAMPLE) == JObj(erased);
    assert SortKeys(list) == list;
    assert SortedChildren(erased) == erased;
    assert erased[1..] == [a] && [a][1..] == [];
    assert Sort([a], FieldLeq) == [a];
    assert !FieldLeq(b, a);
    assert Insert(b, [a], FieldLeq) == [a] + Insert(b, [], FieldLeq);
    assert Sort(erased, FieldLeq) == [a, b];
  }
}
