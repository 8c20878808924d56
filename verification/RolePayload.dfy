/**
 The content payload of a role (or agent) revision, as every writer of
 `role_revisions` builds it before hashing: source ids and tool allowlist
 sorted, the description defaulting to the empty text. The allowlist has two
 encodings, the earlier list of tool names and the later list of pinned
 `{tool_id, revision_id}` pairs.
 */
module RolePayload {
  import opened JsonText
  import opened Decimals
  import opened Sorting
  import opened CanonicalJson
  import opened HashChain

  datatype Pin = Pin(tool: string, revision: string)

  /** The columns of a revision that enter its payload, without the allowlist. */
  datatype Body = Body(
    name: string,
    description: Option<string>,
    systemPrompt: string,
    sourceIds: seq<string>,
    retrievalStrategy: seq<Entry>,
    filterTree: seq<Entry>,
    topK: int,
    minScore: PlainDecimal,
    modelSelection: string)

  function DescriptionText(b: Body): string {
    match b.description case None => "" case Some(s) => s
  }

  predicate PinLeq(p: Pin, q: Pin) {
    if p.tool == q.tool then TextLeq(p.revision, q.revision) else TextLeq(p.tool, q.tool)
  }

  function Texts(xs: seq<string>): Value {
    VList(seq(|xs|, i requires 0 <= i < |xs| => VText(xs[i])))
  }

  function PinValue(p: Pin): Value {
    VDict([Entry("tool_id", VText(p.tool)), Entry("revision_id", VText(p.revision))])
  }

  function PinValues(pins: seq<Pin>): Value {
    VList(seq(|pins|, i requires 0 <= i < |pins| => PinValue(pins[i])))
  }

  /** The allowlist by name, and by pin. */
  function NamedTools(names: seq<string>): Value { Texts(Sort(names, TextLeq)) }
  function PinnedTools(pins: seq<Pin>): Value { PinValues(Sort(pins, PinLeq)) }

  function Content(b: Body, tools: Value): seq<Entry> {
    [ Entry("name", VText(b.name)),
      Entry("description", VText(DescriptionText(b))),
      Entry("system_prompt", VText(b.systemPrompt)),
      Entry("source_ids", Texts(Sort(b.sourceIds, TextLeq))),
      Entry("tool_allowlist", tools),
      Entry("retrieval_strategy", VDict(b.retrievalStrategy)),
      Entry("filter_tree", VDict(b.filterTree)),
      Entry("top_k", VInt(b.topK)),
      Entry("min_score", VDecimal(b.minScore)),
      Entry("model_selection", VText(b.modelSelection)) ]
  }

  ghost predicate WellFormedBody(b: Body) {
    WellFormed(VDict(b.retrievalStrategy)) && WellFormed(VDict(b.filterTree))
  }

  /** What two bodies must share for their revisions to hash alike. */
  ghost predicate SameBody(a: Body, b: Body) {
    && a.name == b.name
    && DescriptionText(a) == DescriptionText(b)
    && a.systemPrompt == b.systemPrompt
    && multiset(a.sourceIds) == multiset(b.sourceIds)
    && PayloadMeaning(VDict(a.retrievalStrategy)) == PayloadMeaning(VDict(b.retrievalStrategy))
    && PayloadMeaning(VDict(a.filterTree)) == PayloadMeaning(VDict(b.filterTree))
    && a.topK == b.topK
    && SameNumber(a.minScore, b.minScore)
    && a.modelSelection == b.modelSelection
  }

  // ---------------------------------------------------------------- meanings

  ghost predicate SameAt(a: seq<Entry>, b: seq<Entry>, i: nat)
    requires i < |a| && i < |b|
  {
    PayloadMeaning(a[i].value) == PayloadMeaning(b[i].value)
  }

  /** Lists of entries under one list of keys mean the same exactly when their values do. */
  lemma SameKeysMeaning(a: seq<Entry>, b: seq<Entry>)
    requires DistinctEntries(a) && |a| == |b| && forall i | 0 <= i < |a| :: a[i].key == b[i].key
    ensures EntriesMeaning(a) == EntriesMeaning(b) <==>
            forall i | 0 <= i < |a| :: SameAt(a, b, i)
  {
    var f, g := EraseEntries(a), EraseEntries(b);
    forall i | 0 <= i < |a|
      ensures f[i].key in EntriesMeaning(a) && EntriesMeaning(a)[a[i].key] == PayloadMeaning(a[i].value)
      ensures g[i].key in EntriesMeaning(b) && EntriesMeaning(b)[a[i].key] == PayloadMeaning(b[i].value)
    {
      FieldsMeaningAt(f, i);
      FieldsMeaningAt(g, i);
    }
    if EntriesMeaning(a) == EntriesMeaning(b) {
      forall i | 0 <= i < |a| ensures SameAt(a, b, i) {
        assert EntriesMeaning(a)[a[i].key] == EntriesMeaning(b)[a[i].key];
      }
    }
    if forall i | 0 <= i < |a| :: SameAt(a, b, i) {
      forall x | x in f ensures Holds(g, x) {
        var i :| 0 <= i < |f| && f[i] == x;
        assert g[i].key == x.key && SameAt(a, b, i);
      }
      forall x | x in g ensures HasKey(f, x.key) {
        var i :| 0 <= i < |g| && g[i] == x;
        assert f[i].key == x.key;
      }
      SameMembersSameMeaning(f, g);
    }
  }

  lemma ListMeaning(items: seq<Value>)
    ensures PayloadMeaning(VList(items)) == DList(seq(|items|, i requires 0 <= i < |items| => PayloadMeaning(items[i])))
  {
    assert Erase(VList(items)).items == seq(|items|, i requires 0 <= i < |items| => Erase(items[i]));
    assert PayloadMeaning(VList(items)).items == seq(|items|, i requires 0 <= i < |items| => PayloadMeaning(items[i]));
  }

  lemma TextsMeaning(xs: seq<string>, ys: seq<string>)
    ensures WellFormed(Texts(xs))
    ensures PayloadMeaning(Texts(xs)) == PayloadMeaning(Texts(ys)) <==> xs == ys
  {
    var m, n := PayloadMeaning(Texts(xs)), PayloadMeaning(Texts(ys));
    ListMeaning(Texts(xs).items);
    ListMeaning(Texts(ys).items);
    if m == n {
      assert |xs| == |m.items| == |n.items| == |ys|;
      forall i | 0 <= i < |xs| ensures xs[i] == ys[i] {
        assert m.items[i] == DText(xs[i]) && n.items[i] == DText(ys[i]);
      }
    }
  }

  lemma PinMeaning(p: Pin, q: Pin)
    ensures WellFormed(PinValue(p))
    ensures PayloadMeaning(PinValue(p)) == PayloadMeaning(PinValue(q)) <==> p == q
  {
    var a := [Entry("tool_id", VText(p.tool)), Entry("revision_id", VText(p.revision))];
    var b := [Entry("tool_id", VText(q.tool)), Entry("revision_id", VText(q.revision))];
    WellFormedEntries(a);
    SameKeysMeaning(a, b);
    assert SameAt(a, b, 0) <==> p.tool == q.tool;
    assert SameAt(a, b, 1) <==> p.revision == q.revision;
    assert PayloadMeaning(PinValue(p)) == DDict(EntriesMeaning(a)) &&
           PayloadMeaning(PinValue(q)) == DDict(EntriesMeaning(b));
  }

  lemma PinsMeaning(ps: seq<Pin>, qs: seq<Pin>)
    ensures WellFormed(PinValues(ps))
    ensures PayloadMeaning(PinValues(ps)) == PayloadMeaning(PinValues(qs)) <==> ps == qs
  {
    var m, n := PayloadMeaning(PinValues(ps)), PayloadMeaning(PinValues(qs));
    ListMeaning(PinValues(ps).items);
    ListMeaning(PinValues(qs).items);
    forall i | 0 <= i < |ps| ensures WellFormed(PinValue(ps[i])) {
      PinMeaning(ps[i], ps[i]);
    }
    if m == n {
      assert |ps| == |m.items| == |n.items| == |qs|;
      forall i | 0 <= i < |ps| ensures ps[i] == qs[i] {
        assert m.items[i] == PayloadMeaning(PinValue(ps[i])) && n.items[i] == PayloadMeaning(PinValue(qs[i]));
        PinMeaning(ps[i], qs[i]);
      }
    }
  }

  lemma PinOrder()
    ensures Order(PinLeq)
    ensures forall p, q | PinLeq(p, q) && PinLeq(q, p) :: p == q
  {
    TextOrder();
  }

  lemma PinnedToolsMeaning(ps: seq<Pin>, qs: seq<Pin>)
    ensures WellFormed(PinnedTools(ps))
    ensures PayloadMeaning(PinnedTools(ps)) == PayloadMeaning(PinnedTools(qs)) <==> multiset(ps) == multiset(qs)
  {
    PinsMeaning(Sort(ps, PinLeq), Sort(qs, PinLeq));
    PinOrder();
    SortCanonical(ps, qs, PinLeq);
  }

  lemma SortedTextsMeaning(xs: seq<string>, ys: seq<string>)
    ensures WellFormed(NamedTools(xs))
    ensures PayloadMeaning(NamedTools(xs)) == PayloadMeaning(NamedTools(ys)) <==> multiset(xs) == multiset(ys)
  {
    TextsMeaning(Sort(xs, TextLeq), Sort(ys, TextLeq));
    TextOrder();
    SortCanonical(xs, ys, TextLeq);
  }

  lemma TextsAreNotDicts(xs: seq<Value>, ys: seq<Value>)
    requires forall x | x in xs :: x.VText?
    requires forall y | y in ys :: y.VDict?
    ensures PayloadMeaning(VList(xs)) == PayloadMeaning(VList(ys)) <==> xs == [] && ys == []
  {
    ListMeaning(xs);
    ListMeaning(ys);
    var m, n := PayloadMeaning(VList(xs)), PayloadMeaning(VList(ys));
    assert |m.items| == |xs| && |n.items| == |ys|;
    if xs != [] && ys != [] {
      assert xs[0] in xs && ys[0] in ys;
      assert m.items[0] == PayloadMeaning(xs[0]) && n.items[0] == PayloadMeaning(ys[0]);
    }
  }

  /** A name list and a pin list mean the same only when both are empty. */
  lemma NamesAreNotPins(names: seq<string>, pins: seq<Pin>)
    ensures PayloadMeaning(NamedTools(names)) == PayloadMeaning(PinnedTools(pins)) <==> names == [] && pins == []
  {
    SortPermutes(names, TextLeq);
    SortPermutes(pins, PinLeq);
    TextsAreNotDicts(NamedTools(names).items, PinnedTools(pins).items);
  }

  // ---------------------------------------------------------------- the payload as a whole

  /** A number that tells the column names of a payload apart. */
  function KeyCode(key: string): int { if key == "" then 0 else 1000 * |key| + key[0] as int }

  /** The codes of a payload's keys, in order. */
  ghost predicate Coded(c: seq<Entry>, codes: seq<int>) {
    |c| == |codes| && forall i | 0 <= i < |c| :: KeyCode(c[i].key) == codes[i]
  }

  predicate Telling(codes: seq<int>) {
    (forall i, j | 0 <= i < j < |codes| :: codes[i] != codes[j]) && forall i | 0 <= i < |codes| :: codes[i] < 22000
  }

  lemma CodesTellApart(c: seq<Entry>, codes: seq<int>)
    requires Coded(c, codes) && Telling(codes)
    ensures DistinctEntries(c)
    ensures forall e | e in c :: e.key != PREVIOUS
  {
    assert KeyCode(PREVIOUS) > 22000;
    forall i, j | 0 <= i < j < |c| ensures c[i].key != c[j].key {
      assert codes[i] != codes[j];
    }
  }

  const CONTENT_CODES: seq<int> := [4110, 11100, 13115, 10115, 14116, 18114, 11102, 5116, 9109, 15109]

  lemma ContentCoded(b: Body, tools: Value)
    ensures Coded(Content(b, tools), CONTENT_CODES) && Telling(CONTENT_CODES)
  {
  }

  lemma ContentKeys(b: Body, tools: Value)
    ensures DistinctEntries(Content(b, tools))
    ensures forall e | e in Content(b, tools) :: e.key != PREVIOUS
  {
    ContentCoded(b, tools);
    CodesTellApart(Content(b, tools), CONTENT_CODES);
  }

  lemma ContentWellFormed(b: Body, tools: Value)
    requires WellFormedBody(b) && WellFormed(tools)
    ensures WellFormed(VDict(Content(b, tools)))
  {
    ContentKeys(b, tools);
    ContentValues(b, tools);
    WellFormedEntries(Content(b, tools));
  }

  predicate Scalar(v: Value) { v.VText? || v.VInt? || v.VDecimal? }

  lemma ScalarWellFormed(v: Value)
    requires Scalar(v)
    ensures WellFormed(v)
  {
  }

  lemma ContentValue(b: Body, tools: Value, i: nat)
    requires WellFormedBody(b) && WellFormed(tools) && i < 10
    ensures WellFormed(Content(b, tools)[i].value)
  {
    var c := Content(b, tools);
    if i == 3 {
      TextsMeaning(Sort(b.sourceIds, TextLeq), []);
    } else if Scalar(c[i].value) {
      ScalarWellFormed(c[i].value);
    } else {
      assert i == 4 || i == 5 || i == 6;
    }
  }

  lemma {:induction false} ContentValues(b: Body, tools: Value)
    requires WellFormedBody(b) && WellFormed(tools)
    ensures forall e | e in Content(b, tools) :: WellFormed(e.value)
  {
    forall i | 0 <= i < 10 ensures WellFormed(Content(b, tools)[i].value) {
      ContentValue(b, tools, i);
    }
    assert |Content(b, tools)| == 10;
  }

  lemma {:induction false} KeysOfMeaning(entries: seq<Entry>)
    requires forall e | e in entries :: e.key != PREVIOUS
    ensures ContentMeaning(entries) == EntriesMeaning(entries)
  {
    FieldsMeaningKeys(EraseEntries(entries));
    forall i | 0 <= i < |entries| ensures EraseEntries(entries)[i].key != PREVIOUS {
      assert entries[i] in entries;
    }
  }

  lemma ScalarColumns(c: seq<Entry>, d: seq<Entry>, i: nat)
    requires i < |c| && i < |d|
    ensures c[i].value.VText? && d[i].value.VText? ==> (SameAt(c, d, i) <==> c[i].value.s == d[i].value.s)
    ensures c[i].value.VInt? && d[i].value.VInt? ==> (SameAt(c, d, i) <==> c[i].value.n == d[i].value.n)
  {
  }

  lemma FirstColumns(a: Body, s: Value, b: Body, t: Value)
    ensures var c, d := Content(a, s), Content(b, t);
            (SameAt(c, d, 0) <==> a.name == b.name) &&
            (SameAt(c, d, 1) <==> DescriptionText(a) == DescriptionText(b)) &&
            (SameAt(c, d, 2) <==> a.systemPrompt == b.systemPrompt)
  {
    var c, d := Content(a, s), Content(b, t);
    ScalarColumns(c, d, 0);
    ScalarColumns(c, d, 1);
    ScalarColumns(c, d, 2);
  }

  lemma MiddleColumns(a: Body, s: Value, b: Body, t: Value)
    ensures var c, d := Content(a, s), Content(b, t);
            (SameAt(c, d, 3) <==> multiset(a.sourceIds) == multiset(b.sourceIds)) &&
            (SameAt(c, d, 4) <==> PayloadMeaning(s) == PayloadMeaning(t))
  {
    SortedTextsMeaning(a.sourceIds, b.sourceIds);
  }

  lemma LastColumns(a: Body, s: Value, b: Body, t: Value)
    ensures var c, d := Content(a, s), Content(b, t);
            (SameAt(c, d, 5) <==>
             PayloadMeaning(VDict(a.retrievalStrategy)) == PayloadMeaning(VDict(b.retrievalStrategy))) &&
            (SameAt(c, d, 6) <==> PayloadMeaning(VDict(a.filterTree)) == PayloadMeaning(VDict(b.filterTree))) &&
            (SameAt(c, d, 7) <==> a.topK == b.topK) &&
            (SameAt(c, d, 8) <==> SameNumber(a.minScore, b.minScore)) &&
            (SameAt(c, d, 9) <==> a.modelSelection == b.modelSelection)
  {
    DecimalTextExact(a.minScore, b.minScore);
  }

  ghost predicate SameThroughout(c: seq<Entry>, d: seq<Entry>)
    requires |c| == |d|
  {
    forall i | 0 <= i < |c| :: SameAt(c, d, i)
  }

  lemma TenColumns(c: seq<Entry>, d: seq<Entry>)
    requires |c| == |d| == 10
    ensures SameThroughout(c, d) <==>
            SameAt(c, d, 0) && SameAt(c, d, 1) && SameAt(c, d, 2) && SameAt(c, d, 3) && SameAt(c, d, 4) &&
            SameAt(c, d, 5) && SameAt(c, d, 6) && SameAt(c, d, 7) && SameAt(c, d, 8) && SameAt(c, d, 9)
  {
    if i :| 0 <= i < |c| && !SameAt(c, d, i) {
      assert i == 0 || i == 1 || i == 2 || i == 3 || i == 4 || i == 5 || i == 6 || i == 7 || i == 8 || i == 9;
    }
  }

  lemma SameKeysThroughout(a: Body, s: Value, b: Body, t: Value)
    ensures |Content(a, s)| == |Content(b, t)| == 10
    ensures forall i | 0 <= i < 10 :: Content(a, s)[i].key == Content(b, t)[i].key
  {
  }

  lemma ContentByColumns(a: Body, s: Value, b: Body, t: Value)
    ensures |Content(a, s)| == |Content(b, t)| == 10
    ensures ContentMeaning(Content(a, s)) == ContentMeaning(Content(b, t)) <==>
            SameThroughout(Content(a, s), Content(b, t))
  {
    var c, d := Content(a, s), Content(b, t);
    ContentKeys(a, s);
    ContentKeys(b, t);
    KeysOfMeaning(c);
    KeysOfMeaning(d);
    SameKeysThroughout(a, s, b, t);
    SameKeysMeaning(c, d);
  }

  /** Two payloads mean the same exactly when the bodies and the tool lists do. */
  lemma ContentExact(a: Body, s: Value, b: Body, t: Value)
    ensures ContentMeaning(Content(a, s)) == ContentMeaning(Content(b, t)) <==>
            SameBody(a, b) && PayloadMeaning(s) == PayloadMeaning(t)
  {
    ContentByColumns(a, s, b, t);
    TenColumns(Content(a, s), Content(b, t));
    FirstColumns(a, s, b, t);
    MiddleColumns(a, s, b, t);
    LastColumns(a, s, b, t);
  }

  function RoleHash(h: Hash, b: Body, tools: Value, previous: string): string {
    RevisionHash(h, Content(b, tools), previous)
  }

  /** The hash of a role revision, apart from its predecessor, as a statement about its columns. */
  lemma RoleHashExact(h: Hash, a: Body, s: Value, p: string, b: Body, t: Value, q: string)
    requires Ideal(h) && WellFormedBody(a) && WellFormedBody(b) && WellFormed(s) && WellFormed(t)
    ensures RoleHash(h, a, s, p) == RoleHash(h, b, t, q) <==>
            SameBody(a, b) && PayloadMeaning(s) == PayloadMeaning(t) && p == q
  {
    ContentWellFormed(a, s);
    ContentWellFormed(b, t);
    HashExact(h, Content(a, s), p, Content(b, t), q);
    ContentExact(a, s, b, t);
  }

  /**
   A pinned revision's hash ignores the order of source ids, of pins and of dict
   keys, and ignores nothing else.
   */
  lemma PinnedHashExact(h: Hash, a: Body, ps: seq<Pin>, p: string, b: Body, qs: seq<Pin>, q: string)
    requires Ideal(h) && WellFormedBody(a) && WellFormedBody(b)
    ensures RoleHash(h, a, PinnedTools(ps), p) == RoleHash(h, b, PinnedTools(qs), q) <==>
            SameBody(a, b) && multiset(ps) == multiset(qs) && p == q
  {
    PinnedToolsMeaning(ps, qs);
    PinnedToolsMeaning(qs, ps);
    RoleHashExact(h, a, PinnedTools(ps), p, b, PinnedTools(qs), q);
  }
}
