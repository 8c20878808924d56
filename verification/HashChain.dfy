/**
 Revision hash chains (padhanam/security/hash_chain.py). Each revision's digest
 covers its content and, as one more key of the payload, its predecessor's
 digest; a chain starts from the genesis sentinel. SHA-256 is a parameter `h`
 from text to hexadecimal text; where collision-freedom is used it is a
 hypothesis about that parameter.
 */
module HashChain {
  import opened JsonText
  import opened CanonicalJson
  import opened Decimals

  type Hash = string -> string

  const GENESIS: string := Zeros(64)

  const PREVIOUS := "previous_revision_hash"

  /** No two texts share a digest and no text has the sentinel for a digest. */
  ghost predicate Ideal(h: Hash) {
    && (forall x, y :: h(x) == h(y) ==> x == y)
    && (forall x :: h(x) != GENESIS)
  }

  /** `{**entries, key: value}`: an existing key keeps its place. */
  function Put(entries: seq<Entry>, key: string, value: Value): seq<Entry> {
    if entries == [] then [Entry(key, value)]
    else
      var front, last := entries[..|entries| - 1], entries[|entries| - 1];
      if last.key == key then front + [Entry(key, value)] else Put(front, key, value) + [last]
  }

  function RevisionHash(h: Hash, content: seq<Entry>, previous: string): string {
    h(Canonical(VDict(Put(content, PREVIOUS, VText(previous)))))
  }

  datatype Revision = Revision(content: seq<Entry>, previous: string, own: string)

  function Head(chain: seq<Revision>): string {
    if chain == [] then GENESIS else chain[|chain| - 1].own
  }

  ghost predicate Sound(h: Hash, r: Revision) {
    r.own == RevisionHash(h, r.content, r.previous)
  }

  /** Every revision names its predecessor's digest and carries its own. */
  ghost predicate Linked(h: Hash, chain: seq<Revision>) {
    forall i | 0 <= i < |chain| :: chain[i].previous == Head(chain[..i]) && Sound(h, chain[i])
  }

  ghost predicate WellFormedChain(chain: seq<Revision>) {
    forall i | 0 <= i < |chain| :: WellFormed(VDict(chain[i].content))
  }

  function EraseEntries(entries: seq<Entry>): (fields: seq<Field>)
    ensures JObj(fields) == Erase(VDict(entries))
    ensures |fields| == |entries|
    ensures forall i | 0 <= i < |entries| :: fields[i] == Field(entries[i].key, Erase(entries[i].value))
  {
    Erase(VDict(entries)).fields
  }

  function EntriesMeaning(entries: seq<Entry>): map<string, Data> { FieldsMeaning(EraseEntries(entries)) }

  /** What a content payload means once its `previous_revision_hash` key, if any, is overwritten. */
  function ContentMeaning(content: seq<Entry>): map<string, Data> {
    EntriesMeaning(content) - {PREVIOUS}
  }

  /** The two chains hold the same contents, position by position. */
  ghost predicate SameContents(a: seq<Revision>, b: seq<Revision>) {
    |a| == |b| && forall i | 0 <= i < |a| :: ContentMeaning(a[i].content) == ContentMeaning(b[i].content)
  }

  // ---------------------------------------------------------------- one digest

  lemma MeaningOfAppend(front: seq<Entry>, last: Entry)
    ensures EntriesMeaning(front + [last]) == EntriesMeaning(front)[last.key := Meaning(Erase(last.value))]
  {
    var all := EraseEntries(front + [last]);
    assert all[..|front|] == EraseEntries(front);
    assert all[|front|] == Field(last.key, Erase(last.value));
  }

  lemma UpdatesCommute<V>(m: map<string, V>, k: string, v: V, l: string, w: V)
    requires k != l
    ensures m[k := v][l := w] == m[l := w][k := v]
  {
  }

  lemma {:induction false} MeaningOfPut(entries: seq<Entry>, key: string, value: Value)
    ensures EntriesMeaning(Put(entries, key, value)) == EntriesMeaning(entries)[key := Meaning(Erase(value))]
  {
    if entries == [] {
      MeaningOfAppend([], Entry(key, value));
      assert [] + [Entry(key, value)] == [Entry(key, value)];
    } else {
      var front, last := entries[..|entries| - 1], entries[|entries| - 1];
      assert entries == front + [last];
      MeaningOfAppend(front, last);
      if last.key == key {
        MeaningOfAppend(front, Entry(key, value));
      } else {
        MeaningOfPut(front, key, value);
        MeaningOfAppend(Put(front, key, value), last);
        UpdatesCommute(EntriesMeaning(front), key, Meaning(Erase(value)), last.key, Meaning(Erase(last.value)));
      }
    }
  }

  lemma {:induction false} PutKeys(entries: seq<Entry>, key: string, value: Value)
    ensures forall e | e in Put(entries, key, value) :: e.key == key || e in entries
  {
    if entries != [] {
      var front, last := entries[..|entries| - 1], entries[|entries| - 1];
      if last.key != key {
        PutKeys(front, key, value);
      }
    }
  }

  ghost predicate DistinctEntries(entries: seq<Entry>) {
    forall i, j | 0 <= i < j < |entries| :: entries[i].key != entries[j].key
  }

  lemma {:induction false} PutDistinct(entries: seq<Entry>, key: string, value: Value)
    requires DistinctEntries(entries)
    ensures DistinctEntries(Put(entries, key, value))
  {
    if entries != [] {
      var front, last := entries[..|entries| - 1], entries[|entries| - 1];
      if last.key != key {
        PutDistinct(front, key, value);
        PutKeys(front, key, value);
        forall e | e in Put(front, key, value) ensures e.key != last.key {
          if e in front {
            var i :| 0 <= i < |front| && front[i] == e;
          }
        }
      }
    }
  }

  lemma WellFormedEntries(entries: seq<Entry>)
    ensures WellFormed(VDict(entries)) <==> DistinctEntries(entries) && forall e | e in entries :: WellFormed(e.value)
  {
    var fields := EraseEntries(entries);
    if WellFormed(VDict(entries)) {
      forall i, j | 0 <= i < j < |entries| ensures entries[i].key != entries[j].key {
        assert fields[i].key != fields[j].key;
      }
      forall e | e in entries ensures WellFormed(e.value) {
        var i :| 0 <= i < |entries| && entries[i] == e;
        assert WellKeyed(fields[i].value);
      }
    }
  }

  lemma {:induction false} PutWellFormed(content: seq<Entry>, previous: string)
    requires WellFormed(VDict(content))
    ensures WellFormed(VDict(Put(content, PREVIOUS, VText(previous))))
  {
    var all := Put(content, PREVIOUS, VText(previous));
    WellFormedEntries(content);
    PutDistinct(content, PREVIOUS, VText(previous));
    PutValues(content, PREVIOUS, VText(previous));
    WellFormedEntries(all);
  }

  lemma {:induction false} PutValues(entries: seq<Entry>, key: string, value: Value)
    ensures forall e | e in Put(entries, key, value) :: e in entries || e.value == value
  {
    if entries != [] {
      var front, last := entries[..|entries| - 1], entries[|entries| - 1];
      if last.key != key {
        PutValues(front, key, value);
      }
    }
  }

  lemma PayloadParts(content: seq<Entry>, previous: string)
    ensures PayloadMeaning(VDict(Put(content, PREVIOUS, VText(previous)))) ==
            DDict(ContentMeaning(content)[PREVIOUS := DText(previous)])
  {
    MeaningOfPut(content, PREVIOUS, VText(previous));
    var m := EntriesMeaning(content);
    assert m[PREVIOUS := DText(previous)] == (m - {PREVIOUS})[PREVIOUS := DText(previous)];
  }

  /** Two revision hashes agree exactly when the contents and the predecessors do. */
  lemma HashExact(h: Hash, c: seq<Entry>, p: string, d: seq<Entry>, q: string)
    requires Ideal(h) && WellFormed(VDict(c)) && WellFormed(VDict(d))
    ensures RevisionHash(h, c, p) == RevisionHash(h, d, q) <==> ContentMeaning(c) == ContentMeaning(d) && p == q
  {
    var v, w := VDict(Put(c, PREVIOUS, VText(p))), VDict(Put(d, PREVIOUS, VText(q)));
    PutWellFormed(c, p);
    PutWellFormed(d, q);
    CanonicalExact(v, w);
    PayloadParts(c, p);
    PayloadParts(d, q);
    var m, n := ContentMeaning(c)[PREVIOUS := DText(p)], ContentMeaning(d)[PREVIOUS := DText(q)];
    if m == n {
      assert m[PREVIOUS] == n[PREVIOUS];
      assert ContentMeaning(c) == m - {PREVIOUS} && ContentMeaning(d) == n - {PREVIOUS};
    }
  }

  // ---------------------------------------------------------------- chains

  lemma LinkedPrefix(h: Hash, chain: seq<Revision>, n: nat)
    requires Linked(h, chain) && n <= |chain|
    ensures Linked(h, chain[..n])
  {
    forall i | 0 <= i < n ensures chain[..n][i].previous == Head(chain[..n][..i]) {
      assert chain[..n][..i] == chain[..i];
    }
  }

  lemma {:induction false} LinkedAppend(h: Hash, chain: seq<Revision>, r: Revision)
    requires Linked(h, chain) && r.previous == Head(chain) && Sound(h, r)
    ensures Linked(h, chain + [r])
  {
    var all := chain + [r];
    forall i | 0 <= i < |all| ensures all[i].previous == Head(all[..i]) && Sound(h, all[i]) {
      assert all[..i] == chain[..i];
    }
  }

  lemma HeadNotGenesis(h: Hash, chain: seq<Revision>)
    requires Ideal(h) && Linked(h, chain) && chain != []
    ensures Head(chain) != GENESIS
  {
    assert Sound(h, chain[|chain| - 1]);
  }

  /**
   Tamper evidence: the last digest of a chain fixes its length and all of its
   contents, and nothing else enters it.
   */
  lemma {:induction false} TamperEvident(h: Hash, a: seq<Revision>, b: seq<Revision>)
    requires Ideal(h) && Linked(h, a) && Linked(h, b) && WellFormedChain(a) && WellFormedChain(b)
    ensures Head(a) == Head(b) <==> SameContents(a, b)
    decreases |a|
  {
    if a == [] || b == [] {
      if a != [] { HeadNotGenesis(h, a); }
      if b != [] { HeadNotGenesis(h, b); }
    } else {
      var m, n := |a| - 1, |b| - 1;
      LinkedPrefix(h, a, m);
      LinkedPrefix(h, b, n);
      TamperEvident(h, a[..m], b[..n]);
      assert Sound(h, a[m]) && Sound(h, b[n]);
      HashExact(h, a[m].content, a[m].previous, b[n].content, b[n].previous);
      SameContentsStep(a, b);
    }
  }

  ghost predicate SameContentAt(a: seq<Revision>, b: seq<Revision>, i: nat)
    requires i < |a| && i < |b|
  {
    ContentMeaning(a[i].content) == ContentMeaning(b[i].content)
  }

  lemma ContentsOfFronts(a: seq<Revision>, b: seq<Revision>)
    requires a != [] && |a| == |b|
    ensures SameContents(a[..|a| - 1], b[..|b| - 1]) <==> forall i | 0 <= i < |a| - 1 :: SameContentAt(a, b, i)
  {
    var x, y := a[..|a| - 1], b[..|b| - 1];
    forall i | 0 <= i < |x| ensures x[i] == a[i] && y[i] == b[i] {
    }
    if SameContents(x, y) {
      forall i | 0 <= i < |a| - 1 ensures SameContentAt(a, b, i) {
        assert ContentMeaning(x[i].content) == ContentMeaning(y[i].content);
      }
    }
    if forall i | 0 <= i < |a| - 1 :: SameContentAt(a, b, i) {
      forall i | 0 <= i < |x| ensures ContentMeaning(x[i].content) == ContentMeaning(y[i].content) {
        assert SameContentAt(a, b, i);
      }
    }
  }

  lemma ContentsThroughout(a: seq<Revision>, b: seq<Revision>)
    requires |a| == |b|
    ensures SameContents(a, b) <==> forall i | 0 <= i < |a| :: SameContentAt(a, b, i)
  {
    if SameContents(a, b) {
      forall i | 0 <= i < |a| ensures SameContentAt(a, b, i) {
      }
    }
    if forall i | 0 <= i < |a| :: SameContentAt(a, b, i) {
      forall i | 0 <= i < |a| ensures ContentMeaning(a[i].content) == ContentMeaning(b[i].content) {
        assert SameContentAt(a, b, i);
      }
    }
  }

  lemma SameContentsStep(a: seq<Revision>, b: seq<Revision>)
    requires a != [] && b != []
    ensures var m, n := |a| - 1, |b| - 1;
            SameContents(a, b) <==>
            SameContents(a[..m], b[..n]) && ContentMeaning(a[m].content) == ContentMeaning(b[n].content)
  {
    if |a| == |b| {
      ContentsOfFronts(a, b);
      ContentsThroughout(a, b);
      assert SameContentAt(a, b, |a| - 1) <==> ContentMeaning(a[|a| - 1].content) == ContentMeaning(b[|a| - 1].content);
    }
  }

  /** No digest occurs twice in a chain: two of its prefixes with one head are the same prefix. */
  lemma {:induction false} HeadsDiffer(h: Hash, chain: seq<Revision>, m: nat, n: nat)
    requires Ideal(h) && Linked(h, chain) && WellFormedChain(chain) && m <= |chain| && n <= |chain|
    ensures Head(chain[..m]) == Head(chain[..n]) <==> m == n
  {
    LinkedPrefix(h, chain, m);
    LinkedPrefix(h, chain, n);
    TamperEvident(h, chain[..m], chain[..n]);
  }

  /** The hypothesis on the hash can be met, so what is proved under it is not empty. */
  lemma IdealHashExists() returns (h: Hash)
    ensures Ideal(h)
  {
    h := (x: string) => "h" + x;
    forall x, y | h(x) == h(y) ensures x == y {
      assert h(x)[1..] == x && h(y)[1..] == y;
    }
    forall x ensures h(x) != GENESIS {
      assert h(x)[0] == 'h' && GENESIS[0] in GENESIS;
    }
  }
}
