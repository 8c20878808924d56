/**
 The content payload of a methodology revision once methodologies are playbooks
 of role references: name, description, and the references sorted by role id.
 */
module MethodologyPayload {
  import opened JsonText
  import opened Sorting
  import opened CanonicalJson
  import opened HashChain
  import opened RolePayload

  datatype Ref = Ref(role: string, version: int, overrides: Value)

  predicate RefLeq(a: Ref, b: Ref) { TextLeq(a.role, b.role) }

  function RefEntries(r: Ref): seq<Entry> {
    [Entry("role_id", VText(r.role)), Entry("role_version", VInt(r.version)), Entry("overrides", r.overrides)]
  }

  function RefValues(refs: seq<Ref>): seq<Value> {
    seq(|refs|, i requires 0 <= i < |refs| => VDict(RefEntries(refs[i])))
  }

  function MethodologyContent(name: string, description: Option<string>, refs: seq<Ref>): seq<Entry> {
    [ Entry("name", VText(name)),
      Entry("description", VText(match description case None => "" case Some(s) => s)),
      Entry("role_refs", VList(RefValues(Sort(refs, RefLeq)))) ]
  }

  function MethodologyHash(h: Hash, name: string, description: Option<string>, refs: seq<Ref>,
                           previous: string): string {
    RevisionHash(h, MethodologyContent(name, description, refs), previous)
  }

  ghost predicate WellFormedRefs(refs: seq<Ref>) {
    forall r | r in refs :: WellFormed(r.overrides)
  }

  ghost predicate DistinctRoles(refs: seq<Ref>) {
    forall i, j | 0 <= i < |refs| && 0 <= j < |refs| && refs[i].role == refs[j].role :: i == j
  }

  /** What a reference says, its overrides up to key order and erasure. */
  datatype Sense = Sense(role: string, version: int, overrides: Data)

  ghost function SenseOf(r: Ref): Sense { Sense(r.role, r.version, PayloadMeaning(r.overrides)) }

  ghost function Senses(refs: seq<Ref>): (s: seq<Sense>)
    ensures |s| == |refs|
  {
    seq(|refs|, i requires 0 <= i < |refs| => SenseOf(refs[i]))
  }

  predicate SenseLeq(a: Sense, b: Sense) { TextLeq(a.role, b.role) }

  // ---------------------------------------------------------------- one reference

  lemma RefKeys(r: Ref)
    ensures DistinctEntries(RefEntries(r))
  {
    assert Coded(RefEntries(r), [7114, 12114, 9111]);
    CodesTellApart(RefEntries(r), [7114, 12114, 9111]);
  }

  lemma RefWellFormed(r: Ref)
    requires WellFormed(r.overrides)
    ensures WellFormed(VDict(RefEntries(r)))
  {
    RefKeys(r);
    WellFormedEntries(RefEntries(r));
  }

  lemma ThreeColumns(c: seq<Entry>, d: seq<Entry>)
    requires |c| == |d| == 3
    ensures (forall i | 0 <= i < 3 :: SameAt(c, d, i)) <==> SameAt(c, d, 0) && SameAt(c, d, 1) && SameAt(c, d, 2)
  {
  }

  lemma RefMeaning(p: Ref, q: Ref)
    ensures PayloadMeaning(VDict(RefEntries(p))) == PayloadMeaning(VDict(RefEntries(q))) <==> SenseOf(p) == SenseOf(q)
  {
    var a, b := RefEntries(p), RefEntries(q);
    RefKeys(p);
    SameKeysMeaning(a, b);
    ThreeColumns(a, b);
    ScalarColumns(a, b, 0);
    ScalarColumns(a, b, 1);
    assert PayloadMeaning(VDict(a)) == DDict(EntriesMeaning(a)) && PayloadMeaning(VDict(b)) == DDict(EntriesMeaning(b));
  }

  lemma RefsMeaning(ps: seq<Ref>, qs: seq<Ref>)
    ensures WellFormedRefs(ps) ==> WellFormed(VList(RefValues(ps)))
    ensures PayloadMeaning(VList(RefValues(ps))) == PayloadMeaning(VList(RefValues(qs))) <==> Senses(ps) == Senses(qs)
  {
    var m, n := PayloadMeaning(VList(RefValues(ps))), PayloadMeaning(VList(RefValues(qs)));
    ListMeaning(RefValues(ps));
    ListMeaning(RefValues(qs));
    if WellFormedRefs(ps) {
      forall i | 0 <= i < |ps| ensures WellFormed(VDict(RefEntries(ps[i]))) {
        RefWellFormed(ps[i]);
      }
    }
    assert |m.items| == |ps| && |n.items| == |qs|;
    if |ps| == |qs| {
      forall i | 0 <= i < |ps| ensures m.items[i] == n.items[i] <==> Senses(ps)[i] == Senses(qs)[i] {
        assert m.items[i] == PayloadMeaning(VDict(RefEntries(ps[i]))) &&
               n.items[i] == PayloadMeaning(VDict(RefEntries(qs[i])));
        RefMeaning(ps[i], qs[i]);
      }
    }
  }

  // ---------------------------------------------------------------- sorting by role id

  lemma SensesOfCons(x: Ref, xs: seq<Ref>)
    ensures Senses([x] + xs) == [SenseOf(x)] + Senses(xs)
  {
  }

  lemma {:induction false} InsertSenses(x: Ref, xs: seq<Ref>)
    ensures Senses(Insert(x, xs, RefLeq)) == Insert(SenseOf(x), Senses(xs), SenseLeq)
  {
    if xs == [] {
      SensesOfCons(x, []);
    } else {
      assert xs == [xs[0]] + xs[1..];
      SensesOfCons(xs[0], xs[1..]);
      if RefLeq(x, xs[0]) {
        SensesOfCons(x, xs);
      } else {
        InsertSenses(x, xs[1..]);
        SensesOfCons(xs[0], Insert(x, xs[1..], RefLeq));
      }
    }
  }

  lemma {:induction false} SortSenses(xs: seq<Ref>)
    ensures Senses(Sort(xs, RefLeq)) == Sort(Senses(xs), SenseLeq)
  {
    if xs != [] {
      SortSenses(xs[1..]);
      InsertSenses(xs[0], Sort(xs[1..], RefLeq));
      assert Senses(xs)[0] == SenseOf(xs[0]) && Senses(xs)[1..] == Senses(xs[1..]);
    }
  }

  lemma {:induction false} DistinctRolesDoNotTie(refs: seq<Ref>)
    requires DistinctRoles(refs)
    ensures Order(SenseLeq) && TiesAreEqual(Senses(refs), SenseLeq)
  {
    TextOrder();
    forall x, y | x in Senses(refs) && y in Senses(refs) && SenseLeq(x, y) && SenseLeq(y, x) ensures x == y {
      var i :| 0 <= i < |refs| && Senses(refs)[i] == x;
      var j :| 0 <= j < |refs| && Senses(refs)[j] == y;
      assert refs[i].role == refs[j].role;
    }
  }

  lemma SortKeepsWellFormedRefs(refs: seq<Ref>)
    requires WellFormedRefs(refs)
    ensures WellFormedRefs(Sort(refs, RefLeq))
  {
    SortPermutes(refs, RefLeq);
    forall r | r in Sort(refs, RefLeq) ensures WellFormed(r.overrides) {
      assert r in multiset(Sort(refs, RefLeq));
      assert r in refs;
    }
  }

  // ---------------------------------------------------------------- the hash

  const METHODOLOGY_CODES: seq<int> := [4110, 11100, 9114]

  lemma MethodologyCoded(name: string, description: Option<string>, refs: seq<Ref>)
    ensures Coded(MethodologyContent(name, description, refs), METHODOLOGY_CODES) && Telling(METHODOLOGY_CODES)
  {
  }

  lemma MethodologyKeys(name: string, description: Option<string>, refs: seq<Ref>)
    ensures DistinctEntries(MethodologyContent(name, description, refs))
    ensures forall e | e in MethodologyContent(name, description, refs) :: e.key != PREVIOUS
  {
    MethodologyCoded(name, description, refs);
    CodesTellApart(MethodologyContent(name, description, refs), METHODOLOGY_CODES);
  }

  lemma MethodologyContentWellFormed(name: string, description: Option<string>, refs: seq<Ref>)
    requires WellFormedRefs(refs)
    ensures WellFormed(VDict(MethodologyContent(name, description, refs)))
  {
    var c := MethodologyContent(name, description, refs);
    MethodologyKeys(name, description, refs);
    SortKeepsWellFormedRefs(refs);
    RefsMeaning(Sort(refs, RefLeq), []);
    WellFormedEntries(c);
  }

  ghost predicate SameText(d: Option<string>, e: Option<string>) {
    (match d case None => "" case Some(s) => s) == (match e case None => "" case Some(s) => s)
  }

  lemma MethodologyContentExact(n: string, d: Option<string>, a: seq<Ref>, m: string, e: Option<string>, b: seq<Ref>)
    requires DistinctRoles(a)
    ensures ContentMeaning(MethodologyContent(n, d, a)) == ContentMeaning(MethodologyContent(m, e, b)) <==>
            n == m && SameText(d, e) && multiset(Senses(a)) == multiset(Senses(b))
  {
    var x, y := MethodologyContent(n, d, a), MethodologyContent(m, e, b);
    MethodologyKeys(n, d, a);
    MethodologyKeys(m, e, b);
    KeysOfMeaning(x);
    KeysOfMeaning(y);
    SameKeysMeaning(x, y);
    ScalarColumns(x, y, 0);
    ScalarColumns(x, y, 1);
    assert SameAt(x, y, 2) <==> multiset(Senses(a)) == multiset(Senses(b)) by {
      RefsMeaning(Sort(a, RefLeq), Sort(b, RefLeq));
      SortSenses(a);
      SortSenses(b);
      DistinctRolesDoNotTie(a);
      SortCanonical(Senses(a), Senses(b), SenseLeq);
    }
  }

  /** The hash of a methodology ignores the order of its role references, and nothing else in them. */
  lemma MethodologyHashExact(
      h: Hash, n: string, d: Option<string>, a: seq<Ref>, p: string, m: string, e: Option<string>, b: seq<Ref>,
      q: string)
    requires Ideal(h) && WellFormedRefs(a) && WellFormedRefs(b) && DistinctRoles(a)
    ensures MethodologyHash(h, n, d, a, p) == MethodologyHash(h, m, e, b, q) <==>
            n == m && SameText(d, e) && multiset(Senses(a)) == multiset(Senses(b)) && p == q
  {
    MethodologyContentWellFormed(n, d, a);
    MethodologyContentWellFormed(m, e, b);
    HashExact(h, MethodologyContent(n, d, a), p, MethodologyContent(m, e, b), q);
    MethodologyContentExact(n, d, a, m, e, b);
  }
}
