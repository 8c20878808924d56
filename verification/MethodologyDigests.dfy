/**
 What is left of a methodology's digests once migration 0006 has been undone: the
 bundles are back, but the digests still cover the role references.
 */
module MethodologyDigests {
  import opened JsonText
  import opened CanonicalJson
  import opened HashChain
  import opened RolePayload
  import opened MethodologyPayload
  import opened MethodologyRoles
  import opened MethodologyUpgrade

  ghost predicate SameDigests(a: seq<Methodology>, b: seq<Methodology>) {
    |a| == |b| && forall i | 0 <= i < |a| :: a[i].previous == b[i].previous && a[i].own == b[i].own
  }

  lemma RestoredRow(h: Hash, draw: Draw, p: Plane, q: Plane, r: Plane, i: nat)
    requires Flat(p.methodologies) && DrawsNew(draw, p) && Upgrade(h, draw, p) == Some(q) && Downgrade(q) == Some(r)
    requires i < |p.methodologies|
    ensures |r.methodologies| == |p.methodologies|
    ensures var back, anchored := r.methodologies[i], Reanchor(h, draw, p.methodologies)[i];
            back.previous == anchored.previous && back.own == anchored.own
  {
    RefilledRow(h, draw, p, q, i);
  }

  /** Downgrading restores every digest exactly when the digests already were the re-anchored ones. */
  lemma DowngradeRestoresDigests(h: Hash, draw: Draw, p: Plane, q: Plane, r: Plane)
    requires Flat(p.methodologies) && DrawsNew(draw, p) && Upgrade(h, draw, p) == Some(q) && Downgrade(q) == Some(r)
    ensures SameDigests(r.methodologies, p.methodologies) <==>
            SameDigests(Reanchor(h, draw, p.methodologies), p.methodologies)
  {
    assert |r.methodologies| == |p.methodologies|;
    forall i | 0 <= i < |p.methodologies|
      ensures r.methodologies[i].previous == Reanchor(h, draw, p.methodologies)[i].previous
      ensures r.methodologies[i].own == Reanchor(h, draw, p.methodologies)[i].own
    {
      RestoredRow(h, draw, p, q, r, i);
    }
  }

  /** The payload a methodology revision was hashed over while it carried its bundle. */
  function FlatContent(name: string, description: Option<string>, b: Bundle): seq<Entry> {
    Content(RoleBody(name, description, b), NamedTools(b.tools))
  }

  function FlatRevision(row: Methodology): Revision
    requires row.bundle.Some?
  {
    Revision(FlatContent(row.name, row.description, row.bundle.value), row.previous, row.own)
  }

  function FlatChain(rows: seq<Methodology>, t: string): seq<Revision>
    requires Flat(rows)
  {
    if rows == [] then []
    else
      var front, last := FlatChain(rows[..|rows| - 1], t), rows[|rows| - 1];
      if last.template == t then front + [FlatRevision(last)] else front
  }

  ghost predicate WellFormedBundle(b: Bundle) {
    WellFormed(VDict(b.retrievalStrategy)) && WellFormed(VDict(b.filterTree))
  }

  ghost predicate WellFormedBundles(rows: seq<Methodology>) {
    forall i | 0 <= i < |rows| :: rows[i].bundle.Some? && WellFormedBundle(rows[i].bundle.value)
  }

  lemma KeyInMeaning(entries: seq<Entry>, key: string)
    requires forall e | e in entries :: e.key != PREVIOUS
    ensures key in ContentMeaning(entries) <==> exists i :: 0 <= i < |entries| && entries[i].key == key
  {
    KeysOfMeaning(entries);
    FieldsMeaningKeys(EraseEntries(entries));
  }

  const PROMPT_KEY := "system_prompt"

  lemma FlatHasPrompt(name: string, description: Option<string>, b: Bundle)
    ensures PROMPT_KEY in ContentMeaning(FlatContent(name, description, b))
  {
    var c := FlatContent(name, description, b);
    ContentKeys(RoleBody(name, description, b), NamedTools(b.tools));
    PromptColumn(RoleBody(name, description, b), NamedTools(b.tools));
    KeyInMeaning(c, PROMPT_KEY);
  }

  lemma PromptColumn(b: Body, tools: Value)
    ensures |Content(b, tools)| == 10 && Content(b, tools)[2].key == PROMPT_KEY
  {
  }

  lemma PlaybookHasNoPrompt(name: string, description: Option<string>, refs: seq<Ref>)
    ensures PROMPT_KEY !in ContentMeaning(MethodologyContent(name, description, refs))
  {
    var c := MethodologyContent(name, description, refs);
    MethodologyCoded(name, description, refs);
    CodesTellApart(c, METHODOLOGY_CODES);
    KeyInMeaning(c, PROMPT_KEY);
    assert KeyCode(PROMPT_KEY) == 13115;
  }

  /** No digest over a bundle is a digest over role references. */
  lemma {:induction false} PayloadsApart(
      h: Hash, n: string, d: Option<string>, b: Bundle, p: string, m: string, e: Option<string>, role: string,
      q: string)
    requires Ideal(h) && WellFormedBundle(b)
    ensures RevisionHash(h, FlatContent(n, d, b), p) != MethodologyHash(h, m, e, [RoleRef(role)], q)
  {
    SortedTextsMeaning(b.tools, b.tools);
    ContentWellFormed(RoleBody(n, d, b), NamedTools(b.tools));
    MethodologyContentWellFormed(m, e, [RoleRef(role)]);
    HashExact(h, FlatContent(n, d, b), p, MethodologyContent(m, e, [RoleRef(role)]), q);
    FlatHasPrompt(n, d, b);
    PlaybookHasNoPrompt(m, e, [RoleRef(role)]);
  }

  /** What the downgrade leaves in a row's own digest: one over role references. */
  lemma DowngradedOwn(h: Hash, draw: Draw, p: Plane, q: Plane, r: Plane, i: nat)
    requires Flat(p.methodologies) && DrawsNew(draw, p) && Upgrade(h, draw, p) == Some(q) && Downgrade(q) == Some(r)
    requires i < |p.methodologies|
    ensures |r.methodologies| == |p.methodologies|
    ensures var row := p.methodologies[i];
            r.methodologies[i].own == MethodologyHash(
              h, row.name, row.description, [RoleRef(draw(row.template))], r.methodologies[i].previous)
  {
    RefilledRow(h, draw, p, q, i);
    ReanchorAt(h, draw, p.methodologies, i);
  }

  /** No row whose digest covered its bundle gets that digest back. */
  lemma NoDigestComesBack(h: Hash, draw: Draw, p: Plane, q: Plane, r: Plane, i: nat)
    requires Ideal(h) && WellFormedBundles(p.methodologies)
    requires DrawsNew(draw, p) && Flat(p.methodologies) && Upgrade(h, draw, p) == Some(q) && Downgrade(q) == Some(r)
    requires i < |p.methodologies| && Sound(h, FlatRevision(p.methodologies[i]))
    ensures |r.methodologies| == |p.methodologies| && r.methodologies[i].own != p.methodologies[i].own
  {
    var row := p.methodologies[i];
    DowngradedOwn(h, draw, p, q, r, i);
    PayloadsApart(h, row.name, row.description, row.bundle.value, row.previous,
                  row.name, row.description, draw(row.template), r.methodologies[i].previous);
  }

  lemma DowngradedUnsound(h: Hash, draw: Draw, p: Plane, q: Plane, r: Plane, i: nat)
    requires Ideal(h) && WellFormedBundles(p.methodologies)
    requires DrawsNew(draw, p) && Flat(p.methodologies) && Upgrade(h, draw, p) == Some(q) && Downgrade(q) == Some(r)
    requires i < |p.methodologies|
    ensures Flat(r.methodologies) && |r.methodologies| == |p.methodologies| &&
            !Sound(h, FlatRevision(r.methodologies[i]))
  {
    var row, back := p.methodologies[i], r.methodologies[i];
    FirstOfAt(p.methodologies, row.template);
    RefilledRow(h, draw, p, q, i);
    DowngradedOwn(h, draw, p, q, r, i);
    PayloadsApart(h, back.name, back.description, back.bundle.value, back.previous,
                  row.name, row.description, draw(row.template), back.previous);
  }

  lemma {:induction false} FlatChainHas(rows: seq<Methodology>, i: nat)
    requires Flat(rows) && i < |rows|
    ensures FlatRevision(rows[i]) in FlatChain(rows, rows[i].template)
  {
    if i < |rows| - 1 {
      FlatChainHas(rows[..|rows| - 1], i);
    }
  }

  lemma {:induction false} FlatChainEmpty(rows: seq<Methodology>, t: string)
    requires Flat(rows) && forall i | 0 <= i < |rows| :: rows[i].template != t
    ensures FlatChain(rows, t) == []
  {
    if rows != [] {
      FlatChainEmpty(rows[..|rows| - 1], t);
    }
  }

  lemma BackByTemplate(h: Hash, draw: Draw, p: Plane, q: Plane, r: Plane)
    requires Flat(p.methodologies) && DrawsNew(draw, p) && Upgrade(h, draw, p) == Some(q) && Downgrade(q) == Some(r)
    ensures Flat(r.methodologies) && |r.methodologies| == |p.methodologies|
    ensures forall i | 0 <= i < |p.methodologies| :: r.methodologies[i].template == p.methodologies[i].template
  {
    forall i | 0 <= i < |p.methodologies|
      ensures |r.methodologies| == |p.methodologies| && r.methodologies[i].template == p.methodologies[i].template
    {
      RefilledRow(h, draw, p, q, i);
    }
  }

  lemma {:induction false} UnsoundUnlinks(h: Hash, rows: seq<Methodology>, i: nat)
    requires Flat(rows) && i < |rows| && !Sound(h, FlatRevision(rows[i]))
    ensures !Linked(h, FlatChain(rows, rows[i].template))
  {
    FlatChainHas(rows, i);
    var chain := FlatChain(rows, rows[i].template);
    var k :| 0 <= k < |chain| && chain[k] == FlatRevision(rows[i]);
    assert !Sound(h, chain[k]);
  }

  /** After the downgrade no methodology that has revisions has a valid chain over its bundles. */
  lemma DowngradeValidatesNoChain(h: Hash, draw: Draw, p: Plane, q: Plane, r: Plane, t: string)
    requires Ideal(h) && WellFormedBundles(p.methodologies)
    requires DrawsNew(draw, p) && Flat(p.methodologies) && Upgrade(h, draw, p) == Some(q) && Downgrade(q) == Some(r)
    ensures Flat(r.methodologies)
    ensures Linked(h, FlatChain(r.methodologies, t)) <==> FirstOf(p.methodologies, t) == None
  {
    FirstOfAt(p.methodologies, t);
    BackByTemplate(h, draw, p, q, r);
    if FirstOf(p.methodologies, t) == None {
      FlatChainEmpty(r.methodologies, t);
    } else {
      var i :| 0 <= i < |p.methodologies| && p.methodologies[i].template == t;
      DowngradedUnsound(h, draw, p, q, r, i);
      UnsoundUnlinks(h, r.methodologies, i);
    }
  }
}
