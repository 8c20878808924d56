/**
 The role revisions migrations 0006 and 0007 write, as the rows the later migrations
 read them as: their digests cover their own names, bundles and tools.
 */
module MintedRoles {
  import opened JsonText
  import opened HashChain
  import opened RolePayload
  import opened Allowlists
  import opened ChainWalk
  import opened AllowlistPin
  import R = MethodologyRoles
  import U = MethodologyUpgrade
  import N = MethodologyRename

  /** A role's revision as a row of `role_revisions` joined with its template. */
  function AsRow(role: R.Role, r: R.RoleRevision): Row {
    Row(role.id, role.id, R.RoleBody(role.name, role.description, r.bundle), NamesColumn(r.bundle.tools), r.previous,
        r.own)
  }

  lemma RowContent(role: R.Role, r: R.RoleRevision)
    ensures ShapeContent(AsRow(role, r)) ==
            Content(R.RoleBody(role.name, role.description, r.bundle), NamedTools(r.bundle.tools))
  {
    assert EntryTexts(Items(NamesColumn(r.bundle.tools))) == r.bundle.tools;
  }

  lemma {:induction false} OneRowChain(h: Hash, row: Row)
    ensures ValidChain(h, ShapeContent, [row]) <==>
            row.previous == GENESIS && row.own == RevisionHash(h, ShapeContent(row), GENESIS)
  {
    var none: seq<Row> := [];
    ValidStep(h, ShapeContent, none, row);
    assert none + [row] == [row];
    assert ValidChain(h, ShapeContent, none);
  }

  /** The role minted for the `k`-th methodology, and its revision. */
  ghost predicate Minted(p: R.Plane, q: R.Plane, k: nat, role: R.Role, r: R.RoleRevision) {
    && |p.roles| + k < |q.roles| && |p.revisions| + k < |q.revisions|
    && role == q.roles[|p.roles| + k] && r == q.revisions[|p.revisions| + k]
  }

  /** A minted revision carries the first bundle under the derived name, and is a valid chain as 0010 will read it. */
  lemma {:induction false} MintedIsValid(h: Hash, draw: R.Draw, p: R.Plane, q: R.Plane, k: nat)
    returns (role: R.Role, r: R.RoleRevision)
    requires R.Flat(p.methodologies) && R.Upgrade(h, draw, p) == Some(q) && k < |R.Firsts(p.methodologies)|
    ensures Minted(p, q, k, role, r)
    ensures var first := R.Firsts(p.methodologies)[k];
            && role.name == first.name + "Role" && r.role == role.id && first.bundle == Some(r.bundle)
            && role.description == Some("Auto-migrated role for " + first.name + " methodology")
    ensures ValidChain(h, ShapeContent, [AsRow(role, r)])
  {
    U.UpgradeExact(h, draw, p);
    role, r := q.roles[|p.roles| + k], q.revisions[|p.revisions| + k];
    RowContent(role, r);
    OneRowChain(h, AsRow(role, r));
  }

  ghost predicate WellFormedRevision(role: R.Role, r: R.RoleRevision) { WellFormedBody(AsRow(role, r).body) }

  /** Sound digests over bundles agree exactly when the names, the descriptions and the bundles do. */
  lemma {:induction false} DigestsTell(h: Hash, a: R.Role, r: R.RoleRevision, b: R.Role, s: R.RoleRevision)
    requires Ideal(h) && WellFormedRevision(a, r) && WellFormedRevision(b, s)
    requires ValidChain(h, ShapeContent, [AsRow(a, r)]) && ValidChain(h, ShapeContent, [AsRow(b, s)])
    ensures r.own == s.own <==>
            SameBody(AsRow(a, r).body, AsRow(b, s).body) && multiset(r.bundle.tools) == multiset(s.bundle.tools)
  {
    OneRowChain(h, AsRow(a, r));
    OneRowChain(h, AsRow(b, s));
    RowContent(a, r);
    RowContent(b, s);
    SortedTextsMeaning(r.bundle.tools, s.bundle.tools);
    SortedTextsMeaning(s.bundle.tools, s.bundle.tools);
    RoleHashExact(h, AsRow(a, r).body, NamedTools(r.bundle.tools), GENESIS,
                  AsRow(b, s).body, NamedTools(s.bundle.tools), GENESIS);
  }

  /** Two minted digests, of one control plane or of two, agree exactly when what they cover does. */
  lemma {:induction false} MintedDigestsTell(
      h: Hash, draw: R.Draw, p: R.Plane, q: R.Plane, k: nat, a: R.Role, r: R.RoleRevision,
      other: R.Draw, p': R.Plane, q': R.Plane, l: nat, b: R.Role, s: R.RoleRevision)
    requires Ideal(h) && WellFormedRevision(a, r) && WellFormedRevision(b, s)
    requires R.Flat(p.methodologies) && R.Upgrade(h, draw, p) == Some(q) && k < |R.Firsts(p.methodologies)|
    requires R.Flat(p'.methodologies) && R.Upgrade(h, other, p') == Some(q') && l < |R.Firsts(p'.methodologies)|
    requires Minted(p, q, k, a, r) && Minted(p', q', l, b, s)
    ensures r.own == s.own <==>
            SameBody(AsRow(a, r).body, AsRow(b, s).body) && multiset(r.bundle.tools) == multiset(s.bundle.tools)
  {
    var x, y := MintedIsValid(h, draw, p, q, k);
    x, y := MintedIsValid(h, other, p', q', l);
    DigestsTell(h, a, r, b, s);
  }

  /** 0007 leaves the renamed role's first revision sound under the new name; it is a chain exactly if it starts one. */
  lemma {:induction false} RenamedIsValid(h: Hash, p: R.Plane, q: R.Plane, i: nat, k: nat)
    requires N.Split(h, p) == Some(q) && N.FindMinted(p.roles, "LVTRole") == Some(i) && i < |p.roles|
    requires N.FindFirstVersion(p.revisions, p.roles[i].id) == Some(k)
    ensures i < |q.roles| && k < |q.revisions| == |p.revisions| && q.roles[i].name == "LVTGuide"
    ensures q.revisions[k] == p.revisions[k].(own := q.revisions[k].own)
    ensures ValidChain(h, ShapeContent, [AsRow(q.roles[i], q.revisions[k])]) <==> p.revisions[k].previous == GENESIS
  {
    N.FindFirstVersionAt(p.revisions, p.roles[i].id);
    RowContent(q.roles[i], q.revisions[k]);
    OneRowChain(h, AsRow(q.roles[i], q.revisions[k]));
    assert |GENESIS| == 64;
  }
}
