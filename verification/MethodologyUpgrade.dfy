/**
 What migration 0006 guarantees of roles, references, chains and bundles, forwards
 and backwards.
 */
module MethodologyUpgrade {
  import opened JsonText
  import opened Decimals
  import opened HashChain
  import opened RolePayload
  import opened MethodologyPayload
  import opened MethodologyRoles

  /** The ids drawn are new and never drawn twice. */
  ghost predicate DrawsNew(draw: Draw, p: Plane) {
    && (forall t, u :: draw(t) == draw(u) ==> t == u)
    && (forall t, i | 0 <= i < |p.roles| :: p.roles[i].id != draw(t))
    && (forall t, i | 0 <= i < |p.revisions| :: p.revisions[i].role != draw(t))
  }

  /** The upgrade goes through exactly when the names it gives are free; then this is what it leaves. */
  lemma UpgradeExact(h: Hash, draw: Draw, p: Plane)
    requires Flat(p.methodologies)
    ensures Flat(Firsts(p.methodologies))
    ensures Upgrade(h, draw, p).Some? <==> NamesFree(p.roles, Firsts(p.methodologies))
    ensures Upgrade(h, draw, p).Some? ==>
              Upgrade(h, draw, p).value == Plane(
                p.roles + Roles(draw, Firsts(p.methodologies)),
                p.revisions + RoleRevisions(h, draw, Firsts(p.methodologies)),
                DropBundles(Reanchor(h, draw, p.methodologies)))
  {
    ExtractExact(h, draw, p.roles, p.revisions, p.methodologies);
  }

  // ---------------------------------------------------------------- one role per template

  /** A role holding version 1 of `bundle`, minted by the migration, with the digest its content calls for. */
  ghost predicate Holds(h: Hash, role: Role, revision: RoleRevision, bundle: Bundle) {
    && role.author == AUTHOR && !role.archived
    && revision.role == role.id && revision.version == 1 && revision.author == AUTHOR
    && revision.bundle == bundle
    && revision.previous == GENESIS
    && revision.own == RevisionHash(
         h, Content(RoleBody(role.name, role.description, bundle), NamedTools(bundle.tools)), GENESIS)
  }

  ghost predicate MintedFor(h: Hash, draw: Draw, p: Plane, q: Plane, t: string, k: nat)
    requires FirstOf(p.methodologies, t).Some? && FirstOf(p.methodologies, t).value.bundle.Some?
  {
    && k < |q.roles| - |p.roles| && |q.roles| - |p.roles| == |q.revisions| - |p.revisions| >= 0
    && q.roles[|p.roles| + k].id == draw(t)
    && Holds(h, q.roles[|p.roles| + k], q.revisions[|p.revisions| + k], FirstOf(p.methodologies, t).value.bundle.value)
  }

  /** The id drawn for a template that has revisions. */
  ghost predicate DrawnFor(draw: Draw, p: Plane, id: string) {
    exists t :: FirstOf(p.methodologies, t).Some? && id == draw(t)
  }

  ghost predicate FreshDraws(draw: Draw, firsts: seq<Methodology>) {
    forall j, k | 0 <= j < k < |firsts| :: draw(firsts[j].template) != draw(firsts[k].template)
  }

  lemma FirstsDrawApart(draw: Draw, p: Plane)
    requires DrawsNew(draw, p)
    ensures FreshDraws(draw, Firsts(p.methodologies))
  {
    FirstsDistinct(p.methodologies);
  }

  ghost predicate AllApart(roles: seq<Role>) {
    forall i, j | 0 <= i < j < |roles| :: roles[i].id != roles[j].id
  }

  lemma RolesApart(draw: Draw, p: Plane)
    requires DrawsNew(draw, p)
    ensures AllApart(Roles(draw, Firsts(p.methodologies)))
    ensures forall r | r in Roles(draw, Firsts(p.methodologies)) :: DrawnFor(draw, p, r.id)
  {
    var firsts := Firsts(p.methodologies);
    var roles := Roles(draw, firsts);
    FirstsDrawApart(draw, p);
    forall i, j | 0 <= i < j < |roles| ensures roles[i].id != roles[j].id {
      assert roles[i] == NewRole(draw, firsts[i]) && roles[j] == NewRole(draw, firsts[j]);
    }
    FirstsAre(p.methodologies);
    forall r | r in roles ensures DrawnFor(draw, p, r.id) {
      var i :| 0 <= i < |roles| && roles[i] == r;
      assert FirstOf(p.methodologies, firsts[i].template).Some?;
    }
  }

  /** The old roles stay as they are; the new ones have drawn ids, no two alike. */
  lemma NewRolesApart(h: Hash, draw: Draw, p: Plane, q: Plane)
    requires Flat(p.methodologies) && DrawsNew(draw, p) && Upgrade(h, draw, p) == Some(q)
    ensures p.roles <= q.roles && p.revisions <= q.revisions
    ensures AllApart(q.roles[|p.roles|..]) && forall r | r in q.roles[|p.roles|..] :: DrawnFor(draw, p, r.id)
  {
    UpgradeExact(h, draw, p);
    RolesApart(draw, p);
    assert q.roles[|p.roles|..] == Roles(draw, Firsts(p.methodologies));
  }

  /** Every template with revisions gets a new role, which holds the bundle of the template's first row. */
  lemma {:induction false} OneRoleEach(h: Hash, draw: Draw, p: Plane, q: Plane, t: string)
    requires Flat(p.methodologies) && DrawsNew(draw, p) && Upgrade(h, draw, p) == Some(q)
    requires FirstOf(p.methodologies, t).Some?
    ensures FirstOf(p.methodologies, t).value.bundle.Some? && exists k :: MintedFor(h, draw, p, q, t, k)
  {
    var firsts := Firsts(p.methodologies);
    UpgradeExact(h, draw, p);
    FirstOfAt(p.methodologies, t);
    FirstsCover(p.methodologies, t);
    var k :| 0 <= k < |firsts| && firsts[k] == FirstOf(p.methodologies, t).value;
    assert MintedFor(h, draw, p, q, t, k);
  }

  // ---------------------------------------------------------------- chains

  function RevisionOf(row: Methodology): Revision {
    var refs := if row.refs.Some? then row.refs.value else [];
    Revision(MethodologyContent(row.name, row.description, refs), row.previous, row.own)
  }

  function ChainOf(rows: seq<Methodology>, t: string): seq<Revision> {
    if rows == [] then []
    else
      var front, last := ChainOf(rows[..|rows| - 1], t), rows[|rows| - 1];
      if last.template == t then front + [RevisionOf(last)] else front
  }

  lemma ChainOfAppend(rows: seq<Methodology>, row: Methodology, t: string)
    ensures ChainOf(rows + [row], t) == ChainOf(rows, t) + (if row.template == t then [RevisionOf(row)] else [])
    ensures HeadFor(rows + [row], t) == if row.template == t then row.own else HeadFor(rows, t)
  {
    assert (rows + [row])[..|rows|] == rows;
  }

  lemma {:induction false} ReanchoredChain(h: Hash, draw: Draw, rows: seq<Methodology>, t: string)
    ensures Linked(h, ChainOf(Reanchor(h, draw, rows), t))
    ensures Head(ChainOf(Reanchor(h, draw, rows), t)) == HeadFor(Reanchor(h, draw, rows), t)
  {
    if rows != [] {
      var front, last := rows[..|rows| - 1], rows[|rows| - 1];
      ReanchoredChain(h, draw, front, t);
      var r := Reanchor(h, draw, front);
      var row := Reanchored(h, last, draw(last.template), HeadFor(r, last.template));
      ChainOfAppend(r, row, t);
      if last.template == t {
        LinkedAppend(h, ChainOf(r, t), RevisionOf(row));
      }
    }
  }

  lemma {:induction false} DroppingKeepsChains(rows: seq<Methodology>, t: string)
    ensures ChainOf(DropBundles(rows), t) == ChainOf(rows, t)
  {
    if rows != [] {
      var front := rows[..|rows| - 1];
      DroppingKeepsChains(front, t);
      assert DropBundles(rows)[..|rows| - 1] == DropBundles(front);
    }
  }

  /** Whatever the digests were before, every methodology's chain is valid from genesis after the upgrade. */
  lemma {:induction false} UpgradeValidatesChains(h: Hash, draw: Draw, p: Plane, q: Plane, t: string)
    requires Flat(p.methodologies) && Upgrade(h, draw, p) == Some(q)
    ensures Linked(h, ChainOf(q.methodologies, t))
  {
    ReanchoredChain(h, draw, p.methodologies, t);
    DroppingKeepsChains(Reanchor(h, draw, p.methodologies), t);
  }

  lemma {:induction false} ReanchorAt(h: Hash, draw: Draw, rows: seq<Methodology>, i: nat)
    requires i < |rows|
    ensures var r := Reanchor(h, draw, rows);
            r[i] == Reanchored(h, rows[i], draw(rows[i].template), r[i].previous)
  {
    if i < |rows| - 1 {
      ReanchorAt(h, draw, rows[..|rows| - 1], i);
    }
  }

  lemma UpgradedRow(h: Hash, draw: Draw, p: Plane, q: Plane, i: nat)
    requires Flat(p.methodologies) && Upgrade(h, draw, p) == Some(q) && i < |p.methodologies|
    ensures |q.methodologies| == |p.methodologies|
    ensures var r := q.methodologies[i];
            r == p.methodologies[i].(bundle := None, refs := Some([RoleRef(draw(r.template))]),
                                     previous := r.previous, own := r.own)
  {
    ReanchorAt(h, draw, p.methodologies, i);
  }

  // ---------------------------------------------------------------- lookups

  lemma {:induction false} FindRevisionAt(revisions: seq<RoleRevision>, k: nat)
    requires k < |revisions| && forall j | 0 <= j < k :: revisions[j].role != revisions[k].role
    ensures FindRevision(revisions, revisions[k].role, revisions[k].version) == Some(revisions[k])
  {
    if k > 0 {
      FindRevisionAt(revisions[1..], k - 1);
    }
  }

  lemma {:induction false} FindRoleAt(roles: seq<Role>, k: nat)
    requires k < |roles| && forall j | 0 <= j < k :: roles[j].id != roles[k].id
    ensures FindRole(roles, roles[k].id) == Some(roles[k])
  {
    if k > 0 {
      FindRoleAt(roles[1..], k - 1);
    }
  }

  lemma {:induction false} FindNewRole(draw: Draw, roles: seq<Role>, firsts: seq<Methodology>, k: nat)
    requires k < |firsts| && FreshDraws(draw, firsts)
    requires forall i | 0 <= i < |roles| :: roles[i].id != draw(firsts[k].template)
    ensures FindRole(roles + Roles(draw, firsts), draw(firsts[k].template)) == Some(NewRole(draw, firsts[k]))
  {
    var all := roles + Roles(draw, firsts);
    forall m | 0 <= m < |roles| + k ensures all[m].id != draw(firsts[k].template) {
      if m >= |roles| {
        assert all[m] == NewRole(draw, firsts[m - |roles|]);
      }
    }
    FindRoleAt(all, |roles| + k);
  }

  lemma {:induction false} FindNewRevision(h: Hash, draw: Draw, revisions: seq<RoleRevision>,
                                           firsts: seq<Methodology>, k: nat)
    requires k < |firsts| && FreshDraws(draw, firsts) && Flat(firsts)
    requires forall i | 0 <= i < |revisions| :: revisions[i].role != draw(firsts[k].template)
    ensures FindRevision(revisions + RoleRevisions(h, draw, firsts), draw(firsts[k].template), 1) ==
            Some(NewRevision(h, draw, firsts[k]))
  {
    var all := revisions + RoleRevisions(h, draw, firsts);
    forall m | 0 <= m < |revisions| + k ensures all[m].role != draw(firsts[k].template) {
      if m >= |revisions| {
        assert all[m] == NewRevision(h, draw, firsts[m - |revisions|]);
      }
    }
    FindRevisionAt(all, |revisions| + k);
  }

  /** The new role of a template is found by its id, and its version 1 holds the first row's bundle. */
  lemma NewRoleIsFound(h: Hash, draw: Draw, p: Plane, q: Plane, t: string)
    requires Flat(p.methodologies) && DrawsNew(draw, p) && Upgrade(h, draw, p) == Some(q)
    requires FirstOf(p.methodologies, t).Some?
    ensures FirstOf(p.methodologies, t).value.bundle.Some?
    ensures FirstOf(p.methodologies, t).value.template == t
    ensures FindRole(q.roles, draw(t)).Some?
    ensures FindRevision(q.revisions, draw(t), 1) == Some(NewRevision(h, draw, FirstOf(p.methodologies, t).value))
  {
    var firsts := Firsts(p.methodologies);
    UpgradeExact(h, draw, p);
    FirstOfAt(p.methodologies, t);
    FirstsCover(p.methodologies, t);
    var k :| 0 <= k < |firsts| && firsts[k] == FirstOf(p.methodologies, t).value;
    FirstsDrawApart(draw, p);
    FindNewRole(draw, p.roles, firsts, k);
    FindNewRevision(h, draw, p.revisions, firsts, k);
  }

  function Asked(rows: seq<Methodology>, t: string, version: Option<int>): Option<Methodology> {
    match version
    case None => Latest(rows, t)
    case Some(v) => FindMethodology(rows, t, v)
  }

  ghost predicate SameKeys(a: seq<Methodology>, b: seq<Methodology>) {
    |a| == |b| && forall i | 0 <= i < |a| :: a[i].template == b[i].template && a[i].version == b[i].version
  }

  /** Lookups depend on templates and versions only: they find the row at one place in both tables. */
  ghost predicate SamePlace(a: seq<Methodology>, x: Option<Methodology>, b: seq<Methodology>, y: Option<Methodology>,
                            t: string) {
    && x.Some? == y.Some?
    && (x.Some? ==> x.value.version == y.value.version && exists i :: AtPlace(a, x.value, b, y.value, t, i))
  }

  ghost predicate AtPlace(a: seq<Methodology>, x: Methodology, b: seq<Methodology>, y: Methodology, t: string, i: int) {
    0 <= i < |a| && i < |b| && a[i] == x && b[i] == y && x.template == t && y.template == t
  }

  lemma {:induction false} FindSamePlace(a: seq<Methodology>, b: seq<Methodology>, t: string, v: int)
    requires SameKeys(a, b)
    ensures SamePlace(a, FindMethodology(a, t, v), b, FindMethodology(b, t, v), t)
    ensures FindMethodology(a, t, v).Some? ==> FindMethodology(a, t, v).value.version == v
  {
    if a != [] {
      if a[0].template == t && a[0].version == v {
        assert AtPlace(a, a[0], b, b[0], t, 0);
      } else {
        FindSamePlace(a[1..], b[1..], t, v);
        var x, y := FindMethodology(a[1..], t, v), FindMethodology(b[1..], t, v);
        if x.Some? {
          var i :| AtPlace(a[1..], x.value, b[1..], y.value, t, i);
          assert AtPlace(a, x.value, b, y.value, t, i + 1);
        }
      }
    }
  }

  /** The row asked for is the template's of that version or, without one, of the highest version. */
  lemma {:induction false} AskedIs(rows: seq<Methodology>, t: string, version: Option<int>)
    ensures match Asked(rows, t, version)
            case None =>
              forall r | r in rows :: !(r.template == t && (version == None || r.version == version.value))
            case Some(a) =>
              a in rows && a.template == t &&
              if version.Some? then a.version == version.value
              else forall r | r in rows && r.template == t :: r.version <= a.version
  {
    match version
    case None => LatestIs(rows, t);
    case Some(v) => FoundIs(rows, t, v);
  }

  lemma {:induction false} LatestIs(rows: seq<Methodology>, t: string)
    ensures match Latest(rows, t)
            case None => forall r | r in rows :: r.template != t
            case Some(a) =>
              a in rows && a.template == t && forall r | r in rows && r.template == t :: r.version <= a.version
  {
    if rows != [] {
      LatestIs(rows[..|rows| - 1], t);
      assert rows == rows[..|rows| - 1] + [rows[|rows| - 1]];
    }
  }

  lemma {:induction false} FoundIs(rows: seq<Methodology>, t: string, v: int)
    ensures match FindMethodology(rows, t, v)
            case None => forall r | r in rows :: !(r.template == t && r.version == v)
            case Some(a) => a in rows && a.template == t && a.version == v
  {
    if rows != [] {
      FoundIs(rows[1..], t, v);
      assert rows == [rows[0]] + rows[1..];
    }
  }

  lemma {:induction false} LatestSamePlace(a: seq<Methodology>, b: seq<Methodology>, t: string)
    requires SameKeys(a, b)
    ensures SamePlace(a, Latest(a, t), b, Latest(b, t), t)
  {
    if a != [] {
      var m := |a| - 1;
      LatestSamePlace(a[..m], b[..m], t);
      var x, y := Latest(a[..m], t), Latest(b[..m], t);
      if x.Some? {
        var i :| AtPlace(a[..m], x.value, b[..m], y.value, t, i);
        assert AtPlace(a, x.value, b, y.value, t, i);
      }
      if a[m].template == t {
        assert AtPlace(a, a[m], b, b[m], t, m);
      }
    }
  }

  lemma SameAsked(a: seq<Methodology>, b: seq<Methodology>, t: string, version: Option<int>)
    requires SameKeys(a, b)
    ensures SamePlace(a, Asked(a, t, version), b, Asked(b, t, version), t)
  {
    match version {
      case None => LatestSamePlace(a, b, t);
      case Some(v) => FindSamePlace(a, b, t, v);
    }
  }

  /** What a lookup finds before the upgrade, and after it: one row of the template, upgraded. */
  lemma AskedAfterUpgrade(h: Hash, draw: Draw, p: Plane, q: Plane, t: string, version: Option<int>)
    requires Flat(p.methodologies) && Upgrade(h, draw, p) == Some(q)
    ensures Asked(q.methodologies, t, version).Some? == Asked(p.methodologies, t, version).Some?
    ensures Asked(p.methodologies, t, version).Some? ==>
              var x, y := Asked(p.methodologies, t, version).value, Asked(q.methodologies, t, version).value;
              FirstOf(p.methodologies, t).Some? && y.version == x.version && y.description == x.description &&
              y.refs == Some([RoleRef(draw(t))])
  {
    var a, b := p.methodologies, q.methodologies;
    forall i | 0 <= i < |a| ensures a[i].template == b[i].template && a[i].version == b[i].version {
      UpgradedRow(h, draw, p, q, i);
    }
    SameAsked(a, b, t, version);
    var x, y := Asked(a, t, version), Asked(b, t, version);
    if x.Some? {
      var i :| AtPlace(a, x.value, b, y.value, t, i);
      UpgradedRow(h, draw, p, q, i);
      FirstOfAt(a, t);
    }
  }

  lemma LookupOf(q: Plane, t: string, version: Option<int>, role: string)
    requires Asked(q.methodologies, t, version).Some? &&
             Asked(q.methodologies, t, version).value.refs == Some([RoleRef(role)])
    requires FindRole(q.roles, role).Some? && FindRevision(q.revisions, role, 1).Some?
    ensures var row, r := Asked(q.methodologies, t, version).value, FindRevision(q.revisions, role, 1).value;
            Lookup(q, t, version) == Some(View(row.version, r.role, r.version, row.description, r.bundle))
  {
  }

  /**
   After the upgrade a lookup succeeds exactly for the revisions there are, and
   resolves each of them, through its first reference, to the bundle of its
   template's first row.
   */
  lemma LookupResolvesFirstBundle(h: Hash, draw: Draw, p: Plane, q: Plane, t: string, version: Option<int>)
    requires Flat(p.methodologies) && DrawsNew(draw, p) && Upgrade(h, draw, p) == Some(q)
    ensures Lookup(q, t, version).Some? <==> Asked(p.methodologies, t, version).Some?
    ensures Lookup(q, t, version).Some? ==>
              var view, row := Lookup(q, t, version).value, Asked(p.methodologies, t, version).value;
              view.version == row.version && view.description == row.description && view.role == draw(t) &&
              view.roleVersion == 1 &&
              FirstOf(p.methodologies, t).Some? && FirstOf(p.methodologies, t).value.bundle == Some(view.bundle)
  {
    AskedAfterUpgrade(h, draw, p, q, t, version);
    if Asked(p.methodologies, t, version).Some? {
      NewRoleIsFound(h, draw, p, q, t);
      LookupOf(q, t, version, draw(t));
    }
  }

  // ---------------------------------------------------------------- and back

  lemma {:induction false} WithoutAppended<T>(a: seq<T>, b: seq<T>, drop: T -> bool)
    requires forall x | x in b :: drop(x)
    ensures Without(a + b, drop) == Without(a, drop)
  {
    if b == [] {
      assert a + b == a;
    } else {
      WithoutAppended(a, b[..|b| - 1], drop);
      assert (a + b)[..|a + b| - 1] == a + b[..|b| - 1];
    }
  }

  lemma {:induction false} WithoutNothing<T>(a: seq<T>, drop: T -> bool)
    ensures |Without(a, drop)| <= |a|
    ensures |Without(a, drop)| == |a| ==> Without(a, drop) == a
    ensures Without(a, drop) == a <==> forall x | x in a :: !drop(x)
    ensures forall x | x in Without(a, drop) :: x in a
  {
    if a != [] {
      WithoutNothing(a[..|a| - 1], drop);
      assert a == a[..|a| - 1] + [a[|a| - 1]];
    }
  }

  lemma DeletedAgain(h: Hash, draw: Draw, p: Plane, q: Plane)
    requires Flat(p.methodologies) && Upgrade(h, draw, p) == Some(q)
    ensures Without(q.roles, MintedRole) == Without(p.roles, MintedRole)
    ensures Without(q.revisions, MintedRevision) == Without(p.revisions, MintedRevision)
  {
    var firsts := Firsts(p.methodologies);
    UpgradeExact(h, draw, p);
    WithoutAppended(p.roles, Roles(draw, firsts), MintedRole);
    WithoutAppended(p.revisions, RoleRevisions(h, draw, firsts), MintedRevision);
  }

  /** The migration's author mark is on no row yet. */
  ghost predicate Unmarked(p: Plane) {
    (forall r | r in p.roles :: !MintedRole(r)) && (forall r | r in p.revisions :: !MintedRevision(r))
  }

  /** Downgrading removes exactly the roles the upgrade added, unless its author mark was in use before. */
  lemma DowngradeRemovesTheAdded(h: Hash, draw: Draw, p: Plane, q: Plane, r: Plane)
    requires Flat(p.methodologies) && Upgrade(h, draw, p) == Some(q) && Downgrade(q) == Some(r)
    ensures r.roles == p.roles && r.revisions == p.revisions <==> Unmarked(p)
  {
    DeletedAgain(h, draw, p, q);
    WithoutNothing(p.roles, MintedRole);
    WithoutNothing(p.revisions, MintedRevision);
  }

  /** Every row gets its template's first bundle back; its digests stay re-anchored. */
  lemma RefilledRow(h: Hash, draw: Draw, p: Plane, q: Plane, i: nat)
    requires Flat(p.methodologies) && DrawsNew(draw, p) && Upgrade(h, draw, p) == Some(q)
    requires i < |p.methodologies|
    ensures |q.methodologies| == |p.methodologies|
    ensures var row := p.methodologies[i];
            FirstOf(p.methodologies, row.template).Some? &&
            Refilled(q.revisions, q.methodologies)[i] ==
            row.(bundle := FirstOf(p.methodologies, row.template).value.bundle, refs := None,
                 previous := q.methodologies[i].previous, own := q.methodologies[i].own) &&
            FirstOf(p.methodologies, row.template).value.bundle.Some?
  {
    var t := p.methodologies[i].template;
    UpgradedRow(h, draw, p, q, i);
    FirstOfAt(p.methodologies, t);
    NewRoleIsFound(h, draw, p, q, t);
  }

  /** The downgrade goes through unless someone else's role revision hangs on a marked role. */
  lemma DowngradeGoesThrough(h: Hash, draw: Draw, p: Plane, q: Plane)
    requires Flat(p.methodologies) && DrawsNew(draw, p) && Upgrade(h, draw, p) == Some(q)
    ensures Downgrade(q).Some? <==> !Orphans(p.roles, Without(p.revisions, MintedRevision))
  {
    var kept := Without(p.revisions, MintedRevision);
    DeletedAgain(h, draw, p, q);
    forall i | 0 <= i < |q.methodologies| ensures Refilled(q.revisions, q.methodologies)[i].bundle.Some? {
      RefilledRow(h, draw, p, q, i);
    }
    OrphansStay(h, draw, p, q);
  }

  lemma OrphansStay(h: Hash, draw: Draw, p: Plane, q: Plane)
    requires Flat(p.methodologies) && DrawsNew(draw, p) && Upgrade(h, draw, p) == Some(q)
    ensures var kept := Without(p.revisions, MintedRevision);
            Orphans(q.roles, kept) <==> Orphans(p.roles, kept)
  {
    var kept := Without(p.revisions, MintedRevision);
    NewRolesApart(h, draw, p, q);
    WithoutNothing(p.revisions, MintedRevision);
    forall k | |p.roles| <= k < |q.roles| ensures forall j | 0 <= j < |kept| :: kept[j].role != q.roles[k].id {
      assert q.roles[k] == q.roles[|p.roles|..][k - |p.roles|];
      assert DrawnFor(draw, p, q.roles[k].id);
      forall j | 0 <= j < |kept| ensures kept[j].role != q.roles[k].id {
        assert kept[j] in p.revisions;
      }
    }
    if Orphans(q.roles, kept) {
      var i, j :| 0 <= i < |q.roles| && 0 <= j < |kept| && q.roles[i].author == AUTHOR && kept[j].role == q.roles[i].id;
      assert q.roles[i] == p.roles[i];
    }
  }

  /** All revisions of one template carry one bundle. */
  ghost predicate SharedBundles(rows: seq<Methodology>) {
    forall i, j | 0 <= i < |rows| && 0 <= j < |rows| && rows[i].template == rows[j].template ::
      rows[i].bundle == rows[j].bundle
  }

  ghost predicate SameBundles(a: seq<Methodology>, b: seq<Methodology>) {
    |a| == |b| && forall i | 0 <= i < |a| :: a[i].bundle == b[i].bundle
  }

  lemma {:induction false} FirstBundles(rows: seq<Methodology>)
    ensures SharedBundles(rows) <==>
            forall i | 0 <= i < |rows| ::
              FirstOf(rows, rows[i].template).Some? && rows[i].bundle == FirstOf(rows, rows[i].template).value.bundle
  {
    forall i | 0 <= i < |rows|
      ensures FirstOf(rows, rows[i].template).Some?
      ensures SharedBundles(rows) ==> rows[i].bundle == FirstOf(rows, rows[i].template).value.bundle
    {
      FirstOfAt(rows, rows[i].template);
    }
  }

  /** Downgrading restores every revision's bundle exactly when each template had one bundle throughout. */
  lemma {:induction false} DowngradeRestoresBundles(h: Hash, draw: Draw, p: Plane, q: Plane, r: Plane)
    requires Flat(p.methodologies) && DrawsNew(draw, p) && Upgrade(h, draw, p) == Some(q) && Downgrade(q) == Some(r)
    ensures SameBundles(r.methodologies, p.methodologies) <==> SharedBundles(p.methodologies)
  {
    FirstBundles(p.methodologies);
    forall i | 0 <= i < |p.methodologies|
      ensures |r.methodologies| == |p.methodologies|
      ensures FirstOf(p.methodologies, p.methodologies[i].template).Some?
      ensures r.methodologies[i].bundle == FirstOf(p.methodologies, p.methodologies[i].template).value.bundle
    {
      RefilledRow(h, draw, p, q, i);
    }
  }

  // ---------------------------------------------------------------- fresh ids

  function Longest(ids: seq<string>): nat {
    if ids == [] then 0
    else
      var rest, n := Longest(ids[..|ids| - 1]), |ids[|ids| - 1]|;
      if n > rest then n else rest
  }

  lemma {:induction false} LongestBounds(ids: seq<string>)
    ensures forall i | 0 <= i < |ids| :: |ids[i]| <= Longest(ids)
  {
    if ids != [] {
      LongestBounds(ids[..|ids| - 1]);
    }
  }

  /** There are always new ids to draw: longer ones than any in use. */
  lemma NewDrawsExist(p: Plane) returns (draw: Draw)
    ensures DrawsNew(draw, p)
  {
    var ids := seq(|p.roles|, i requires 0 <= i < |p.roles| => p.roles[i].id) +
               seq(|p.revisions|, i requires 0 <= i < |p.revisions| => p.revisions[i].role);
    var prefix := Zeros(Longest(ids) + 1);
    draw := (t: string) => prefix + t;
    LongestBounds(ids);
    forall t, u | draw(t) == draw(u) ensures t == u {
      assert draw(t)[|prefix|..] == t && draw(u)[|prefix|..] == u;
    }
    forall t, i | 0 <= i < |p.roles| ensures p.roles[i].id != draw(t) {
      assert ids[i] == p.roles[i].id;
      assert |draw(t)| > Longest(ids);
    }
    forall t, i | 0 <= i < |p.revisions| ensures p.revisions[i].role != draw(t) {
      assert ids[|p.roles| + i] == p.revisions[i].role;
      assert |draw(t)| > Longest(ids);
    }
  }
}
