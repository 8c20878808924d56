/**
 Control-plane migration 0006: each methodology's constraint bundle moves to a
 role of its own, its revisions refer to that role, and its chain is re-anchored
 from genesis over the new content. Also the lookup that reads a methodology
 through its first role reference.
 */
module MethodologyRoles {
  import opened JsonText
  import opened Decimals
  import opened CanonicalJson
  import opened HashChain
  import opened RolePayload
  import opened MethodologyPayload

  const AUTHOR := "migration:0006_methodology_role_refs"

  /** The constraint bundle. */
  datatype Bundle = Bundle(
    systemPrompt: string,
    sourceIds: seq<string>,
    tools: seq<string>,
    retrievalStrategy: seq<Entry>,
    filterTree: seq<Entry>,
    topK: int,
    minScore: PlainDecimal,
    modelSelection: string)

  datatype Role = Role(id: string, name: string, description: Option<string>, author: string, archived: bool)

  datatype RoleRevision = RoleRevision(role: string, version: int, bundle: Bundle, author: string, previous: string,
                                       own: string)

  /** A row of `methodology_revisions`, joined with its template. A missing or null column is `None`. */
  datatype Methodology = Methodology(
    id: string,
    template: string,
    version: int,
    name: string,
    description: Option<string>,
    bundle: Option<Bundle>,
    refs: Option<seq<Ref>>,
    previous: string,
    own: string)

  datatype Plane = Plane(roles: seq<Role>, revisions: seq<RoleRevision>, methodologies: seq<Methodology>)

  /** Stands for `uuid4`: the id drawn for the role of a methodology template. */
  type Draw = string -> string

  function RoleBody(name: string, description: Option<string>, b: Bundle): Body {
    Body(name, description, b.systemPrompt, b.sourceIds, b.retrievalStrategy, b.filterTree, b.topK, b.minScore,
      b.modelSelection)
  }

  function BundleHash(h: Hash, name: string, description: Option<string>, b: Bundle, previous: string): string {
    RoleHash(h, RoleBody(name, description, b), NamedTools(b.tools), previous)
  }

  // ---------------------------------------------------------------- extracting roles

  /** The bundle columns are not null before the migration. */
  predicate Flat(rows: seq<Methodology>) {
    forall i | 0 <= i < |rows| :: rows[i].bundle.Some?
  }

  function RoleName(name: string): string { name + "Role" }

  function RoleDescription(name: string): string { "Auto-migrated role for " + name + " methodology" }

  function NewRole(draw: Draw, row: Methodology): Role {
    Role(draw(row.template), RoleName(row.name), Some(RoleDescription(row.name)), AUTHOR, false)
  }

  function NewRevision(h: Hash, draw: Draw, row: Methodology): RoleRevision
    requires row.bundle.Some?
  {
    RoleRevision(draw(row.template), 1, row.bundle.value, AUTHOR, GENESIS,
                 BundleHash(h, RoleName(row.name), Some(RoleDescription(row.name)), row.bundle.value, GENESIS))
  }

  /** The unique index on the names of active roles would refuse another role of this name. */
  predicate NameTaken(roles: seq<Role>, name: string) {
    exists i :: 0 <= i < |roles| && !roles[i].archived && roles[i].name == name
  }

  datatype Extracted = Extracted(roles: seq<Role>, revisions: seq<RoleRevision>, ids: map<string, string>)

  function ExtractRow(h: Hash, draw: Draw, e: Extracted, row: Methodology): Option<Extracted>
    requires row.bundle.Some?
  {
    if row.template in e.ids then Some(e)
    else if NameTaken(e.roles, RoleName(row.name)) then None
    else Some(Extracted(
      e.roles + [NewRole(draw, row)],
      e.revisions + [NewRevision(h, draw, row)],
      e.ids[row.template := draw(row.template)]))
  }

  function Extract(h: Hash, draw: Draw, start: Extracted, rows: seq<Methodology>): Option<Extracted>
    requires Flat(rows)
  {
    if rows == [] then Some(start)
    else match Extract(h, draw, start, rows[..|rows| - 1])
      case None => None
      case Some(e) => ExtractRow(h, draw, e, rows[|rows| - 1])
  }

  // ---------------------------------------------------------------- re-anchoring

  /** The digest the next row of `template` chains from. */
  function HeadFor(rows: seq<Methodology>, template: string): string {
    if rows == [] then GENESIS
    else if rows[|rows| - 1].template == template then rows[|rows| - 1].own
    else HeadFor(rows[..|rows| - 1], template)
  }

  function RoleRef(role: string): Ref { Ref(role, 1, VNull) }

  function Reanchored(h: Hash, row: Methodology, role: string, previous: string): Methodology {
    row.(refs := Some([RoleRef(role)]), previous := previous,
         own := MethodologyHash(h, row.name, row.description, [RoleRef(role)], previous))
  }

  function Reanchor(h: Hash, draw: Draw, rows: seq<Methodology>): (r: seq<Methodology>)
    ensures |r| == |rows|
  {
    if rows == [] then []
    else
      var front, last := Reanchor(h, draw, rows[..|rows| - 1]), rows[|rows| - 1];
      front + [Reanchored(h, last, draw(last.template), HeadFor(front, last.template))]
  }

  function DropBundles(rows: seq<Methodology>): (r: seq<Methodology>)
    ensures |r| == |rows|
  {
    seq(|rows|, i requires 0 <= i < |rows| => rows[i].(bundle := None))
  }

  function Upgrade(h: Hash, draw: Draw, p: Plane): Option<Plane>
    requires Flat(p.methodologies)
  {
    match Extract(h, draw, Extracted(p.roles, p.revisions, map[]), p.methodologies)
    case None => None
    case Some(e) => Some(Plane(e.roles, e.revisions, DropBundles(Reanchor(h, draw, p.methodologies))))
  }

  // ---------------------------------------------------------------- reading through a reference

  function FindRevision(revisions: seq<RoleRevision>, role: string, version: int): Option<RoleRevision> {
    if revisions == [] then None
    else if revisions[0].role == role && revisions[0].version == version then Some(revisions[0])
    else FindRevision(revisions[1..], role, version)
  }

  function FindRole(roles: seq<Role>, id: string): Option<Role> {
    if roles == [] then None
    else if roles[0].id == id then Some(roles[0])
    else FindRole(roles[1..], id)
  }

  function FindMethodology(rows: seq<Methodology>, template: string, version: int): Option<Methodology> {
    if rows == [] then None
    else if rows[0].template == template && rows[0].version == version then Some(rows[0])
    else FindMethodology(rows[1..], template, version)
  }

  /** `ORDER BY version DESC LIMIT 1`. */
  function Latest(rows: seq<Methodology>, template: string): Option<Methodology> {
    if rows == [] then None
    else
      var best, last := Latest(rows[..|rows| - 1], template), rows[|rows| - 1];
      if last.template == template && (best == None || best.value.version < last.version) then Some(last) else best
  }

  datatype View = View(version: int, role: string, roleVersion: int, description: Option<string>, bundle: Bundle)

  /** The methodology lookup; none stands for its `LookupError`. */
  function Lookup(p: Plane, template: string, version: Option<int>): Option<View> {
    match (match version
           case None => Latest(p.methodologies, template)
           case Some(v) => FindMethodology(p.methodologies, template, v))
    case None => None
    case Some(row) =>
      if row.refs == None || row.refs.value == [] then None
      else
        var first := row.refs.value[0];
        match (FindRole(p.roles, first.role), FindRevision(p.revisions, first.role, first.version))
        case (Some(_), Some(r)) => Some(View(row.version, r.role, r.version, row.description, r.bundle))
        case _ => None
  }

  // ---------------------------------------------------------------- downgrade

  /** One row's bundle columns, read back through its first reference; null when nothing is found. */
  function BundleOf(revisions: seq<RoleRevision>, row: Methodology): Option<Bundle> {
    if row.refs == None || row.refs.value == [] then None
    else match FindRevision(revisions, row.refs.value[0].role, row.refs.value[0].version)
      case None => None
      case Some(r) => Some(r.bundle)
  }

  function Refilled(revisions: seq<RoleRevision>, rows: seq<Methodology>): (r: seq<Methodology>)
    ensures |r| == |rows|
  {
    seq(|rows|, i requires 0 <= i < |rows| => rows[i].(bundle := BundleOf(revisions, rows[i]), refs := None))
  }

  /** `DELETE ... WHERE`. */
  function Without<T>(rows: seq<T>, drop: T -> bool): seq<T> {
    if rows == [] then []
    else
      var front, last := Without(rows[..|rows| - 1], drop), rows[|rows| - 1];
      if drop(last) then front else front + [last]
  }

  predicate MintedRole(r: Role) { r.author == AUTHOR }

  predicate MintedRevision(r: RoleRevision) { r.author == AUTHOR }

  /** The foreign key from role revisions to roles refuses to delete a role that is still referred to. */
  predicate Orphans(roles: seq<Role>, revisions: seq<RoleRevision>) {
    exists i, j ::
      0 <= i < |roles| && 0 <= j < |revisions| && roles[i].author == AUTHOR && revisions[j].role == roles[i].id
  }

  function Downgrade(p: Plane): Option<Plane> {
    var rows := Refilled(p.revisions, p.methodologies);
    var kept := Without(p.revisions, MintedRevision);
    if Orphans(p.roles, kept) || !Flat(rows) then None
    else Some(Plane(Without(p.roles, MintedRole), kept, rows))
  }

  // ================================================================ the roles

  /** The first row of each template, in order. */
  function Firsts(rows: seq<Methodology>): seq<Methodology> {
    if rows == [] then []
    else
      var front, last := rows[..|rows| - 1], rows[|rows| - 1];
      if FirstOf(front, last.template) == None then Firsts(front) + [last] else Firsts(front)
  }

  function FirstOf(rows: seq<Methodology>, template: string): Option<Methodology> {
    if rows == [] then None
    else
      var front, last := FirstOf(rows[..|rows| - 1], template), rows[|rows| - 1];
      if front == None && last.template == template then Some(last) else front
  }

  function Roles(draw: Draw, firsts: seq<Methodology>): (r: seq<Role>)
    ensures |r| == |firsts|
  {
    seq(|firsts|, i requires 0 <= i < |firsts| => NewRole(draw, firsts[i]))
  }

  function RoleRevisions(h: Hash, draw: Draw, firsts: seq<Methodology>): (r: seq<RoleRevision>)
    requires Flat(firsts)
    ensures |r| == |firsts|
  {
    seq(|firsts|, i requires 0 <= i < |firsts| => NewRevision(h, draw, firsts[i]))
  }

  /** The rows come by version within a template, as the query orders them. */
  ghost predicate ByVersion(rows: seq<Methodology>) {
    forall i, j | 0 <= i < j < |rows| && rows[i].template == rows[j].template :: rows[i].version < rows[j].version
  }

  lemma {:induction false} FirstOfAt(rows: seq<Methodology>, t: string)
    ensures FirstOf(rows, t).Some? ==>
              exists i :: 0 <= i < |rows| && rows[i] == FirstOf(rows, t).value && rows[i].template == t
    ensures FirstOf(rows, t) == None <==> forall i | 0 <= i < |rows| :: rows[i].template != t
    ensures Flat(rows) && FirstOf(rows, t).Some? ==> FirstOf(rows, t).value.bundle.Some?
  {
    if rows != [] {
      var front := rows[..|rows| - 1];
      FirstOfAt(front, t);
      if FirstOf(front, t).Some? {
        var i :| 0 <= i < |front| && front[i] == FirstOf(front, t).value && front[i].template == t;
        assert rows[i] == front[i];
      } else {
        forall i | 0 <= i < |rows| - 1 ensures rows[i].template != t {
          assert front[i] == rows[i];
        }
      }
    }
  }

  /** The first row of a template is the one of its lowest version. */
  lemma {:induction false} FirstIsLowest(rows: seq<Methodology>, i: nat)
    requires ByVersion(rows) && i < |rows|
    ensures var f := FirstOf(rows, rows[i].template);
            f.Some? && f.value.version <= rows[i].version && (f.value == rows[i] || f.value.version < rows[i].version)
  {
    var front, t := rows[..|rows| - 1], rows[i].template;
    if i < |front| {
      FirstIsLowest(front, i);
    } else {
      FirstOfAt(front, t);
      if FirstOf(front, t).Some? {
        var k :| 0 <= k < |front| && front[k] == FirstOf(front, t).value && front[k].template == t;
        assert rows[k] == front[k];
      }
    }
  }

  lemma {:induction false} FirstsAre(rows: seq<Methodology>)
    ensures forall k | 0 <= k < |Firsts(rows)| :: FirstOf(rows, Firsts(rows)[k].template) == Some(Firsts(rows)[k])
    ensures Flat(rows) ==> Flat(Firsts(rows))
  {
    if rows != [] {
      var front, last := rows[..|rows| - 1], rows[|rows| - 1];
      FirstsAre(front);
      assert rows == front + [last];
    }
  }

  lemma {:induction false} FirstsDistinct(rows: seq<Methodology>)
    ensures forall j, k | 0 <= j < k < |Firsts(rows)| :: Firsts(rows)[j].template != Firsts(rows)[k].template
  {
    if rows != [] {
      FirstsDistinct(rows[..|rows| - 1]);
      FirstsAre(rows[..|rows| - 1]);
    }
  }

  lemma {:induction false} FirstsCover(rows: seq<Methodology>, t: string)
    requires FirstOf(rows, t).Some?
    ensures exists k :: 0 <= k < |Firsts(rows)| && Firsts(rows)[k] == FirstOf(rows, t).value
  {
    if rows != [] {
      var front, last := rows[..|rows| - 1], rows[|rows| - 1];
      if FirstOf(front, t).Some? {
        FirstsCover(front, t);
        var k :| 0 <= k < |Firsts(front)| && Firsts(front)[k] == FirstOf(front, t).value;
        assert Firsts(rows)[k] == Firsts(front)[k];
      } else {
        assert Firsts(rows)[|Firsts(front)|] == last;
      }
    }
  }

  /** The names the upgrade is about to give are free, and no two of them are the same. */
  ghost predicate NamesFree(roles: seq<Role>, firsts: seq<Methodology>) {
    forall k | 0 <= k < |firsts| :: NameFree(roles, firsts, k)
  }

  ghost predicate NameFree(roles: seq<Role>, firsts: seq<Methodology>, k: nat)
    requires k < |firsts|
  {
    !NameTaken(roles, RoleName(firsts[k].name)) && forall j | 0 <= j < k :: firsts[j].name != firsts[k].name
  }

  lemma RoleNamesDiffer(a: string, b: string)
    ensures RoleName(a) == RoleName(b) <==> a == b
  {
    if RoleName(a) == RoleName(b) {
      assert |a| == |b|;
      assert RoleName(a)[..|a|] == a && RoleName(b)[..|b|] == b;
    }
  }

  lemma NameTakenAfter(roles: seq<Role>, draw: Draw, firsts: seq<Methodology>, name: string)
    ensures NameTaken(roles + Roles(draw, firsts), RoleName(name)) <==>
            NameTaken(roles, RoleName(name)) || exists j :: 0 <= j < |firsts| && firsts[j].name == name
  {
    var all := roles + Roles(draw, firsts);
    if j :| 0 <= j < |firsts| && firsts[j].name == name {
      assert all[|roles| + j] == NewRole(draw, firsts[j]);
    } else if NameTaken(roles, RoleName(name)) {
      var i :| 0 <= i < |roles| && !roles[i].archived && roles[i].name == RoleName(name);
      assert all[i] == roles[i];
    } else if NameTaken(all, RoleName(name)) {
      var i :| 0 <= i < |all| && !all[i].archived && all[i].name == RoleName(name);
      assert i >= |roles|;
      RoleNamesDiffer(firsts[i - |roles|].name, name);
    }
  }

  lemma NamesFreeStep(roles: seq<Role>, front: seq<Methodology>, row: Methodology)
    ensures NamesFree(roles, front + [row]) <==>
            NamesFree(roles, front) && !NameTaken(roles, RoleName(row.name)) &&
            !(exists j :: 0 <= j < |front| && front[j].name == row.name)
  {
    var all := front + [row];
    assert all[|front|] == row;
    forall k | 0 <= k < |front| ensures NameFree(roles, all, k) <==> NameFree(roles, front, k) {
      assert all[k] == front[k] && forall j | 0 <= j < k :: all[j] == front[j];
    }
    if NamesFree(roles, all) {
      assert NameFree(roles, all, |front|);
      forall j | 0 <= j < |front| ensures front[j].name != row.name {
        assert all[j] == front[j];
      }
      forall k | 0 <= k < |front| ensures NameFree(roles, front, k) {
        assert NameFree(roles, all, k);
      }
    }
  }

  ghost predicate IdsOf(ids: map<string, string>, draw: Draw, rows: seq<Methodology>) {
    && (forall t :: t in ids <==> FirstOf(rows, t).Some?)
    && (forall t | t in ids :: ids[t] == draw(t))
  }

  lemma AppendNew(h: Hash, draw: Draw, firsts: seq<Methodology>, row: Methodology)
    requires Flat(firsts) && row.bundle.Some?
    ensures Flat(firsts + [row])
    ensures Roles(draw, firsts + [row]) == Roles(draw, firsts) + [NewRole(draw, row)]
    ensures RoleRevisions(h, draw, firsts + [row]) == RoleRevisions(h, draw, firsts) + [NewRevision(h, draw, row)]
  {
  }

  /** What extraction amounts to: one role per template, made from its first row, or a refusal over names. */
  ghost predicate ExtractedAll(h: Hash, draw: Draw, roles: seq<Role>, revisions: seq<RoleRevision>,
                               rows: seq<Methodology>, r: Option<Extracted>) {
    && Flat(Firsts(rows))
    && (r.Some? <==> NamesFree(roles, Firsts(rows)))
    && (r.Some? ==>
          && r.value.roles == roles + Roles(draw, Firsts(rows))
          && r.value.revisions == revisions + RoleRevisions(h, draw, Firsts(rows))
          && IdsOf(r.value.ids, draw, rows))
  }

  lemma ExtractNew(h: Hash, draw: Draw, roles: seq<Role>, revisions: seq<RoleRevision>, front: seq<Methodology>,
                   row: Methodology, e: Extracted)
    requires row.bundle.Some? && ExtractedAll(h, draw, roles, revisions, front, Some(e)) &&
             FirstOf(front, row.template) == None
    ensures ExtractedAll(h, draw, roles, revisions, front + [row], ExtractRow(h, draw, e, row))
  {
    assert (front + [row])[..|front|] == front;
    AppendNew(h, draw, Firsts(front), row);
    NamesFreeStep(roles, Firsts(front), row);
    NameTakenAfter(roles, draw, Firsts(front), row.name);
    assert roles + Roles(draw, Firsts(front)) + [NewRole(draw, row)] == roles + Roles(draw, Firsts(front) + [row]);
    assert revisions + RoleRevisions(h, draw, Firsts(front)) + [NewRevision(h, draw, row)] ==
           revisions + RoleRevisions(h, draw, Firsts(front) + [row]);
  }

  lemma {:induction false} ExtractExact(h: Hash, draw: Draw, roles: seq<Role>, revisions: seq<RoleRevision>,
                                        rows: seq<Methodology>)
    requires Flat(rows)
    ensures ExtractedAll(h, draw, roles, revisions, rows, Extract(h, draw, Extracted(roles, revisions, map[]), rows))
  {
    if rows == [] {
      assert roles + Roles(draw, []) == roles && revisions + RoleRevisions(h, draw, []) == revisions;
    } else {
      var front, row := rows[..|rows| - 1], rows[|rows| - 1];
      assert rows == front + [row];
      ExtractExact(h, draw, roles, revisions, front);
      var e := Extract(h, draw, Extracted(roles, revisions, map[]), front);
      if FirstOf(front, row.template) == None {
        if e.Some? {
          ExtractNew(h, draw, roles, revisions, front, row, e.value);
        } else {
          AppendNew(h, draw, Firsts(front), row);
          NamesFreeStep(roles, Firsts(front), row);
        }
      }
    }
  }
}
