/**
 Control-plane migration 0007: the role that 0006 minted for the LVT methodology
 gets a name and a description of its own, and its first revision is hashed
 again, name and description being part of what that digest covers.
 */
module MethodologyRename {
  import opened JsonText
  import opened HashChain
  import opened MethodologyRoles
  import opened MethodologyUpgrade

  const OLD_NAME := "LVTRole"
  const NEW_NAME := "LVTGuide"
  const OLD_DESCRIPTION := "Auto-migrated role for LVT methodology"
  const NEW_DESCRIPTION :=
    "Lean Value Tree guide role: helps the user place work in the bet " +
    "\U{2192} initiative \U{2192} epic \U{2192} story hierarchy, checks alignment upward and " +
    "decomposition downward, surfaces drift between strategic intent and execution."

  /** `LIMIT 1` without an order: here, the first in the table. */
  function FindMinted(roles: seq<Role>, name: string): Option<nat> {
    if roles == [] then None
    else match FindMinted(roles[..|roles| - 1], name)
      case Some(i) => Some(i)
      case None =>
        var last := roles[|roles| - 1];
        if last.name == name && MintedRole(last) then Some(|roles| - 1) else None
  }

  function FindFirstVersion(revisions: seq<RoleRevision>, role: string): Option<nat> {
    if revisions == [] then None
    else match FindFirstVersion(revisions[..|revisions| - 1], role)
      case Some(k) => Some(k)
      case None =>
        var last := revisions[|revisions| - 1];
        if last.role == role && last.version == 1 then Some(|revisions| - 1) else None
  }

  /** Another active role has the name. */
  predicate NameTakenBesides(roles: seq<Role>, i: nat, name: string) {
    exists j :: 0 <= j < |roles| && j != i && !roles[j].archived && roles[j].name == name
  }

  function Anchor(previous: string): string { if previous == "" then GENESIS else previous }

  function Rehashed(h: Hash, name: string, description: string, r: RoleRevision): RoleRevision {
    r.(own := BundleHash(h, name, Some(description), r.bundle, Anchor(r.previous)))
  }

  lemma {:induction false} FindMintedAt(roles: seq<Role>, name: string)
    ensures match FindMinted(roles, name)
            case None => forall j | 0 <= j < |roles| :: !(roles[j].name == name && MintedRole(roles[j]))
            case Some(i) => i < |roles| && roles[i].name == name && MintedRole(roles[i]) &&
                            forall j | 0 <= j < i :: !(roles[j].name == name && MintedRole(roles[j]))
  {
    if roles != [] {
      FindMintedAt(roles[..|roles| - 1], name);
    }
  }

  lemma {:induction false} FindFirstVersionAt(revisions: seq<RoleRevision>, role: string)
    ensures match FindFirstVersion(revisions, role)
            case None => forall j | 0 <= j < |revisions| :: !(revisions[j].role == role && revisions[j].version == 1)
            case Some(k) => k < |revisions| && revisions[k].role == role && revisions[k].version == 1 &&
                            forall j | 0 <= j < k :: !(revisions[j].role == role && revisions[j].version == 1)
  {
    if revisions != [] {
      FindFirstVersionAt(revisions[..|revisions| - 1], role);
    }
  }

  /** The first revision of `role` hashed again, if there is one. */
  function RehashedIn(h: Hash, name: string, description: string, revisions: seq<RoleRevision>,
                      role: string): (r: seq<RoleRevision>)
    ensures |r| == |revisions|
  {
    match FindFirstVersion(revisions, role)
    case None => revisions
    case Some(k) =>
      FindFirstVersionAt(revisions, role);
      revisions[k := Rehashed(h, name, description, revisions[k])]
  }

  /** `_rename_role`; none when the unique index on active names refuses. */
  function Rename(h: Hash, newName: string, description: string, oldName: string, p: Plane): Option<Plane> {
    match FindMinted(p.roles, oldName)
    case None => Some(p)
    case Some(i) =>
      FindMintedAt(p.roles, oldName);
      if !p.roles[i].archived && NameTakenBesides(p.roles, i, newName) then None
      else Some(p.(
        roles := p.roles[i := p.roles[i].(name := newName, description := Some(description))],
        revisions := RehashedIn(h, newName, description, p.revisions, p.roles[i].id)))
  }

  function Split(h: Hash, p: Plane): Option<Plane> { Rename(h, NEW_NAME, NEW_DESCRIPTION, OLD_NAME, p) }

  function Unsplit(h: Hash, p: Plane): Option<Plane> { Rename(h, OLD_NAME, OLD_DESCRIPTION, NEW_NAME, p) }

  // ---------------------------------------------------------------- and back

  /** The role's first revision, if any, carries the digest the old name and description call for. */
  ghost predicate FirstVersionSound(h: Hash, revisions: seq<RoleRevision>, role: string) {
    match FindFirstVersion(revisions, role)
    case None => true
    case Some(k) => k < |revisions| && Rehashed(h, OLD_NAME, OLD_DESCRIPTION, revisions[k]) == revisions[k]
  }

  /** Renaming role `i` of `p` away from the old name can be undone. */
  ghost predicate Undoable(h: Hash, p: Plane, i: nat) {
    && i < |p.roles|
    && (forall j | 0 <= j < i :: !(p.roles[j].name == NEW_NAME && MintedRole(p.roles[j])))
    && p.roles[i].description == Some(OLD_DESCRIPTION)
    && (p.roles[i].archived || !NameTakenBesides(p.roles, i, OLD_NAME))
    && FirstVersionSound(h, p.revisions, p.roles[i].id)
  }

  /** The state before the split is one the split can be undone to. */
  ghost predicate Restorable(h: Hash, p: Plane) {
    match FindMinted(p.roles, OLD_NAME)
    case None => FindMinted(p.roles, NEW_NAME) == None
    case Some(i) => Undoable(h, p, i)
  }

  lemma NamesApart()
    ensures OLD_NAME != NEW_NAME && |OLD_NAME| == 7 && |NEW_NAME| == 8
  {
  }

  /** The renamed role is the one found on the way back, unless another of the new name stands before it. */
  lemma FoundAgain(p: Plane, i: nat, role: Role)
    requires i < |p.roles| && FindMinted(p.roles, OLD_NAME) == Some(i) && MintedRole(role) && role.name == NEW_NAME
    ensures var j := FindMinted(p.roles[i := role], NEW_NAME);
            j.Some? && j.value <= i &&
            (j.value == i <==> forall k | 0 <= k < i :: !(p.roles[k].name == NEW_NAME && MintedRole(p.roles[k])))
  {
    var roles := p.roles[i := role];
    FindMintedAt(roles, NEW_NAME);
    assert roles[i] == role;
    forall k | 0 <= k < i ensures roles[k] == p.roles[k] {
    }
  }

  lemma {:induction false} SameFirstVersion(a: seq<RoleRevision>, b: seq<RoleRevision>, role: string)
    requires |a| == |b| && forall k | 0 <= k < |a| :: a[k].role == b[k].role && a[k].version == b[k].version
    ensures FindFirstVersion(a, role) == FindFirstVersion(b, role)
  {
    if a != [] {
      SameFirstVersion(a[..|a| - 1], b[..|b| - 1], role);
    }
  }

  lemma BesidesIgnoresItself(roles: seq<Role>, i: nat, role: Role, name: string)
    requires i < |roles|
    ensures NameTakenBesides(roles[i := role], i, name) <==> NameTakenBesides(roles, i, name)
  {
    var next := roles[i := role];
    if NameTakenBesides(roles, i, name) {
      var j :| 0 <= j < |roles| && j != i && !roles[j].archived && roles[j].name == name;
      assert next[j] == roles[j];
    }
    if NameTakenBesides(next, i, name) {
      var j :| 0 <= j < |roles| && j != i && !next[j].archived && next[j].name == name;
      assert next[j] == roles[j];
    }
  }

  lemma RehashedBack(h: Hash, revisions: seq<RoleRevision>, role: string)
    ensures var renamed := RehashedIn(h, NEW_NAME, NEW_DESCRIPTION, revisions, role);
            RehashedIn(h, OLD_NAME, OLD_DESCRIPTION, renamed, role) == revisions <==>
            FirstVersionSound(h, revisions, role)
  {
    var next := RehashedIn(h, NEW_NAME, NEW_DESCRIPTION, revisions, role);
    FindFirstVersionAt(revisions, role);
    SameFirstVersion(revisions, next, role);
    if k: nat :| FindFirstVersion(revisions, role) == Some(k) {
      var back := Rehashed(h, OLD_NAME, OLD_DESCRIPTION, next[k]);
      assert back == Rehashed(h, OLD_NAME, OLD_DESCRIPTION, revisions[k]);
      assert next[k := back] == revisions[k := back];
      assert revisions[k := back] == revisions <==> back == revisions[k];
    }
  }

  lemma RolesBack(roles: seq<Role>, i: nat, role: Role, back: Role)
    requires i < |roles|
    ensures roles[i := role][i := back] == roles <==> back == roles[i]
  {
    assert roles[i := role][i := back][i] == back;
    assert back == roles[i] ==> roles[i := role][i := back] == roles;
  }

  /** Undoing the split at the role it renamed. */
  lemma BackAt(h: Hash, p: Plane, q: Plane, i: nat)
    requires FindMinted(p.roles, OLD_NAME) == Some(i) && Split(h, p) == Some(q)
    requires FindMinted(q.roles, NEW_NAME) == Some(i)
    ensures i < |p.roles|
    ensures Unsplit(h, q) == Some(p) <==>
            && p.roles[i].description == Some(OLD_DESCRIPTION)
            && (p.roles[i].archived || !NameTakenBesides(p.roles, i, OLD_NAME))
            && FirstVersionSound(h, p.revisions, p.roles[i].id)
  {
    FindMintedAt(p.roles, OLD_NAME);
    BesidesIgnoresItself(p.roles, i, q.roles[i], OLD_NAME);
    RehashedBack(h, p.revisions, p.roles[i].id);
    RolesBack(p.roles, i, q.roles[i], q.roles[i].(name := OLD_NAME, description := Some(OLD_DESCRIPTION)));
  }

  /** The downgrade after the upgrade restores the state exactly when that state is restorable. */
  lemma UnsplitUndoesSplit(h: Hash, p: Plane, q: Plane)
    requires Split(h, p) == Some(q)
    ensures Unsplit(h, q) == Some(p) <==> Restorable(h, p)
  {
    NamesApart();
    match FindMinted(p.roles, OLD_NAME) {
      case None =>
        FindMintedAt(p.roles, NEW_NAME);
      case Some(i) =>
        FindMintedAt(p.roles, OLD_NAME);
        FoundAgain(p, i, q.roles[i]);
        var j := FindMinted(q.roles, NEW_NAME).value;
        if j == i {
          BackAt(h, p, q, i);
        } else {
          WrongRole(h, p, q, i, j);
        }
    }
  }

  /** A role renamed on the way back that was not renamed on the way out. */
  lemma WrongRole(h: Hash, p: Plane, q: Plane, i: nat, j: nat)
    requires i < |p.roles| == |q.roles| && j < i && q.roles[j] == p.roles[j] && FindMinted(q.roles, NEW_NAME) == Some(j)
    ensures Unsplit(h, q) != Some(p)
  {
    NamesApart();
    FindMintedAt(q.roles, NEW_NAME);
  }

  // ---------------------------------------------------------------- after 0006

  lemma LvtRoleOf(name: string)
    ensures RoleName(name) == OLD_NAME <==> name == "LVT"
    ensures RoleName(name) != NEW_NAME
  {
    assert |RoleName(name)| == |name| + 4 && RoleName(name)[|name|] == 'R';
    assert NEW_NAME[4] == 'u' && |NEW_NAME| == 8;
    if RoleName(name) == OLD_NAME {
      assert name == OLD_NAME[..3];
    }
    assert RoleName("LVT") == OLD_NAME;
  }

  lemma LvtDescription()
    ensures RoleDescription("LVT") == OLD_DESCRIPTION
  {
  }

  /** In a control plane fresh from 0006, the marked roles are those 0006 minted. */
  lemma MarkedIsMinted(h: Hash, draw: Draw, p: Plane, q: Plane, j: nat)
    requires Flat(p.methodologies) && Upgrade(h, draw, p) == Some(q) && Unmarked(p) && j < |q.roles| &&
             MintedRole(q.roles[j])
    ensures |p.roles| <= j < |p.roles| + |Firsts(p.methodologies)|
    ensures q.roles[j] == NewRole(draw, Firsts(p.methodologies)[j - |p.roles|])
  {
    UpgradeExact(h, draw, p);
  }

  lemma FreeNamesDiffer(roles: seq<Role>, firsts: seq<Methodology>, a: nat, b: nat)
    requires NamesFree(roles, firsts) && a < |firsts| && b < |firsts| && a != b
    ensures RoleName(firsts[a].name) != RoleName(firsts[b].name)
  {
    RoleNamesDiffer(firsts[a].name, firsts[b].name);
    assert NameFree(roles, firsts, if a < b then b else a);
  }

  lemma NobodyElse(roles: seq<Role>, draw: Draw, firsts: seq<Methodology>, f: nat)
    requires NamesFree(roles, firsts) && f < |firsts|
    ensures !NameTakenBesides(roles + Roles(draw, firsts), |roles| + f, RoleName(firsts[f].name))
  {
    var all, n := roles + Roles(draw, firsts), |roles|;
    assert NameFree(roles, firsts, f);
    forall j | 0 <= j < |all| && j != n + f && !all[j].archived ensures all[j].name != RoleName(firsts[f].name) {
      if j < n {
        assert all[j] == roles[j];
      } else {
        assert all[j] == NewRole(draw, firsts[j - n]);
        FreeNamesDiffer(roles, firsts, j - n, f);
      }
    }
  }

  lemma MintedIsSound(h: Hash, draw: Draw, p: Plane, q: Plane, f: nat)
    requires Flat(p.methodologies) && DrawsNew(draw, p) && Upgrade(h, draw, p) == Some(q)
    requires f < |Firsts(p.methodologies)| && RoleName(Firsts(p.methodologies)[f].name) == OLD_NAME
    ensures FirstVersionSound(h, q.revisions, draw(Firsts(p.methodologies)[f].template))
  {
    var firsts, n := Firsts(p.methodologies), |p.revisions|;
    UpgradeExact(h, draw, p);
    FindFirstVersionAt(q.revisions, draw(firsts[f].template));
    if k: nat :| FindFirstVersion(q.revisions, draw(firsts[f].template)) == Some(k) {
      assert k >= n;
      FirstsDistinct(p.methodologies);
      assert q.revisions[k] == NewRevision(h, draw, firsts[k - n]);
      assert k - n == f;
      LvtRoleOf(firsts[f].name);
      LvtDescription();
      assert |GENESIS| == 64;
    }
  }

  lemma NoGuideYet(h: Hash, draw: Draw, p: Plane, q: Plane, j: nat)
    requires Flat(p.methodologies) && Upgrade(h, draw, p) == Some(q) && Unmarked(p) && j < |q.roles| &&
             MintedRole(q.roles[j])
    ensures q.roles[j].name != NEW_NAME
  {
    MarkedIsMinted(h, draw, p, q, j);
    LvtRoleOf(Firsts(p.methodologies)[j - |p.roles|].name);
  }

  lemma MintedIsUndoable(h: Hash, draw: Draw, p: Plane, q: Plane, i: nat)
    requires Flat(p.methodologies) && DrawsNew(draw, p) && Unmarked(p) && Upgrade(h, draw, p) == Some(q)
    requires i < |q.roles| && MintedRole(q.roles[i]) && q.roles[i].name == OLD_NAME
    ensures q.roles[i].description == Some(OLD_DESCRIPTION)
    ensures !NameTakenBesides(q.roles, i, OLD_NAME) && FirstVersionSound(h, q.revisions, q.roles[i].id)
  {
    MarkedIsMinted(h, draw, p, q, i);
    var firsts, f := Firsts(p.methodologies), i - |p.roles|;
    LvtRoleOf(firsts[f].name);
    LvtDescription();
    MintedIsSound(h, draw, p, q, f);
    UpgradeExact(h, draw, p);
    NobodyElse(p.roles, draw, firsts, f);
  }

  /** What 0006 leaves is restorable, so 0007 can always be undone there. */
  lemma RestorableAfterUpgrade(h: Hash, draw: Draw, p: Plane, q: Plane)
    requires Flat(p.methodologies) && DrawsNew(draw, p) && Unmarked(p) && Upgrade(h, draw, p) == Some(q)
    ensures Restorable(h, q)
  {
    FindMintedAt(q.roles, NEW_NAME);
    FindMintedAt(q.roles, OLD_NAME);
    forall j | 0 <= j < |q.roles| && MintedRole(q.roles[j]) ensures q.roles[j].name != NEW_NAME {
      NoGuideYet(h, draw, p, q, j);
    }
    if FindMinted(q.roles, OLD_NAME).Some? {
      MintedIsUndoable(h, draw, p, q, FindMinted(q.roles, OLD_NAME).value);
    }
  }

  /** After 0006, downgrading 0007 restores the state 0007 found, the digest of revision 1 included. */
  lemma SplitIsUndoneAfterUpgrade(h: Hash, draw: Draw, p: Plane, q: Plane, r: Plane)
    requires Flat(p.methodologies) && DrawsNew(draw, p) && Unmarked(p)
    requires Upgrade(h, draw, p) == Some(q) && Split(h, q) == Some(r)
    ensures Unsplit(h, r) == Some(q)
  {
    RestorableAfterUpgrade(h, draw, p, q);
    UnsplitUndoesSplit(h, q, r);
  }
}
