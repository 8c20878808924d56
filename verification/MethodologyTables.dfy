/**
 Migrations 0006 and 0007 as they run: statements and loops that insert, update
 and delete rows of the control plane's tables inside one transaction.
 */
module MethodologyTables {
  import opened JsonText
  import opened HashChain
  import opened MethodologyRoles
  import opened MethodologyUpgrade
  import opened MethodologyRename

  // ---------------------------------------------------------------- grouping

  /** Where the rows of a template stand. */
  function Positions(rows: seq<Methodology>, t: string): (ps: seq<nat>)
    ensures forall k | 0 <= k < |ps| :: ps[k] < |rows|
  {
    if rows == [] then []
    else
      var front, last := Positions(rows[..|rows| - 1], t), rows[|rows| - 1];
      if last.template == t then front + [|rows| - 1] else front
  }

  lemma {:induction false} PositionsAre(rows: seq<Methodology>, t: string)
    ensures forall j :: j in Positions(rows, t) <==> 0 <= j < |rows| && rows[j].template == t
    ensures forall i, j | 0 <= i < j < |Positions(rows, t)| :: Positions(rows, t)[i] < Positions(rows, t)[j]
  {
    if rows != [] {
      var front := rows[..|rows| - 1];
      PositionsAre(front, t);
      forall j ensures j in Positions(rows, t) <==> 0 <= j < |rows| && rows[j].template == t {
        assert j in Positions(rows, t) <==>
               j in Positions(front, t) || (rows[|rows| - 1].template == t && j == |rows| - 1);
      }
    }
  }

  lemma {:induction false} PositionsUpTo(rows: seq<Methodology>, t: string, m: nat)
    requires m < |Positions(rows, t)|
    ensures Positions(rows, t)[m] < |rows| && rows[Positions(rows, t)[m]].template == t
    ensures Positions(rows[..Positions(rows, t)[m]], t) == Positions(rows, t)[..m]
  {
    var front := rows[..|rows| - 1];
    var ps := Positions(front, t);
    if m < |ps| {
      PositionsUpTo(front, t, m);
      assert rows[..ps[m]] == front[..ps[m]];
    }
  }

  lemma {:induction false} HeadAtLastPosition(rows: seq<Methodology>, t: string)
    ensures var ps := Positions(rows, t);
            HeadFor(rows, t) == if ps == [] then GENESIS else rows[ps[|ps| - 1]].own
  {
    if rows != [] {
      HeadAtLastPosition(rows[..|rows| - 1], t);
    }
  }

  lemma {:induction false} SamePositions(a: seq<Methodology>, b: seq<Methodology>, t: string)
    requires |a| == |b| && forall i | 0 <= i < |a| :: a[i].template == b[i].template
    ensures Positions(a, t) == Positions(b, t)
  {
    if a != [] {
      SamePositions(a[..|a| - 1], b[..|b| - 1], t);
    }
  }

  lemma InFront<T>(a: seq<T>, x: T, i: nat)
    requires i < |a|
    ensures (a + [x])[i] == a[i] && (a + [x])[..i] == a[..i]
  {
  }

  lemma ReanchorAppend(h: Hash, draw: Draw, front: seq<Methodology>, last: Methodology)
    ensures var r := Reanchor(h, draw, front);
            Reanchor(h, draw, front + [last]) ==
            r + [Reanchored(h, last, draw(last.template), HeadFor(r, last.template))]
  {
    assert (front + [last])[..|front|] == front;
  }

  /** A row and its re-anchored form, behind their prefixes. */
  ghost predicate AnchoredAt(h: Hash, draw: Draw, rows: seq<Methodology>, r: seq<Methodology>, i: nat)
    requires i < |rows| == |r|
  {
    r[i] == Reanchored(h, rows[i], draw(rows[i].template), HeadFor(r[..i], rows[i].template))
  }

  lemma {:induction false} ReanchorPrefix(h: Hash, draw: Draw, rows: seq<Methodology>, i: nat)
    requires i < |rows|
    ensures AnchoredAt(h, draw, rows, Reanchor(h, draw, rows), i)
    ensures Reanchor(h, draw, rows)[..i] == Reanchor(h, draw, rows[..i])
  {
    var front, last := rows[..|rows| - 1], rows[|rows| - 1];
    var r := Reanchor(h, draw, front);
    var row := Reanchored(h, last, draw(last.template), HeadFor(r, last.template));
    assert rows == front + [last];
    ReanchorAppend(h, draw, front, last);
    if i < |front| {
      ReanchorPrefix(h, draw, front, i);
      InFront(front, last, i);
      InFront(r, row, i);
    } else {
      assert (r + [row])[..i] == r;
    }
  }

  lemma ReanchorTemplates(h: Hash, draw: Draw, rows: seq<Methodology>, t: string)
    ensures Positions(Reanchor(h, draw, rows), t) == Positions(rows, t)
  {
    var r := Reanchor(h, draw, rows);
    forall i | 0 <= i < |rows| ensures r[i].template == rows[i].template {
      ReanchorAt(h, draw, rows, i);
    }
    SamePositions(r, rows, t);
  }

  lemma HeadOfPrefix(r: seq<Methodology>, t: string, n: nat, ps: seq<nat>, m: nat)
    requires n <= |r| && m <= |ps| && Positions(r[..n], t) == ps[..m]
    ensures m > 0 ==> ps[m - 1] < n
    ensures HeadFor(r[..n], t) == if m == 0 then GENESIS else r[ps[m - 1]].own
  {
    HeadAtLastPosition(r[..n], t);
    if m > 0 {
      assert ps[..m][m - 1] == ps[m - 1];
    }
  }

  lemma {:induction false} PrefixPositions(h: Hash, draw: Draw, rows: seq<Methodology>, t: string, m: nat)
    requires m < |Positions(rows, t)|
    ensures Positions(Reanchor(h, draw, rows)[..Positions(rows, t)[m]], t) == Positions(rows, t)[..m]
  {
    var n := Positions(rows, t)[m];
    PositionsUpTo(rows, t, m);
    ReanchorPrefix(h, draw, rows, n);
    ReanchorTemplates(h, draw, rows[..n], t);
  }

  lemma {:induction false} HeadOfGroup(h: Hash, draw: Draw, rows: seq<Methodology>, t: string, m: nat)
    requires m < |Positions(rows, t)|
    ensures var ps, r := Positions(rows, t), Reanchor(h, draw, rows);
            HeadFor(r[..ps[m]], t) == if m == 0 then GENESIS else r[ps[m - 1]].own
  {
    var ps := Positions(rows, t);
    PrefixPositions(h, draw, rows, t, m);
    HeadOfPrefix(Reanchor(h, draw, rows), t, ps[m], ps, m);
  }

  /** The digest a row chains from is that of the row before it in its group. */
  lemma {:induction false} PreviousInGroup(h: Hash, draw: Draw, rows: seq<Methodology>, t: string, m: nat)
    requires m < |Positions(rows, t)|
    ensures var ps, r := Positions(rows, t), Reanchor(h, draw, rows);
            rows[ps[m]].template == t &&
            r[ps[m]] == Reanchored(h, rows[ps[m]], draw(t), if m == 0 then GENESIS else r[ps[m - 1]].own)
  {
    var ps := Positions(rows, t);
    PositionsUpTo(rows, t, m);
    HeadOfGroup(h, draw, rows, t, m);
    ReanchorPrefix(h, draw, rows, ps[m]);
  }

  ghost predicate Distinct<T>(xs: seq<T>) {
    forall i, j | 0 <= i < j < |xs| :: xs[i] != xs[j]
  }

  /** `setdefault(...).append(...)`: the templates in first-seen order, and the rows of each. */
  ghost predicate Grouped(rows: seq<Methodology>, order: seq<string>, groups: map<string, seq<nat>>) {
    && (forall t :: t in order <==> t in groups)
    && (forall t :: t in groups <==> Positions(rows, t) != [])
    && (forall t | t in groups :: groups[t] == Positions(rows, t))
    && Distinct(order)
  }

  lemma PositionsOfAppend(rows: seq<Methodology>, row: Methodology, t: string)
    ensures Positions(rows + [row], t) ==
            if row.template == t then Positions(rows, t) + [|rows|] else Positions(rows, t)
  {
    assert (rows + [row])[..|rows|] == rows;
  }

  /** The dictionary of groups, with its keys in the order they came in. */
  datatype Groups = Groups(order: seq<string>, members: map<string, seq<nat>>)

  function Join(g: Groups, t: string, i: nat): Groups {
    if t in g.members then Groups(g.order, g.members[t := g.members[t] + [i]])
    else Groups(g.order + [t], g.members[t := [i]])
  }

  function GroupsOf(rows: seq<Methodology>): Groups {
    if rows == [] then Groups([], map[])
    else Join(GroupsOf(rows[..|rows| - 1]), rows[|rows| - 1].template, |rows| - 1)
  }

  lemma DistinctAppend<T>(xs: seq<T>, x: T)
    requires Distinct(xs) && x !in xs
    ensures Distinct(xs + [x])
  {
  }

  lemma JoinKeepsGrouped(rows: seq<Methodology>, row: Methodology, g: Groups)
    requires Grouped(rows, g.order, g.members)
    ensures var next := Join(g, row.template, |rows|); Grouped(rows + [row], next.order, next.members)
  {
    forall t
      ensures Positions(rows + [row], t) == Positions(rows, t) + if row.template == t then [|rows|] else []
    {
      PositionsOfAppend(rows, row, t);
    }
    if row.template !in g.members {
      assert Positions(rows, row.template) == [];
      DistinctAppend(g.order, row.template);
    }
  }

  lemma NothingGrouped()
    ensures Grouped([], [], map[])
  {
  }

  lemma GroupsOfAppend(rows: seq<Methodology>, row: Methodology)
    ensures GroupsOf(rows + [row]) == Join(GroupsOf(rows), row.template, |rows|)
  {
    assert (rows + [row])[..|rows|] == rows;
  }

  lemma {:induction false} GroupsAreGrouped(rows: seq<Methodology>, g: Groups)
    requires g == GroupsOf(rows)
    ensures Grouped(rows, g.order, g.members)
  {
    if rows == [] {
      NothingGrouped();
    } else {
      var front, row := rows[..|rows| - 1], rows[|rows| - 1];
      assert front + [row] == rows;
      GroupsAreGrouped(front, GroupsOf(front));
      JoinKeepsGrouped(front, row, GroupsOf(front));
      GroupsOfAppend(front, row);
    }
  }

  method Group(rows: seq<Methodology>) returns (order: seq<string>, groups: map<string, seq<nat>>)
    ensures Grouped(rows, order, groups)
  {
    order, groups := [], map[];
    var i := 0;
    while i < |rows|
      invariant 0 <= i <= |rows|
      invariant Groups(order, groups) == GroupsOf(rows[..i])
    {
      var t := rows[i].template;
      if t in groups {
        groups := groups[t := groups[t] + [i]];
      } else {
        order, groups := order + [t], groups[t := [i]];
      }
      assert rows[..i + 1] == rows[..i] + [rows[i]];
      GroupsOfAppend(rows[..i], rows[i]);
      i := i + 1;
    }
    assert rows[..|rows|] == rows;
    GroupsAreGrouped(rows, Groups(order, groups));
  }

  // ---------------------------------------------------------------- the tables

  lemma {:induction false} ExtractStops(h: Hash, draw: Draw, start: Extracted, rows: seq<Methodology>, i: nat)
    requires Flat(rows) && i <= |rows| && Extract(h, draw, start, rows[..i]) == None
    ensures Extract(h, draw, start, rows) == None
  {
    if i < |rows| {
      assert rows[..|rows| - 1][..i] == rows[..i];
      ExtractStops(h, draw, start, rows[..|rows| - 1], i);
    } else {
      assert rows[..i] == rows;
    }
  }

  lemma ExtractStep(h: Hash, draw: Draw, start: Extracted, rows: seq<Methodology>, i: nat)
    requires Flat(rows) && i < |rows| && Extract(h, draw, start, rows[..i]).Some?
    ensures Extract(h, draw, start, rows[..i + 1]) ==
            ExtractRow(h, draw, Extract(h, draw, start, rows[..i]).value, rows[i])
  {
    assert rows[..i + 1][..i] == rows[..i];
  }

  /** The groups in `done` and the first `m` positions of `open` are re-anchored, everything else is as it was. */
  ghost predicate Partly(target: seq<Methodology>, rows: seq<Methodology>, now: seq<Methodology>, done: seq<string>,
                         open: seq<nat>) {
    |now| == |rows| == |target| &&
    forall j: nat | j < |rows| :: now[j] == if rows[j].template in done || j in open then target[j] else rows[j]
  }

  lemma PartlyUpdate(target: seq<Methodology>, rows: seq<Methodology>, now: seq<Methodology>, done: seq<string>,
                     open: seq<nat>, j: nat)
    requires Partly(target, rows, now, done, open) && j < |rows|
    ensures Partly(target, rows, now[j := target[j]], done, open + [j])
  {
  }

  lemma NotBefore<T>(xs: seq<T>, k: nat)
    requires Distinct(xs) && k < |xs|
    ensures xs[k] in xs && xs[k] !in xs[..k]
  {
  }

  lemma GroupHasRows(rows: seq<Methodology>, t: string)
    requires Positions(rows, t) != []
    ensures FirstOf(rows, t).Some?
  {
    PositionsAre(rows, t);
    FirstOfAt(rows, t);
    assert Positions(rows, t)[0] in Positions(rows, t);
  }

  lemma NextGroup(rows: seq<Methodology>, order: seq<string>, groups: map<string, seq<nat>>, k: nat)
    requires Grouped(rows, order, groups) && k < |order|
    ensures order[k] in groups && groups[order[k]] == Positions(rows, order[k]) && order[k] !in order[..k]
    ensures FirstOf(rows, order[k]).Some?
    ensures order[..k + 1] == order[..k] + [order[k]]
  {
    NotBefore(order, k);
    GroupHasRows(rows, order[k]);
    PrefixGrows(order, k);
  }

  lemma {:induction false} AllGroupsDone(h: Hash, draw: Draw, rows: seq<Methodology>, now: seq<Methodology>,
                                         order: seq<string>, groups: map<string, seq<nat>>)
    requires Grouped(rows, order, groups) && Partly(Reanchor(h, draw, rows), rows, now, order, [])
    ensures now == Reanchor(h, draw, rows)
  {
    forall j: nat | j < |rows| ensures now[j] == Reanchor(h, draw, rows)[j] {
      PositionsAre(rows, rows[j].template);
      assert j in Positions(rows, rows[j].template);
    }
  }

  lemma PrefixGrows<T>(xs: seq<T>, m: nat)
    requires m < |xs|
    ensures xs[..m + 1] == xs[..m] + [xs[m]]
  {
  }

  lemma NotYetOpen(rows: seq<Methodology>, t: string, m: nat)
    requires m < |Positions(rows, t)|
    ensures Positions(rows, t)[m] !in Positions(rows, t)[..m]
  {
    PositionsAre(rows, t);
  }

  lemma StillAsItWas(target: seq<Methodology>, rows: seq<Methodology>, now: seq<Methodology>, done: seq<string>,
                     open: seq<nat>, j: nat)
    requires Partly(target, rows, now, done, open) && j < |rows| && rows[j].template !in done && j !in open
    ensures now[j] == rows[j]
  {
  }

  lemma {:induction false} GroupStep(h: Hash, draw: Draw, rows: seq<Methodology>, now: seq<Methodology>,
                                     done: seq<string>, t: string, m: nat)
    requires m < |Positions(rows, t)| && t !in done
    requires Partly(Reanchor(h, draw, rows), rows, now, done, Positions(rows, t)[..m])
    ensures var ps, r := Positions(rows, t), Reanchor(h, draw, rows);
            var next := Reanchored(h, now[ps[m]], draw(t), if m == 0 then GENESIS else r[ps[m - 1]].own);
            next == r[ps[m]] && Partly(r, rows, now[ps[m] := next], done, ps[..m + 1])
  {
    var ps, r := Positions(rows, t), Reanchor(h, draw, rows);
    PreviousInGroup(h, draw, rows, t, m);
    NotYetOpen(rows, t, m);
    StillAsItWas(r, rows, now, done, ps[..m], ps[m]);
    PartlyUpdate(r, rows, now, done, ps[..m], ps[m]);
    PrefixGrows(ps, m);
  }

  lemma {:induction false} GroupDone(h: Hash, draw: Draw, rows: seq<Methodology>, now: seq<Methodology>,
                                     done: seq<string>, t: string)
    requires Partly(Reanchor(h, draw, rows), rows, now, done, Positions(rows, t)[..|Positions(rows, t)|])
    ensures Partly(Reanchor(h, draw, rows), rows, now, done + [t], [])
  {
    PositionsAre(rows, t);
    assert Positions(rows, t)[..|Positions(rows, t)|] == Positions(rows, t);
  }

  class Tables {
    const h: Hash
    var roles: seq<Role>
    var revisions: seq<RoleRevision>
    var methodologies: seq<Methodology>

    constructor (h: Hash, p: Plane)
      ensures this.h == h && State() == p
    {
      this.h := h;
      roles, revisions, methodologies := p.roles, p.revisions, p.methodologies;
    }

    ghost function State(): Plane
      reads this
    {
      Plane(roles, revisions, methodologies)
    }

    /** Step 2: a role for each template, from its first row. */
    method ExtractRoles(draw: Draw) returns (ids: Option<map<string, string>>)
      requires Flat(methodologies)
      modifies this
      ensures methodologies == old(methodologies)
      ensures match Extract(h, draw, Extracted(old(roles), old(revisions), map[]), methodologies)
              case None => ids == None
              case Some(e) => ids == Some(e.ids) && roles == e.roles && revisions == e.revisions
    {
      ghost var start := Extracted(roles, revisions, map[]);
      var seen: map<string, string> := map[];
      var i := 0;
      while i < |methodologies|
        invariant 0 <= i <= |methodologies| && methodologies == old(methodologies)
        invariant Extract(h, draw, start, methodologies[..i]) == Some(Extracted(roles, revisions, seen))
        decreases |methodologies| - i
      {
        var row := methodologies[i];
        ExtractStep(h, draw, start, methodologies, i);
        if row.template !in seen {
          if NameTaken(roles, RoleName(row.name)) {
            ExtractStops(h, draw, start, methodologies, i + 1);
            return None;
          }
          roles := roles + [NewRole(draw, row)];
          revisions := revisions + [NewRevision(h, draw, row)];
          seen := seen[row.template := draw(row.template)];
        }
        i := i + 1;
      }
      assert methodologies[..i] == methodologies;
      return Some(seen);
    }

    /** Step 3 for one template: chain its rows forward from genesis. */
    method ReanchorGroup(draw: Draw, ghost rows: seq<Methodology>, ghost done: seq<string>, t: string, role: string,
                         group: seq<nat>)
      requires group == Positions(rows, t) && role == draw(t) && t !in done
      requires Partly(Reanchor(h, draw, rows), rows, methodologies, done, [])
      modifies this`methodologies
      ensures Partly(Reanchor(h, draw, rows), rows, methodologies, done + [t], [])
    {
      var previous := GENESIS;
      var m := 0;
      while m < |group|
        invariant 0 <= m <= |group|
        invariant Partly(Reanchor(h, draw, rows), rows, methodologies, done, group[..m])
        invariant previous == if m == 0 then GENESIS else Reanchor(h, draw, rows)[group[m - 1]].own
      {
        GroupStep(h, draw, rows, methodologies, done, t, m);
        methodologies := methodologies[group[m] := Reanchored(h, methodologies[group[m]], role, previous)];
        previous := methodologies[group[m]].own;
        m := m + 1;
      }
      GroupDone(h, draw, rows, methodologies, done, t);
    }

    /** Step 3: the groups, one after another. */
    method ReanchorAll(draw: Draw, ids: map<string, string>)
      requires IdsOf(ids, draw, methodologies)
      modifies this`methodologies
      ensures methodologies == Reanchor(h, draw, old(methodologies))
    {
      ghost var rows := methodologies;
      var order, groups := Group(methodologies);
      var k := 0;
      assert Partly(Reanchor(h, draw, rows), rows, rows, [], []);
      while k < |order|
        invariant 0 <= k <= |order|
        invariant Partly(Reanchor(h, draw, rows), rows, methodologies, order[..k], [])
      {
        var t := order[k];
        NextGroup(rows, order, groups, k);
        ReanchorGroup(draw, rows, order[..k], t, ids[t], groups[t]);
        k := k + 1;
      }
      assert order[..k] == order;
      AllGroupsDone(h, draw, rows, methodologies, order, groups);
    }

    /** The upgrade. */
    method MoveBundlesToRoles(draw: Draw) returns (ok: bool)
      requires Flat(methodologies)
      modifies this
      ensures match Upgrade(h, draw, old(State()))
              case None => !ok && State() == old(State())
              case Some(q) => ok && State() == q
    {
      var roles0, revisions0 := roles, revisions;
      ExtractExact(h, draw, roles, revisions, methodologies);
      var ids := ExtractRoles(draw);
      if ids == None {
        roles, revisions := roles0, revisions0;
        return false;
      }
      ReanchorAll(draw, ids.value);
      methodologies := DropBundles(methodologies);
      return true;
    }

    /** The downgrade. */
    method MoveBundlesBack() returns (ok: bool)
      modifies this
      ensures match Downgrade(old(State()))
              case None => !ok && State() == old(State())
              case Some(q) => ok && State() == q
    {
      var rows := methodologies;
      methodologies := DropBundles(methodologies);
      var i := 0;
      while i < |rows|
        invariant 0 <= i <= |rows| == |methodologies|
        invariant roles == old(roles) && revisions == old(revisions)
        invariant forall j | 0 <= j < i :: methodologies[j] == rows[j].(bundle := BundleOf(revisions, rows[j]))
        invariant forall j | i <= j < |rows| :: methodologies[j] == rows[j].(bundle := None)
        decreases |rows| - i
      {
        var refs := rows[i].refs;
        if refs.Some? && refs.value != [] {
          var found := FindRevision(revisions, refs.value[0].role, refs.value[0].version);
          if found.Some? {
            methodologies := methodologies[i := methodologies[i].(bundle := Some(found.value.bundle))];
          }
        }
        i := i + 1;
      }
      var kept := Without(revisions, MintedRevision);
      var refilled := seq(|methodologies|,
                          j requires 0 <= j < |methodologies| reads this => methodologies[j].(refs := None));
      assert refilled == Refilled(revisions, rows);
      if Orphans(roles, kept) || !Flat(refilled) {
        methodologies := rows;
        return false;
      }
      roles, revisions, methodologies := Without(roles, MintedRole), kept, refilled;
      return true;
    }

    /** Migration 0007, in either direction: one role renamed, its first revision hashed again. */
    method RenameRole(newName: string, description: string, oldName: string) returns (ok: bool)
      modifies this
      ensures match Rename(h, newName, description, oldName, old(State()))
              case None => !ok && State() == old(State())
              case Some(q) => ok && State() == q
    {
      var found := FindMinted(roles, oldName);
      if found == None {
        return true;
      }
      FindMintedAt(roles, oldName);
      var i := found.value;
      if !roles[i].archived && NameTakenBesides(roles, i, newName) {
        return false;
      }
      roles := roles[i := roles[i].(name := newName, description := Some(description))];
      var first := FindFirstVersion(revisions, roles[i].id);
      if first == None {
        return true;
      }
      FindFirstVersionAt(revisions, roles[i].id);
      var k := first.value;
      var previous := if revisions[k].previous == "" then GENESIS else revisions[k].previous;
      var own := BundleHash(h, newName, Some(description), revisions[k].bundle, previous);
      revisions := revisions[k := revisions[k].(own := own)];
      return true;
    }
  }
}
