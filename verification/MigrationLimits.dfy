/**
 Where the migrations fall short of what their notes say: tables, under any
 ideal hash, on which a chain does not survive, an untouched row is touched, a
 second run is no no-op, or a downgrade does not restore. The exact conditions are
 those of the modules imported here.
 */
module MigrationLimits {
  import opened JsonText
  import opened Decimals
  import opened CanonicalJson
  import opened HashChain
  import opened RolePayload
  import opened Allowlists
  import opened ChainWalk
  import A = AllowlistPin
  import P = AllowlistUnpin
  import C = RetrievalClosure
  import T = TrackedWalk
  import R = MethodologyRoles
  import U = MethodologyUpgrade
  import D = MethodologyDigests
  import L = RoleLineage

  const BODY := Body("Analyst", None, "prompt", [], [], [], 5, Decimal(false, 5, -1), "qwen2.5:7b")

  const TEMPLATE := "t"

  const ONE_ENTRY := JArr([RETRIEVAL_ENTRY])
  const ONE_NAME := JArr([JStr("retrieval")])

  /** A revision of that role after `previous`, with its digest over `tools`. */
  function Revised(h: Hash, id: string, allowlist: Json, tools: Value, previous: string): Row {
    Row(id, TEMPLATE, BODY, allowlist, previous, RoleHash(h, BODY, tools, previous))
  }

  function EmptyRow(h: Hash, id: string, previous: string): Row { Revised(h, id, JArr([]), NamedTools([]), previous) }

  function NamedRow(h: Hash, id: string, previous: string): Row {
    Revised(h, id, ONE_NAME, NamedTools(["retrieval"]), previous)
  }

  function PinnedRow(h: Hash, id: string, previous: string): Row {
    Revised(h, id, ONE_ENTRY, PinnedTools([RETRIEVAL_PIN]), previous)
  }

  lemma BodyWellFormed()
    ensures WellFormedBody(BODY) && BODY.name in C.NAMED_ROLES
  {
    WellFormedEntries([]);
  }

  lemma {:induction false} ChainOfOneTemplate(rows: seq<Row>)
    requires OneTemplate(rows, TEMPLATE)
    ensures Chain(rows, TEMPLATE) == rows
  {
    if rows != [] {
      ChainOfOneTemplate(rows[..|rows| - 1]);
      assert rows == rows[..|rows| - 1] + [rows[|rows| - 1]];
    }
  }

  lemma ValidOne(h: Hash, encode: Encoding, a: Row)
    requires a.previous == GENESIS && a.own == RevisionHash(h, encode(a), a.previous)
    ensures ValidChain(h, encode, [a])
  {
    var none: seq<Row> := [];
    ValidExtends(h, encode, none, a);
    assert none + [a] == [a];
  }

  lemma ValidTwo(h: Hash, encode: Encoding, a: Row, b: Row)
    requires a.previous == GENESIS && a.own == RevisionHash(h, encode(a), a.previous)
    requires b.previous == a.own && b.own == RevisionHash(h, encode(b), b.previous)
    ensures ValidChain(h, encode, [a, b])
  {
    ValidOne(h, encode, a);
    ValidExtends(h, encode, [a], b);
    assert [a] + [b] == [a, b];
  }

  lemma ValidThree(h: Hash, encode: Encoding, a: Row, b: Row, c: Row)
    requires a.previous == GENESIS && a.own == RevisionHash(h, encode(a), a.previous)
    requires b.previous == a.own && b.own == RevisionHash(h, encode(b), b.previous)
    requires c.previous == b.own && c.own == RevisionHash(h, encode(c), c.previous)
    ensures ValidChain(h, encode, [a, b, c])
  {
    ValidTwo(h, encode, a, b);
    ValidExtends(h, encode, [a, b], c);
    assert [a, b] + [c] == [a, b, c];
  }

  // ---------------------------------------------------------------- what 0010 and 0012 read

  lemma EntryReads()
    ensures PinsOf(Items(ONE_ENTRY)) == Some([RETRIEVAL_PIN])
  {
    RetrievalEntryPin();
    SinglePin(RETRIEVAL_ENTRY, RETRIEVAL_PIN);
  }

  lemma EmptyRowReads(h: Hash, id: string, previous: string)
    ensures var r := EmptyRow(h, id, previous);
            Empty(r) && A.Upgrade(r).Rewrite? && r.own == RevisionHash(h, A.ShapeContent(r), previous)
  {
    var r := EmptyRow(h, id, previous);
    A.NamesOnlyRow(r);
    assert A.EntryTexts(Items(r.allowlist)) == [];
  }

  lemma NamedRowReads(h: Hash, id: string, previous: string)
    ensures var r := NamedRow(h, id, previous);
            A.Named(r) && A.Upgrade(r).Rewrite? && r.own == RevisionHash(h, A.ShapeContent(r), previous)
  {
    var r := NamedRow(h, id, previous);
    A.NamesOnlyRow(r);
    assert A.EntryTexts(Items(r.allowlist)) == ["retrieval"];
  }

  lemma PinnedRowReads(h: Hash, id: string, previous: string)
    ensures var r := PinnedRow(h, id, previous);
            A.ObjectShaped(r) && A.Upgrade(r) == Keep(false) && r.own == RevisionHash(h, A.ShapeContent(r), previous)
  {
    EntryReads();
  }

  lemma AllOfBody(rows: seq<Row>)
    requires forall r | r in rows :: r.body == BODY
    ensures A.WellFormedBodies(rows) && C.WellFormedBodies(rows)
  {
    BodyWellFormed();
  }

  // ---------------------------------------------------------------- 0012

  /** 0012 breaks a chain whose first revision has no tools and whose second has the retrieval tool. */
  lemma ClosureBreaksAChain(h: Hash) returns (rows: seq<Row>)
    requires Ideal(h)
    ensures ValidChain(h, PinnedContent, Chain(rows, TEMPLATE))
    ensures !ValidChain(h, PinnedContent, Chain(Migrated(h, C.Upgrade, rows), TEMPLATE))
  {
    var a := Revised(h, "1", JArr([]), PinnedTools([]), GENESIS);
    var b := PinnedRow(h, "2", a.own);
    rows := [a, b];
    BodyWellFormed();
    EntryReads();
    ClosureReads(a, b);
    ValidTwo(h, PinnedContent, a, b);
    ChainOfOneTemplate(rows);
    AllOfBody(rows);
    assert C.Kept(rows[1]) && !C.Kept(rows[0]);
    C.UpgradeKeepsChainsValid(h, rows, TEMPLATE);
  }

  lemma ClosureReads(a: Row, b: Row)
    requires a.body == BODY && a.allowlist == JArr([]) && b.body == BODY && b.allowlist == ONE_ENTRY
    ensures C.Upgrade(a).Rewrite? && C.Upgrade(b) == Keep(true)
  {
    BodyWellFormed();
    RetrievalEntryPin();
  }

  lemma OpenedRow(a: Row)
    requires a.body == BODY && a.allowlist == ONE_ENTRY
    ensures C.Upgrade(a) == Keep(true) && C.Downgrade(a) == Rewrite(JArr([]), PinnedTools([]))
  {
    BodyWellFormed();
    RetrievalEntryPin();
    assert [RETRIEVAL_ENTRY][1..] == [];
    assert C.Without([RETRIEVAL_ENTRY][1..]) == Some([]);
  }

  lemma OneRowRuns(h: Hash, policy: Policy, row: Row)
    requires policy(row) != Abort
    ensures Migrated(h, policy, [row]) == Step(h, policy, Walked([], map[]), row).rows
  {
    OneRow(h, policy, row);
  }

  /** 0012 downgraded after being upgraded takes the retrieval tool from a role that had it all along. */
  lemma ClosureDowngradeTakesTooMuch(h: Hash) returns (rows: seq<Row>)
    ensures ValidChain(h, PinnedContent, Chain(rows, TEMPLATE))
    ensures Migrated(h, C.Downgrade, Migrated(h, C.Upgrade, rows)) != rows
  {
    var a := PinnedRow(h, "1", GENESIS);
    rows := [a];
    EntryReads();
    ValidOne(h, PinnedContent, a);
    ChainOfOneTemplate(rows);
    OpenedRow(a);
    OneRowRuns(h, C.Upgrade, a);
    OneRowRuns(h, C.Downgrade, a);
    var after := Migrated(h, C.Downgrade, rows);
    assert after[0].allowlist == JArr([]);
  }

  lemma OneRow(h: Hash, policy: Policy, row: Row)
    ensures Walk(h, policy, [row]) == Step(h, policy, Walked([], map[]), row)
  {
    assert [row][..0] == [];
  }

  /** 0012 downgraded breaks a chain whose first revision loses a tool and whose second has none. */
  lemma ReopeningBreaksAChain(h: Hash) returns (rows: seq<Row>)
    requires Ideal(h)
    ensures ValidChain(h, PinnedContent, Chain(rows, TEMPLATE))
    ensures !ValidChain(h, PinnedContent, Chain(Migrated(h, C.Downgrade, rows), TEMPLATE))
  {
    var a := PinnedRow(h, "1", GENESIS);
    var b := Revised(h, "2", JArr([]), PinnedTools([]), a.own);
    rows := [a, b];
    EntryReads();
    OpenedRow(a);
    assert C.Downgrade(b) == Keep(true) by {
      BodyWellFormed();
    }
    ValidTwo(h, PinnedContent, a, b);
    ChainOfOneTemplate(rows);
    AllOfBody(rows);
    NamedChain(rows);
    assert T.KeptBy(C.Downgrade, rows[1]) && !T.KeptBy(C.Downgrade, rows[0]);
    C.DowngradeKeepsChainsValid(h, rows, TEMPLATE);
  }

  lemma NamedChain(rows: seq<Row>)
    requires forall r | r in rows :: r.body == BODY
    ensures C.Named(rows)
  {
    BodyWellFormed();
  }

  // ---------------------------------------------------------------- 0010

  lemma NamesThenPinsFail(rows: seq<Row>)
    requires |rows| == 2 && A.Named(rows[0]) && A.ObjectShaped(rows[1])
    ensures !A.Pinnable(rows)
  {
  }

  /** 0010 breaks a chain whose first revision names a tool and whose second is pinned already. */
  lemma PinningBreaksAChain(h: Hash) returns (rows: seq<Row>)
    requires Ideal(h)
    ensures ValidChain(h, A.ShapeContent, Chain(rows, TEMPLATE))
    ensures !ValidChain(h, PinnedContent, Chain(Migrated(h, A.Upgrade, rows), TEMPLATE))
  {
    var a := NamedRow(h, "1", GENESIS);
    var b := PinnedRow(h, "2", a.own);
    rows := [a, b];
    NamedRowReads(h, "1", GENESIS);
    PinnedRowReads(h, "2", a.own);
    ValidTwo(h, A.ShapeContent, a, b);
    ChainOfOneTemplate(rows);
    AllOfBody(rows);
    NamesThenPinsFail(rows);
    A.UpgradePinsChains(h, rows, TEMPLATE);
  }

  /** Three revisions of the role, each linked to the one before it, are a valid chain. */
  lemma ChainOfThree(h: Hash, a: Row, b: Row, c: Row)
    requires a.template == b.template == c.template == TEMPLATE && a.body == b.body == c.body == BODY
    requires a.previous == GENESIS && a.own == RevisionHash(h, A.ShapeContent(a), a.previous)
    requires b.previous == a.own && b.own == RevisionHash(h, A.ShapeContent(b), b.previous)
    requires c.previous == b.own && c.own == RevisionHash(h, A.ShapeContent(c), c.previous)
    ensures Chain([a, b, c], TEMPLATE) == [a, b, c] && ValidChain(h, A.ShapeContent, [a, b, c])
    ensures A.WellFormedBodies([a, b, c])
  {
    ValidThree(h, A.ShapeContent, a, b, c);
    ChainOfOneTemplate([a, b, c]);
    AllOfBody([a, b, c]);
  }

  /** 0010 downgraded breaks a chain whose first revision is pinned and whose second names its tool already. */
  lemma UnpinningBreaksAChain(h: Hash, tools: A.Tools) returns (rows: seq<Row>)
    requires Ideal(h)
    ensures ValidChain(h, A.ShapeContent, Chain(rows, TEMPLATE))
    ensures !ValidChain(h, P.NamedContent, Chain(Migrated(h, A.DowngradeWith(tools), rows), TEMPLATE))
  {
    var a := PinnedRow(h, "1", GENESIS);
    var b := NamedRow(h, "2", a.own);
    rows := [a, b];
    PinnedRowReads(h, "1", GENESIS);
    NamedRowReads(h, "2", a.own);
    ValidTwo(h, A.ShapeContent, a, b);
    ChainOfOneTemplate(rows);
    AllOfBody(rows);
    PinsThenNamesFail(rows);
    P.DowngradeNamesChains(h, tools, rows, TEMPLATE);
  }

  lemma {:induction false} PinsThenNamesFail(rows: seq<Row>)
    requires |rows| == 2 && A.ObjectShaped(rows[0]) && A.NameShaped(rows[1])
    ensures !P.Nameable(rows) && !P.NoObjects(rows)
  {
  }

  /**
   0010 rewrites a row without tools: in a valid chain without a single tool name,
   the empty row after a pinned one is anchored to the empty row before it.
   */
  lemma {:induction false} EmptyRowChanges(h: Hash) returns (rows: seq<Row>)
    requires Ideal(h)
    ensures |rows| == 3 && ValidChain(h, A.ShapeContent, Chain(rows, TEMPLATE))
    ensures Empty(rows[0]) && A.ObjectShaped(rows[1]) && Empty(rows[2]) && rows[2].allowlist == JArr([])
    ensures var after := Migrated(h, A.Upgrade, rows);
            |after| == 3 && after[0] == rows[0] && after[1] == rows[1] &&
            after[2].previous == rows[0].own != rows[2].previous && after[2].own != rows[2].own
  {
    var a := EmptyRow(h, "1", GENESIS);
    var b := PinnedRow(h, "2", a.own);
    var c := EmptyRow(h, "3", b.own);
    rows := [a, b, c];
    EmptyRowReads(h, "1", GENESIS);
    PinnedRowReads(h, "2", a.own);
    EmptyRowReads(h, "3", b.own);
    ChainOfThree(h, a, b, c);
    DigestsApart(h, a, b);
    EmptyRowMoves(h, a, b, c);
  }

  lemma EmptyRowMoves(h: Hash, a: Row, b: Row, c: Row)
    requires Ideal(h) && Empty(a) && Empty(c) && A.Upgrade(b) == Keep(false)
    requires A.Upgrade(a).Rewrite? && A.Upgrade(c).Rewrite? && a.template == b.template == c.template == TEMPLATE
    requires a.body == c.body == BODY && a.allowlist == c.allowlist == JArr([])
    requires a.own == RevisionHash(h, A.ShapeContent(a), GENESIS) && a.previous == GENESIS
    requires c.own == RevisionHash(h, A.ShapeContent(c), c.previous) && a.own != c.previous
    ensures var after := Migrated(h, A.Upgrade, [a, b, c]);
            |after| == 3 && after[0] == a && after[1] == b && after[2].previous == a.own && after[2].own != c.own
  {
    BodyWellFormed();
    A.PinnedRowDigest(h, a, GENESIS);
    A.PinnedRowDigest(h, c, a.own);
    WalkOfThree(h, a, b, c);
  }

  lemma DigestsApart(h: Hash, a: Row, b: Row)
    requires Ideal(h) && a == EmptyRow(h, "1", GENESIS) && b == PinnedRow(h, "2", a.own)
    ensures a.own != b.own
  {
    BodyWellFormed();
    SortedTextsMeaning([], []);
    PinnedToolsMeaning([RETRIEVAL_PIN], [RETRIEVAL_PIN]);
    NamesAreNotPins([], [RETRIEVAL_PIN]);
    RoleHashExact(h, BODY, NamedTools([]), GENESIS, BODY, PinnedTools([RETRIEVAL_PIN]), a.own);
  }

  lemma KeptNext(h: Hash, policy: Policy, rows: seq<Row>, row: Row)
    requires policy(row) == Keep(false)
    ensures var w := Walk(h, policy, rows);
            Walk(h, policy, rows + [row]) == Walked(w.rows + [row], w.latest)
  {
    WalkOfAppend(h, policy, rows, row);
  }

  lemma RewrittenNext(h: Hash, rows: seq<Row>, row: Row)
    requires A.Upgrade(row).Rewrite?
    ensures var w := Walk(h, A.Upgrade, rows);
            var r := A.PinnedRow(h, row, Anchor(row, w.latest));
            Walk(h, A.Upgrade, rows + [row]) == Walked(w.rows + [r], w.latest[row.template := r.own])
  {
    WalkOfAppend(h, A.Upgrade, rows, row);
  }

  lemma WalkOfThree(h: Hash, a: Row, b: Row, c: Row)
    requires A.Upgrade(a).Rewrite? && A.Upgrade(b) == Keep(false) && A.Upgrade(c).Rewrite?
    requires a.template == b.template == c.template == TEMPLATE && Empty(a) && Empty(c)
    ensures var x := A.PinnedRow(h, a, a.previous);
            Migrated(h, A.Upgrade, [a, b, c]) == [x, b, A.PinnedRow(h, c, x.own)]
    ensures A.PinnedRow(h, a, a.previous).allowlist == JArr([])
  {
    var x := A.PinnedRow(h, a, a.previous);
    assert A.Entries(a) == [];
    RewrittenNext(h, [], a);
    KeptNext(h, A.Upgrade, [a], b);
    RewrittenNext(h, [a, b], c);
    assert [] + [a] == [a] && [a] + [b] == [a, b] && [a, b] + [c] == [a, b, c];
    assert [] + [x] + [b] + [A.PinnedRow(h, c, x.own)] == [x, b, A.PinnedRow(h, c, x.own)];
  }

  lemma {:induction false} NotSteady(rows: seq<Row>)
    requires |rows| == 3 && Empty(rows[0]) && A.Named(rows[1]) && Empty(rows[2])
    ensures !A.Steady(rows)
  {
  }

  lemma {:induction false} SecondRunDiffers(h: Hash, rows: seq<Row>)
    requires Ideal(h) && A.WellFormedBodies(rows) && !Aborts(A.Upgrade, rows) && Chain(rows, TEMPLATE) == rows
    requires |rows| == 3 && Empty(rows[0]) && A.Named(rows[1]) && Empty(rows[2])
    ensures Migrated(h, A.Upgrade, Migrated(h, A.Upgrade, rows)) != Migrated(h, A.Upgrade, rows)
  {
    NotSteady(rows);
    A.RerunChangesNothing(h, rows);
  }

  /** Running 0010 again changes a table that is one valid chain, a named row between two empty ones. */
  lemma {:induction false} RerunChangesATable(h: Hash) returns (rows: seq<Row>)
    requires Ideal(h)
    ensures ValidChain(h, A.ShapeContent, Chain(rows, TEMPLATE))
    ensures var once := Migrated(h, A.Upgrade, rows);
            Migrated(h, A.Upgrade, once) != once
  {
    var a := EmptyRow(h, "1", GENESIS);
    var b := NamedRow(h, "2", a.own);
    var c := EmptyRow(h, "3", b.own);
    rows := [a, b, c];
    EmptyRowReads(h, "1", GENESIS);
    NamedRowReads(h, "2", a.own);
    EmptyRowReads(h, "3", b.own);
    ChainOfThree(h, a, b, c);
    SecondRunDiffers(h, rows);
  }

  // ---------------------------------------------------------------- 0006

  const FIRST_BUNDLE := R.Bundle("one", [], [], [], [], 5, BODY.minScore, "m")
  const SECOND_BUNDLE := R.Bundle("one", [], [], [], [], 6, BODY.minScore, "m")

  const FIRST := R.Methodology("1", TEMPLATE, 1, "LVT", None, Some(FIRST_BUNDLE), None, GENESIS, "")
  const SECOND := R.Methodology("2", TEMPLATE, 2, "LVT", None, Some(SECOND_BUNDLE), None, "", "")

  lemma FirstOfTwo()
    ensures R.Firsts([FIRST, SECOND]) == [FIRST]
  {
    assert [FIRST][..0] == [] && [FIRST, SECOND][..1] == [FIRST];
    assert R.FirstOf([FIRST], TEMPLATE) == Some(FIRST);
    assert R.Firsts([]) + [FIRST] == [FIRST];
  }

  lemma BundlesDiffer()
    ensures !U.SharedBundles([FIRST, SECOND])
  {
    var rows := [FIRST, SECOND];
    assert rows[0].template == rows[1].template && rows[0].bundle != rows[1].bundle;
  }

  /** 0006 downgraded after being upgraded gives a second revision its predecessor's bundle. */
  lemma DowngradeLosesABundle(h: Hash, draw: R.Draw) returns (p: R.Plane, q: R.Plane, r: R.Plane)
    requires forall t, u :: draw(t) == draw(u) ==> t == u
    ensures R.Flat(p.methodologies) && R.Upgrade(h, draw, p) == Some(q) && R.Downgrade(q) == Some(r)
    ensures !U.SameBundles(r.methodologies, p.methodologies)
  {
    p := R.Plane([], [], [FIRST, SECOND]);
    FirstOfTwo();
    U.UpgradeExact(h, draw, p);
    q := R.Upgrade(h, draw, p).value;
    U.DowngradeGoesThrough(h, draw, p, q);
    r := R.Downgrade(q).value;
    BundlesDiffer();
    U.DowngradeRestoresBundles(h, draw, p, q, r);
  }

  /** A control plane with one methodology revision, carrying this digest. */
  function Single(own: string): R.Plane { R.Plane([], [], [FIRST.(own := own)]) }

  lemma SingleGoesBoth(h: Hash, draw: R.Draw, own: string) returns (q: R.Plane, r: R.Plane)
    requires forall t, u :: draw(t) == draw(u) ==> t == u
    ensures R.Flat(Single(own).methodologies) && U.DrawsNew(draw, Single(own))
    ensures R.Upgrade(h, draw, Single(own)) == Some(q) && R.Downgrade(q) == Some(r)
  {
    var p := Single(own);
    var row := FIRST.(own := own);
    assert [row][..0] == [];
    assert R.Firsts([]) + [row] == [row];
    U.UpgradeExact(h, draw, p);
    q := R.Upgrade(h, draw, p).value;
    U.DowngradeGoesThrough(h, draw, p, q);
    r := R.Downgrade(q).value;
  }

  /** 0006 downgraded after being upgraded leaves a valid chain of bundles invalid. */
  lemma DowngradeLosesADigest(h: Hash, draw: R.Draw) returns (p: R.Plane, q: R.Plane, r: R.Plane)
    requires Ideal(h) && forall t, u :: draw(t) == draw(u) ==> t == u
    ensures R.Flat(p.methodologies) && R.Upgrade(h, draw, p) == Some(q) && R.Downgrade(q) == Some(r)
    ensures R.Flat(r.methodologies) && |p.methodologies| == |r.methodologies| == 1
    ensures Linked(h, D.FlatChain(p.methodologies, TEMPLATE)) && !Linked(h, D.FlatChain(r.methodologies, TEMPLATE))
    ensures r.methodologies[0].own != p.methodologies[0].own
  {
    var own := R.BundleHash(h, "LVT", None, FIRST_BUNDLE, GENESIS);
    p := Single(own);
    q, r := SingleGoesBoth(h, draw, own);
    WellFormedEntries([]);
    SingleChain(h, p.methodologies);
    R.FirstOfAt(p.methodologies, TEMPLATE);
    assert p.methodologies[0].template == TEMPLATE;
    D.NoDigestComesBack(h, draw, p, q, r, 0);
    D.DowngradeValidatesNoChain(h, draw, p, q, r, TEMPLATE);
  }

  lemma {:induction false} SingleChain(h: Hash, rows: seq<R.Methodology>)
    requires R.Flat(rows) && |rows| == 1 && rows[0].template == TEMPLATE && rows[0].previous == GENESIS
    requires Sound(h, D.FlatRevision(rows[0]))
    ensures Linked(h, D.FlatChain(rows, TEMPLATE))
  {
    assert rows[..0] == [];
    assert D.FlatChain(rows, TEMPLATE) == [D.FlatRevision(rows[0])];
  }

  /** It restores the digest of a revision that carried its re-anchored digest before the upgrade. */
  lemma DigestMayComeBack(h: Hash, draw: R.Draw) returns (p: R.Plane, q: R.Plane, r: R.Plane)
    requires forall t, u :: draw(t) == draw(u) ==> t == u
    ensures R.Flat(p.methodologies) && R.Upgrade(h, draw, p) == Some(q) && R.Downgrade(q) == Some(r)
    ensures p.methodologies != [] && D.SameDigests(r.methodologies, p.methodologies)
  {
    var anchored := R.Reanchored(h, FIRST, draw(TEMPLATE), GENESIS);
    p := Single(anchored.own);
    q, r := SingleGoesBoth(h, draw, anchored.own);
    assert p.methodologies[..0] == [];
    assert R.Reanchor(h, draw, p.methodologies) == [R.Reanchored(h, p.methodologies[0], draw(TEMPLATE), GENESIS)];
    D.DowngradeRestoresDigests(h, draw, p, q, r);
  }

  // ---------------------------------------------------------------- tenant 0009

  /** An agent whose methodology revision is gone is left with a methodology and no role. */
  lemma AgentLeftDangling(loads: Loads, h: Hash, draw: R.Draw) returns (p: R.Plane, q: R.Plane, agent: L.Agent)
    requires forall t, u :: draw(t) == draw(u) ==> t == u
    ensures R.Flat(p.methodologies) && R.Upgrade(h, draw, p) == Some(q)
    ensures agent.role == None && L.Dangling(L.Filled(loads, L.Answers(q), agent))
  {
    p := Single("");
    var r;
    q, r := SingleGoesBoth(h, draw, "");
    agent := L.Agent("1", Some(L.Lineage(TEMPLATE, 2)), None, None);
    assert R.FindMethodology(p.methodologies[1..], TEMPLATE, 2) == None;
    L.DanglingExactly(loads, h, draw, p, q, agent);
  }
}
