/**
 Control-plane migration 0012: give every named role without tools the
 retrieval tool, and re-anchor its chain. Rows that already carry tools are kept
 as they are, with their digest recorded as the one to chain from.
 */
module RetrievalClosure {
  import opened JsonText
  import opened HashChain
  import opened RolePayload
  import opened Allowlists
  import opened ChainWalk
  import opened TrackedWalk

  const NAMED_ROLES: set<string> :=
    {"LVTGuide", "ProblemFramer", "Disaggregator", "Prioritiser", "Planner", "Analyst", "Synthesiser", "Communicator"}

  /** `any(...)` over the entries: it stops at the first hit and raises at an entry that is no dict. */
  function HasRetrieval(items: seq<Json>): Option<bool> {
    if items == [] then Some(false)
    else if !items[0].JObj? then None
    else if IsRetrieval(items[0]) then Some(true)
    else HasRetrieval(items[1..])
  }

  function Upgrade(row: Row): Action {
    var items := Items(row.allowlist);
    if row.body.name !in NAMED_ROLES then Keep(false)
    else match HasRetrieval(items)
      case None => Abort
      case Some(true) => Keep(true)
      case Some(false) =>
        if items != [] then Keep(true)
        else Rewrite(JArr([RETRIEVAL_ENTRY]), PinnedTools([RETRIEVAL_PIN]))
  }

  /** The entries other than the retrieval one; none if some entry is no dict. */
  function Without(items: seq<Json>): Option<seq<Json>> {
    if items == [] then Some([])
    else if !items[0].JObj? then None
    else match Without(items[1..])
      case None => None
      case Some(rest) => Some(if IsRetrieval(items[0]) then rest else [items[0]] + rest)
  }

  function Downgrade(row: Row): Action {
    var items := Items(row.allowlist);
    if row.body.name !in NAMED_ROLES then Keep(false)
    else match HasRetrieval(items)
      case None => Abort
      case Some(false) => Keep(true)
      case Some(true) =>
        match Without(items)
        case None => Abort
        case Some(rest) =>
          match PinsOf(rest)
          case None => Abort
          case Some(pins) => Rewrite(JArr(rest), PinnedTools(pins))
  }

  /** A row of a named role that the migration does not raise on. */
  ghost predicate Readable(row: Row) {
    && row.body.name in NAMED_ROLES
    && WellFormedBody(row.body)
    && Upgrade(row) != Abort
  }

  /** A row the application could have written for a named role: its entries are pins. */
  ghost predicate Written(row: Row) {
    && row.body.name in NAMED_ROLES
    && WellFormedBody(row.body)
    && PinsOf(Items(row.allowlist)).Some?
  }

  predicate Kept(row: Row) { KeptBy(Upgrade, row) }

  ghost predicate ReadableChain(chain: seq<Row>, t: string) {
    OneTemplate(chain, t) && forall i | 0 <= i < |chain| :: Readable(chain[i])
  }

  // ---------------------------------------------------------------- one row

  lemma {:induction false} PinsHaveRetrieval(items: seq<Json>)
    requires forall e | e in items :: PinOf(e).Some?
    ensures HasRetrieval(items).Some?
    ensures HasRetrieval(items) == Some(true) <==> exists e :: e in items && e.JObj? && IsRetrieval(e)
  {
    if items != [] {
      assert items == [items[0]] + items[1..];
      assert PinOf(items[0]).Some?;
      PinsHaveRetrieval(items[1..]);
    }
  }

  lemma ReadableRow(row: Row)
    requires Readable(row)
    ensures Upgrade(row) == Keep(true) ||
            Upgrade(row) == Rewrite(JArr([RETRIEVAL_ENTRY]), PinnedTools([RETRIEVAL_PIN]))
    ensures Upgrade(row).Rewrite? <==> Items(row.allowlist) == []
  {
  }

  lemma WrittenRow(row: Row)
    requires Written(row)
    ensures Readable(row) && Downgrade(row) != Abort
  {
    PinsOfObjects(Items(row.allowlist));
    PinsHaveRetrieval(Items(row.allowlist));
    WithoutOfPins(Items(row.allowlist));
  }

  /** Taking the retrieval entry out of a list of pins leaves a list of pins. */
  lemma {:induction false} WithoutOfPins(items: seq<Json>)
    requires forall e | e in items :: PinOf(e).Some?
    ensures Without(items).Some? && (forall e | e in Without(items).value :: PinOf(e).Some?)
    ensures PinsOf(Without(items).value).Some?
  {
    if items != [] {
      assert items == [items[0]] + items[1..];
      assert PinOf(items[0]).Some?;
      WithoutOfPins(items[1..]);
    }
    PinsOfObjects(Without(items).value);
  }

  /** A rewritten row is sound under its new allowlist and has lost its old digest. */
  lemma {:induction false} RewrittenRow(h: Hash, row: Row, previous: string)
    requires Ideal(h) && Readable(row) && Upgrade(row).Rewrite?
    ensures Resealed(h, row, Upgrade(row).allowlist, Upgrade(row).tools, previous)
  {
    ReadableRow(row);
    RetrievalEntryPin();
    SinglePin(RETRIEVAL_ENTRY, RETRIEVAL_PIN);
    var none: seq<Pin> := [];
    PinnedHashExact(h, row.body, [RETRIEVAL_PIN], previous, row.body, none, row.previous);
    assert multiset([RETRIEVAL_PIN])[RETRIEVAL_PIN] == 1 && multiset(none)[RETRIEVAL_PIN] == 0;
  }

  lemma {:induction false} UpgradeTracks(h: Hash, row: Row)
    requires Ideal(h) && Readable(row)
    ensures Tracked(h, Upgrade, row)
  {
    ReadableRow(row);
    if Upgrade(row).Rewrite? {
      forall previous ensures Resealed(h, row, Upgrade(row).allowlist, Upgrade(row).tools, previous) {
        RewrittenRow(h, row, previous);
      }
    }
  }

  // ---------------------------------------------------------------- one chain

  ghost predicate Named(chain: seq<Row>) { forall r | r in chain :: r.body.name in NAMED_ROLES }

  ghost predicate Unnamed(chain: seq<Row>) { forall r | r in chain :: r.body.name !in NAMED_ROLES }

  ghost predicate WellFormedBodies(rows: seq<Row>) { forall r | r in rows :: WellFormedBody(r.body) }

  /** A run that goes through has read every row of a named role. */
  lemma RunReads(rows: seq<Row>, t: string)
    requires !Aborts(Upgrade, rows) && WellFormedBodies(Chain(rows, t)) && Named(Chain(rows, t))
    ensures ReadableChain(Chain(rows, t), t)
  {
    var chain := Chain(rows, t);
    ChainIsOfTemplate(rows, t);
    forall i | 0 <= i < |chain| ensures Readable(chain[i]) {
      assert chain[i] in chain;
      var k :| 0 <= k < |rows| && rows[k] == chain[i];
    }
  }

  lemma UnnamedKept(policy: Policy, chain: seq<Row>)
    requires Unnamed(chain) && forall r | r in chain && r.body.name !in NAMED_ROLES :: KeptBy(policy, r)
    ensures AllKept(policy, chain) && KeptRowsLead(policy, chain)
  {
    forall i | 0 <= i < |chain| ensures KeptBy(policy, chain[i]) {
      assert chain[i] in chain;
    }
  }

  /**
   However many templates are interleaved in the table, a run leaves a valid chain
   valid exactly when the chain's kept rows form a prefix of it, or when some row
   makes the run raise. A chain belongs to one role, which is named or is not.
   */
  lemma {:induction false} UpgradeKeepsChainsValid(h: Hash, rows: seq<Row>, t: string)
    requires Ideal(h) && WellFormedBodies(Chain(rows, t)) && ValidChain(h, PinnedContent, Chain(rows, t))
    requires Named(Chain(rows, t)) || Unnamed(Chain(rows, t))
    ensures ValidChain(h, PinnedContent, Chain(Migrated(h, Upgrade, rows), t)) <==>
            Aborts(Upgrade, rows) || KeptRowsLead(Upgrade, Chain(rows, t))
  {
    if !Aborts(Upgrade, rows) {
      var chain := Chain(rows, t);
      WalkByTemplate(h, Upgrade, rows, t);
      if Named(chain) {
        RunReads(rows, t);
        forall i | 0 <= i < |chain| ensures Tracked(h, Upgrade, chain[i]) {
          UpgradeTracks(h, chain[i]);
        }
        ValidWhenKeptLead(h, Upgrade, chain, t);
      } else {
        UnnamedKept(Upgrade, chain);
        UnnamedUntouched(h, chain);
      }
    }
  }

  // ---------------------------------------------------------------- what a run leaves in the columns

  /** No role the migration names is left without tools; a role with tools keeps its column and its digest. */
  lemma {:induction false} NoNamedRoleWithoutTools(h: Hash, rows: seq<Row>, i: nat)
    requires !Aborts(Upgrade, rows) && i < |rows|
    ensures |Migrated(h, Upgrade, rows)| == |rows|
    ensures var r := Migrated(h, Upgrade, rows)[i];
            && r.body == rows[i].body && r.template == rows[i].template
            && (r.body.name in NAMED_ROLES ==> Items(r.allowlist) != [])
            && (r.body.name !in NAMED_ROLES || Items(rows[i].allowlist) != [] ==> r == rows[i])
            && (r != rows[i] ==> PinsOf(Items(r.allowlist)) == Some([Pin(RETRIEVAL_TOOL, RETRIEVAL_REVISION)]))
  {
    WalkAt(h, Upgrade, rows, i);
    WalkShape(h, Upgrade, rows);
    RetrievalEntryPin();
    SinglePin(RETRIEVAL_ENTRY, RETRIEVAL_PIN);
  }

  lemma {:induction false} WithoutCounts(items: seq<Json>, e: Json)
    requires Without(items).Some?
    ensures e in items ==> e.JObj?
    ensures multiset(Without(items).value)[e] == if e.JObj? && IsRetrieval(e) then 0 else multiset(items)[e]
  {
    if items != [] {
      WithoutCounts(items[1..], e);
      assert items == [items[0]] + items[1..];
    }
  }

  /** `a` is what is left of `b` when some entries are taken out. */
  ghost predicate Within(a: seq<Json>, b: seq<Json>) {
    if a == [] then true
    else b != [] && ((a[0] == b[0] && Within(a[1..], b[1..])) || Within(a, b[1..]))
  }

  lemma {:induction false} WithinItself(a: seq<Json>)
    ensures Within(a, a)
  {
    if a != [] {
      WithinItself(a[1..]);
    }
  }

  lemma {:induction false} WithoutKeepsOrder(items: seq<Json>)
    requires Without(items).Some?
    ensures Within(Without(items).value, items)
  {
    if items != [] {
      var rest := Without(items[1..]).value;
      WithoutKeepsOrder(items[1..]);
      assert ([items[0]] + rest)[1..] == rest;
    }
  }

  /** The column the downgrade leaves in a row. */
  function Left(row: Row): Json {
    if Downgrade(row).Rewrite? then Downgrade(row).allowlist else row.allowlist
  }

  lemma {:induction false} LeftCounts(row: Row, e: Json)
    requires row.body.name in NAMED_ROLES && Downgrade(row) != Abort
    ensures multiset(Items(Left(row)))[e] ==
            if e.JObj? && IsRetrieval(e) then 0 else multiset(Items(row.allowlist))[e]
    ensures Within(Items(Left(row)), Items(row.allowlist))
  {
    var items := Items(row.allowlist);
    if HasRetrieval(items) == Some(true) {
      WithoutCounts(items, e);
      WithoutKeepsOrder(items);
    } else {
      HasNoRetrieval(items, e);
      WithinItself(items);
    }
  }

  /**
   The downgrade takes the retrieval entry out of every named role's column, and no
   other entry, and touches no other role.
   */
  lemma {:induction false} OnlyRetrievalGoes(h: Hash, rows: seq<Row>, i: nat, e: Json)
    requires !Aborts(Downgrade, rows) && i < |rows|
    ensures |Migrated(h, Downgrade, rows)| == |rows|
    ensures var r := Migrated(h, Downgrade, rows)[i];
            && r.body == rows[i].body && r.template == rows[i].template
            && (r.body.name !in NAMED_ROLES ==> r == rows[i])
            && (r.body.name in NAMED_ROLES ==>
                  Within(Items(r.allowlist), Items(rows[i].allowlist)) &&
                  multiset(Items(r.allowlist))[e] ==
                  if e.JObj? && IsRetrieval(e) then 0 else multiset(Items(rows[i].allowlist))[e])
  {
    WalkAt(h, Downgrade, rows, i);
    WalkShape(h, Downgrade, rows);
    assert !Downgrade(rows[i]).Abort?;
    if rows[i].body.name in NAMED_ROLES {
      LeftCounts(rows[i], e);
    }
  }

  lemma {:induction false} HasNoRetrieval(items: seq<Json>, e: Json)
    requires HasRetrieval(items) == Some(false)
    ensures e in items ==> e.JObj? && !IsRetrieval(e)
  {
    if items != [] {
      HasNoRetrieval(items[1..], e);
      assert items == [items[0]] + items[1..];
    }
  }

  // ---------------------------------------------------------------- the downgrade and the chains

  /** A row of a named role the downgrade does not raise on. */
  ghost predicate Reopenable(row: Row) {
    row.body.name in NAMED_ROLES && WellFormedBody(row.body) && Downgrade(row) != Abort
  }

  lemma {:induction false} WithoutMembers(items: seq<Json>, e: Json)
    requires Without(items).Some? && e in items
    ensures e.JObj? && (e in Without(items).value || IsRetrieval(e))
  {
    WithoutCounts(items, e);
    assert multiset(items)[e] > 0;
  }

  /** If what is left are pins, so was the whole, and it was longer. */
  lemma {:induction false} PinsBeforehand(items: seq<Json>)
    requires Without(items).Some? && PinsOf(Without(items).value).Some?
    ensures PinsOf(items).Some? && |Without(items).value| <= |items|
    ensures HasRetrieval(items) == Some(true) ==> |Without(items).value| < |items|
  {
    PinsOfObjects(Without(items).value);
    PinsOfObjects(items);
    forall e | e in items ensures PinOf(e).Some? {
      WithoutMembers(items, e);
    }
    WithoutShorter(items);
  }

  lemma {:induction false} WithoutShorter(items: seq<Json>)
    requires Without(items).Some?
    ensures |Without(items).value| <= |items|
    ensures HasRetrieval(items) == Some(true) ==> |Without(items).value| < |items|
  {
    if items != [] {
      WithoutShorter(items[1..]);
    }
  }

  lemma {:induction false} ReopenedRow(h: Hash, row: Row, previous: string)
    requires Ideal(h) && Reopenable(row) && Downgrade(row).Rewrite?
    ensures Resealed(h, row, Downgrade(row).allowlist, Downgrade(row).tools, previous)
  {
    var items := Items(row.allowlist);
    var rest := Without(items).value;
    var pins := PinsOf(rest).value;
    PinsBeforehand(items);
    var all := PinsOf(items).value;
    PinnedHashExact(h, row.body, pins, previous, row.body, all, row.previous);
    assert |multiset(pins)| == |rest| < |items| == |multiset(all)|;
  }

  lemma {:induction false} DowngradeTracks(h: Hash, row: Row)
    requires Ideal(h) && Reopenable(row)
    ensures Tracked(h, Downgrade, row)
  {
    if Downgrade(row).Rewrite? {
      forall previous ensures Resealed(h, row, Downgrade(row).allowlist, Downgrade(row).tools, previous) {
        ReopenedRow(h, row, previous);
      }
    }
  }

  lemma {:induction false} RunReopens(rows: seq<Row>, t: string, i: nat)
    requires !Aborts(Downgrade, rows) && WellFormedBodies(Chain(rows, t)) && Named(Chain(rows, t)) &&
             i < |Chain(rows, t)|
    ensures Reopenable(Chain(rows, t)[i])
  {
    var chain := Chain(rows, t);
    ChainIsOfTemplate(rows, t);
    assert chain[i] in chain;
    var k :| 0 <= k < |rows| && rows[k] == chain[i];
  }

  /**
   The downgrade hashes what is left in each row: it leaves a valid chain valid
   exactly when the rows that keep their tools come first, or when some row makes
   the run raise.
   */
  lemma {:induction false} DowngradeKeepsChainsValid(h: Hash, rows: seq<Row>, t: string)
    requires Ideal(h) && WellFormedBodies(Chain(rows, t)) && ValidChain(h, PinnedContent, Chain(rows, t))
    requires Named(Chain(rows, t)) || Unnamed(Chain(rows, t))
    ensures ValidChain(h, PinnedContent, Chain(Migrated(h, Downgrade, rows), t)) <==>
            Aborts(Downgrade, rows) || KeptRowsLead(Downgrade, Chain(rows, t))
  {
    if !Aborts(Downgrade, rows) {
      var chain := Chain(rows, t);
      WalkByTemplate(h, Downgrade, rows, t);
      if Named(chain) {
        ChainIsOfTemplate(rows, t);
        forall i | 0 <= i < |chain| ensures Tracked(h, Downgrade, chain[i]) {
          RunReopens(rows, t, i);
          DowngradeTracks(h, chain[i]);
        }
        ValidWhenKeptLead(h, Downgrade, chain, t);
      } else {
        UnnamedKept(Downgrade, chain);
        UnnamedUntouched(h, chain);
      }
    }
  }

  // ---------------------------------------------------------------- running it again

  lemma {:induction false} WalkWithoutRewrites(h: Hash, policy: Policy, rows: seq<Row>)
    requires forall i | 0 <= i < |rows| :: !policy(rows[i]).Rewrite?
    ensures Walk(h, policy, rows).rows == rows
  {
    if rows != [] {
      WalkWithoutRewrites(h, policy, rows[..|rows| - 1]);
      assert rows == rows[..|rows| - 1] + [rows[|rows| - 1]];
    }
  }

  lemma {:induction false} UpgradedRowsAreKept(h: Hash, rows: seq<Row>)
    ensures forall r | r in Walk(h, Upgrade, rows).rows :: !Upgrade(r).Rewrite?
  {
    if rows != [] {
      UpgradedRowsAreKept(h, rows[..|rows| - 1]);
      RetrievalEntryPin();
    }
  }

  lemma RowIsReadAgain(h: Hash, w: Walked, row: Row)
    requires Upgrade(row) != Abort
    ensures var next := Step(h, Upgrade, w, row).rows;
            |next| == |w.rows| + 1 && Upgrade(next[|w.rows|]) != Abort
  {
    RetrievalEntryPin();
  }

  /** What a run that goes through leaves, a second one reads as well. */
  lemma OnceIsReadAgain(h: Hash, rows: seq<Row>)
    requires !Aborts(Upgrade, rows)
    ensures !Aborts(Upgrade, Walk(h, Upgrade, rows).rows)
  {
    var once := Walk(h, Upgrade, rows).rows;
    WalkShape(h, Upgrade, rows);
    forall i | 0 <= i < |once| ensures Upgrade(once[i]) != Abort {
      WalkAt(h, Upgrade, rows, i);
      RowIsReadAgain(h, Walk(h, Upgrade, rows[..i]), rows[i]);
    }
  }

  /** A second run changes nothing, whatever the table held. */
  lemma {:induction false} UpgradeIsIdempotent(h: Hash, rows: seq<Row>)
    ensures var once := Migrated(h, Upgrade, rows);
            Migrated(h, Upgrade, once) == once
  {
    if !Aborts(Upgrade, rows) {
      OnceIsReadAgain(h, rows);
      UpgradedRowsAreKept(h, rows);
      WalkWithoutRewrites(h, Upgrade, Walk(h, Upgrade, rows).rows);
    }
  }

  // ---------------------------------------------------------------- and back

  /** The row holds a list, and the retrieval entry is not in it. */
  ghost predicate LacksRetrieval(row: Row) {
    row.allowlist.JArr? && HasRetrieval(row.allowlist.items) == Some(false)
  }

  lemma {:induction false} WithoutRemoves(items: seq<Json>)
    requires Without(items).Some?
    ensures HasRetrieval(Without(items).value) == Some(false)
  {
    if items != [] {
      WithoutRemoves(items[1..]);
      var rest := Without(items[1..]).value;
      assert ([items[0]] + rest)[1..] == rest;
    }
  }

  /** What the downgrade leaves behind lacks the retrieval entry. */
  lemma DowngradedRowLacks(row: Row)
    requires Downgrade(row).Rewrite?
    ensures HasRetrieval(Items(Downgrade(row).allowlist)) == Some(false)
  {
    WithoutRemoves(Items(row.allowlist));
  }

  lemma UpgradedRowComesBack(row: Row)
    requires Readable(row) && Upgrade(row).Rewrite?
    ensures Downgrade(row.(allowlist := JArr([RETRIEVAL_ENTRY]))) == Rewrite(JArr([]), PinnedTools([]))
  {
    RetrievalEntryPin();
    assert [RETRIEVAL_ENTRY][1..] == [];
    assert Without([RETRIEVAL_ENTRY][1..]) == Some([]);
  }

  lemma {:induction false} BackStep(h: Hash, front: seq<Row>, row: Row, t: string, w: Walked, d: Walked)
    requires Readable(row) && row.template == t && LacksRetrieval(row)
    requires row.previous == HeadOf(front) && row.own == RevisionHash(h, PinnedContent(row), row.previous)
    requires Restored(front, t, d) && (t in w.latest <==> front != [])
    ensures var next := Step(h, Upgrade, w, row);
            Restored(front + [row], t, Step(h, Downgrade, d, next.rows[|w.rows|])) && t in next.latest
  {
    ReadableRow(row);
    if !Kept(row) {
      UpgradedRowComesBack(row);
      var up := Step(h, Upgrade, w, row).rows[|w.rows|];
      assert Downgrade(up) == Rewrite(JArr([]), PinnedTools([]));
      assert Anchor(up, d.latest) == row.previous;
      assert row.allowlist == JArr([]);
    }
  }

  lemma {:induction false} ChainComesBack(h: Hash, chain: seq<Row>, t: string)
    requires ReadableChain(chain, t) && ValidChain(h, PinnedContent, chain)
    requires forall i | 0 <= i < |chain| :: LacksRetrieval(chain[i])
    ensures Restored(chain, t, Walk(h, Downgrade, Walk(h, Upgrade, chain).rows))
    ensures t in Walk(h, Upgrade, chain).latest <==> chain != []
  {
    if chain != [] {
      var front, row := chain[..|chain| - 1], chain[|chain| - 1];
      assert chain == front + [row];
      ValidStep(h, PinnedContent, front, row);
      ChainComesBack(h, front, t);
      var w := Walk(h, Upgrade, front);
      BackStep(h, front, row, t, w, Walk(h, Downgrade, w.rows));
      WalkOfAppend(h, Upgrade, front, row);
      var next := Step(h, Upgrade, w, row);
      WalkOfAppend(h, Downgrade, w.rows, next.rows[|w.rows|]);
      assert next.rows == w.rows + [next.rows[|w.rows|]];
    }
  }

  ghost predicate WrittenChain(chain: seq<Row>, t: string) {
    OneTemplate(chain, t) && forall i | 0 <= i < |chain| :: Written(chain[i])
  }

  /** Every chain is a valid one of a named role, or one the migration does not select. */
  ghost predicate Migratable(h: Hash, rows: seq<Row>) {
    forall t ::
      Unnamed(Chain(rows, t)) || (WrittenChain(Chain(rows, t), t) && ValidChain(h, PinnedContent, Chain(rows, t)))
  }

  lemma UnnamedUntouched(h: Hash, chain: seq<Row>)
    requires Unnamed(chain)
    ensures Walk(h, Upgrade, chain).rows == chain && Walk(h, Downgrade, chain).rows == chain
  {
    forall i | 0 <= i < |chain| ensures !Upgrade(chain[i]).Rewrite? && !Downgrade(chain[i]).Rewrite? {
      assert chain[i] in chain;
    }
    WalkWithoutRewrites(h, Upgrade, chain);
    WalkWithoutRewrites(h, Downgrade, chain);
  }

  lemma WrittenIsReadable(chain: seq<Row>, t: string)
    requires WrittenChain(chain, t)
    ensures ReadableChain(chain, t)
  {
    forall i | 0 <= i < |chain| ensures Readable(chain[i]) {
      WrittenRow(chain[i]);
    }
  }

  lemma {:induction false} BackIsBack(h: Hash, rows: seq<Row>)
    requires Migratable(h, rows) && forall r | r in rows && r.body.name in NAMED_ROLES :: LacksRetrieval(r)
    ensures Walk(h, Downgrade, Walk(h, Upgrade, rows).rows).rows == rows
  {
    forall t ensures Walk(h, Downgrade, Walk(h, Upgrade, Chain(rows, t)).rows).rows == Chain(rows, t) {
      ChainIsOfTemplate(rows, t);
      var chain := Chain(rows, t);
      if Unnamed(chain) {
        UnnamedUntouched(h, chain);
      } else {
        WrittenIsReadable(chain, t);
        forall i | 0 <= i < |chain| ensures LacksRetrieval(chain[i]) {
          assert chain[i] in chain && Written(chain[i]);
        }
        ChainComesBack(h, chain, t);
      }
    }
    RestoredTable(h, Upgrade, Downgrade, rows);
  }

  lemma NamedRowsAreWritten(h: Hash, rows: seq<Row>, r: Row)
    requires Migratable(h, rows) && r in rows && r.body.name in NAMED_ROLES
    ensures Written(r)
  {
    ChainIsOfTemplate(rows, r.template);
    var chain := Chain(rows, r.template);
    assert r in chain;
    assert !Unnamed(chain);
    var i :| 0 <= i < |chain| && chain[i] == r;
  }

  /** What the upgrade makes of one row, as far as the downgrade looks at it. */
  ghost predicate Upgraded(r: Row, up: Row) {
    up.body == r.body && if Kept(r) then up == r else up.allowlist == JArr([RETRIEVAL_ENTRY])
  }

  lemma UpgradedReads(r: Row, up: Row)
    requires (r.body.name in NAMED_ROLES ==> Written(r)) && Upgraded(r, up)
    ensures Upgrade(r) != Abort && Downgrade(up) != Abort
  {
    if r.body.name in NAMED_ROLES {
      WrittenRow(r);
      if !Kept(r) {
        UpgradedRowComesBack(r);
        assert Downgrade(up) == Downgrade(r.(allowlist := JArr([RETRIEVAL_ENTRY])));
      }
    }
  }

  lemma UpgradedAt(h: Hash, rows: seq<Row>, i: nat)
    requires i < |rows| && (rows[i].body.name in NAMED_ROLES ==> Written(rows[i]))
    ensures |Walk(h, Upgrade, rows).rows| == |rows| && Upgraded(rows[i], Walk(h, Upgrade, rows).rows[i])
  {
    WalkAt(h, Upgrade, rows, i);
    WalkShape(h, Upgrade, rows);
    if rows[i].body.name in NAMED_ROLES {
      WrittenRow(rows[i]);
      ReadableRow(rows[i]);
    }
  }

  /** Neither run raises on such a table. */
  lemma BothGoThrough(h: Hash, rows: seq<Row>)
    requires Migratable(h, rows)
    ensures !Aborts(Upgrade, rows) && !Aborts(Downgrade, Walk(h, Upgrade, rows).rows)
  {
    var up := Walk(h, Upgrade, rows).rows;
    WalkShape(h, Upgrade, rows);
    forall i | 0 <= i < |rows| ensures Upgrade(rows[i]) != Abort && Downgrade(up[i]) != Abort {
      if rows[i].body.name in NAMED_ROLES {
        NamedRowsAreWritten(h, rows, rows[i]);
      }
      UpgradedAt(h, rows, i);
      UpgradedReads(rows[i], up[i]);
    }
  }

  lemma RestoredRowLacks(r: Row, up: Row, back: Row)
    requires Written(r) && Upgraded(r, up) && back.allowlist == r.allowlist
    requires Downgrade(up).Keep? ==> back.allowlist == up.allowlist
    requires Downgrade(up).Rewrite? ==> back.allowlist == Downgrade(up).allowlist
    ensures LacksRetrieval(r)
  {
    WrittenRow(r);
    if Kept(r) {
      if Downgrade(r).Rewrite? {
        DowngradedRowLacks(r);
      }
    } else {
      UpgradedRowComesBack(r);
      assert Downgrade(up) == Downgrade(r.(allowlist := JArr([RETRIEVAL_ENTRY])));
    }
  }

  lemma RestoredLacks(h: Hash, rows: seq<Row>, i: nat)
    requires Migratable(h, rows) && i < |rows| && rows[i].body.name in NAMED_ROLES
    requires Walk(h, Downgrade, Walk(h, Upgrade, rows).rows).rows == rows
    ensures LacksRetrieval(rows[i])
  {
    var up := Walk(h, Upgrade, rows).rows;
    NamedRowsAreWritten(h, rows, rows[i]);
    UpgradedAt(h, rows, i);
    WalkAt(h, Downgrade, up, i);
    RestoredRowLacks(rows[i], up[i], rows[i]);
  }

  /**
   Downgrading after upgrading restores every allowlist and every digest of a table
   of valid chains exactly when no named row carried the retrieval entry beforehand.
   */
  lemma {:induction false} DowngradeUndoesUpgrade(h: Hash, rows: seq<Row>)
    requires Migratable(h, rows)
    ensures Migrated(h, Downgrade, Migrated(h, Upgrade, rows)) == rows <==>
            forall r | r in rows && r.body.name in NAMED_ROLES :: LacksRetrieval(r)
  {
    BothGoThrough(h, rows);
    if Walk(h, Downgrade, Walk(h, Upgrade, rows).rows).rows == rows {
      forall r | r in rows && r.body.name in NAMED_ROLES ensures LacksRetrieval(r) {
        var i :| 0 <= i < |rows| && rows[i] == r;
        RestoredLacks(h, rows, i);
      }
    }
    if forall r | r in rows && r.body.name in NAMED_ROLES :: LacksRetrieval(r) {
      BackIsBack(h, rows);
    }
  }
}
