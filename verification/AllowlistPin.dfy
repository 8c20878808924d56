/**
 Migrations 0010 (control plane, for roles, and tenant, for agents): allowlists
 of tool names become allowlists of pinned tools, and every chain is
 re-anchored. Unlike 0012, a row that is already object-shaped is skipped without
 its digest entering the dictionary.
 */
module AllowlistPin {
  import opened JsonText
  import opened CanonicalJson
  import opened HashChain
  import opened RolePayload
  import opened Allowlists
  import opened ChainWalk
  import opened ShapeWalk

  /** `_resolve_name_to_pin` on each name; objects pass through; anything else raises. */
  function PinEntry(entry: Json): Option<Json> {
    match entry
    case JStr(name) => if name == "retrieval" then Some(RETRIEVAL_ENTRY) else None
    case JObj(_) => Some(entry)
    case _ => None
  }

  function PinEntries(items: seq<Json>): (r: Option<seq<Json>>)
    ensures r.Some? ==> |r.value| == |items|
  {
    if items == [] then Some([])
    else match (PinEntries(items[..|items| - 1]), PinEntry(items[|items| - 1]))
      case (Some(rest), Some(e)) => Some(rest + [e])
      case _ => None
  }

  predicate ObjectShaped(row: Row) {
    Items(row.allowlist) != [] && Items(row.allowlist)[0].JObj?
  }

  function Upgrade(row: Row): Action {
    if ObjectShaped(row) then Keep(false)
    else match PinEntries(Items(row.allowlist))
      case None => Abort
      case Some(entries) =>
        match PinsOf(entries)
        case None => Abort
        case Some(pins) => Rewrite(JArr(entries), PinnedTools(pins))
  }

  /** The tools table: tool id to name. */
  type Tools = map<string, string>

  function NameEntry(tools: Tools, entry: Json): Option<string> {
    match entry
    case JStr(name) => Some(name)
    case JObj(fields) =>
      (match Get(fields, "tool_id")
       case Some(JStr(id)) =>
         if id == RETRIEVAL_TOOL then Some("retrieval")
         else if id in tools then Some(tools[id]) else None
       case _ => None)
    case _ => None
  }

  function NameEntries(tools: Tools, items: seq<Json>): (r: Option<seq<string>>)
    ensures r.Some? ==> |r.value| == |items|
  {
    if items == [] then Some([])
    else match (NameEntries(tools, items[..|items| - 1]), NameEntry(tools, items[|items| - 1]))
      case (Some(rest), Some(n)) => Some(rest + [n])
      case _ => None
  }

  function NamesColumn(names: seq<string>): Json {
    JArr(seq(|names|, i requires 0 <= i < |names| => JStr(names[i])))
  }

  predicate NameShaped(row: Row) {
    Items(row.allowlist) != [] && Items(row.allowlist)[0].JStr?
  }

  function Downgrade(tools: Tools, row: Row): Action {
    if NameShaped(row) then Keep(false)
    else match NameEntries(tools, Items(row.allowlist))
      case None => Abort
      case Some(names) => Rewrite(NamesColumn(names), NamedTools(names))
  }

  function DowngradeWith(tools: Tools): Policy { row => Downgrade(tools, row) }

  /** `str(entry)`. Only texts occur in practice; of any other entry all that matters is that its text is a text. */
  function EntryText(entry: Json): string {
    if entry.JStr? then entry.s else Dumps(entry)
  }

  function EntryTexts(items: seq<Json>): (r: seq<string>)
    ensures |r| == |items|
  {
    seq(|items|, i requires 0 <= i < |items| => EntryText(items[i]))
  }

  /** Each row in the encoding its own shape calls for. */
  function ShapeContent(row: Row): seq<Entry> {
    if ObjectShaped(row) then PinnedContent(row)
    else Content(row.body, NamedTools(EntryTexts(Items(row.allowlist))))
  }

  /** A list of names this migration can resolve. */
  predicate RetrievalNames(items: seq<Json>) {
    forall i | 0 <= i < |items| :: items[i] == JStr("retrieval")
  }

  /** A row the migration does not raise on. */
  ghost predicate Readable(row: Row) {
    WellFormedBody(row.body) && Upgrade(row) != Abort
  }

  ghost predicate ReadableChain(chain: seq<Row>, t: string) {
    OneTemplate(chain, t) && forall i | 0 <= i < |chain| :: Readable(chain[i])
  }

  /** The object-shaped rows come first. */
  ghost predicate ObjectsLead(chain: seq<Row>) {
    forall i, j | 0 <= i < j < |chain| :: ObjectShaped(chain[j]) ==> ObjectShaped(chain[i])
  }

  ghost predicate NoNames(chain: seq<Row>) {
    forall i | 0 <= i < |chain| :: Empty(chain[i]) || ObjectShaped(chain[i])
  }

  /** The chains that survive. */
  ghost predicate Pinnable(chain: seq<Row>) {
    ObjectsLead(chain) || (NoNames(chain) && EmptiesTogether(chain))
  }

  // ---------------------------------------------------------------- one row

  function Copies<T>(n: nat, x: T): (r: seq<T>)
    ensures |r| == n && forall i | 0 <= i < n :: r[i] == x
  {
    seq(n, _ => x)
  }

  lemma CopiesStep<T>(n: nat, x: T)
    requires n > 0
    ensures Copies(n, x)[..n - 1] == Copies(n - 1, x)
    ensures Copies(n - 1, x) + [x] == Copies(n, x)
  {
  }

  lemma {:induction false} RetrievalNamesPinned(items: seq<Json>)
    requires RetrievalNames(items)
    ensures PinEntries(items) == Some(Copies(|items|, RETRIEVAL_ENTRY))
  {
    if items != [] {
      RetrievalNamesPinned(items[..|items| - 1]);
      assert PinEntry(items[|items| - 1]) == Some(RETRIEVAL_ENTRY);
      CopiesStep(|items|, RETRIEVAL_ENTRY);
    }
  }

  lemma {:induction false} RetrievalPins(n: nat)
    ensures PinsOf(Copies(n, RETRIEVAL_ENTRY)) == Some(Copies(n, RETRIEVAL_PIN))
  {
    if n > 0 {
      RetrievalPins(n - 1);
      RetrievalEntryPin();
      CopiesStep(n, RETRIEVAL_ENTRY);
      CopiesStep(n, RETRIEVAL_PIN);
    }
  }

  lemma {:induction false} RetrievalNamesRead(tools: Tools, items: seq<Json>)
    requires RetrievalNames(items)
    ensures NameEntries(tools, items) == Some(Copies(|items|, "retrieval"))
  {
    if items != [] {
      RetrievalNamesRead(tools, items[..|items| - 1]);
      assert NameEntry(tools, items[|items| - 1]) == Some("retrieval");
      CopiesStep(|items|, "retrieval");
    }
  }

  lemma {:induction false} PinnedEntriesAreObjects(items: seq<Json>)
    requires PinEntries(items).Some?
    ensures forall e | e in PinEntries(items).value :: e.JObj?
  {
    if items != [] {
      PinnedEntriesAreObjects(items[..|items| - 1]);
    }
  }

  /** The new column of a rewritten row, and its pins. */
  function Entries(row: Row): (r: seq<Json>)
    requires Upgrade(row).Rewrite?
    ensures |r| == |Items(row.allowlist)|
  {
    PinEntries(Items(row.allowlist)).value
  }

  function Pins(row: Row): (r: seq<Pin>)
    requires Upgrade(row).Rewrite?
    ensures |r| == |Items(row.allowlist)|
  {
    PinsOf(Entries(row)).value
  }

  lemma ReadableRow(row: Row)
    requires Readable(row)
    ensures ObjectShaped(row) ==> Upgrade(row) == Keep(false) && ShapeContent(row) == PinnedContent(row)
    ensures !ObjectShaped(row) ==>
            Upgrade(row).Rewrite? && Upgrade(row) == Rewrite(JArr(Entries(row)), PinnedTools(Pins(row)))
    ensures !ObjectShaped(row) ==> ShapeContent(row) == Content(row.body, NamedTools(EntryTexts(Items(row.allowlist))))
  {
  }

  function PinnedRow(h: Hash, row: Row, previous: string): Row
    requires Upgrade(row).Rewrite?
  {
    Reanchored(h, row, JArr(Entries(row)), PinnedTools(Pins(row)), previous)
  }

  lemma PinnedRowContent(h: Hash, row: Row, previous: string)
    requires Upgrade(row).Rewrite?
    ensures PinnedContent(PinnedRow(h, row, previous)) == Content(row.body, PinnedTools(Pins(row)))
  {
  }

  /** Rewriting moves the digest unless the row is empty and keeps its predecessor. */
  lemma {:induction false} PinnedRowDigest(h: Hash, row: Row, previous: string)
    requires Ideal(h) && WellFormedBody(row.body) && Upgrade(row).Rewrite?
    requires row.own == RevisionHash(h, ShapeContent(row), row.previous)
    ensures PinnedRow(h, row, previous).own == row.own <==> Empty(row) && previous == row.previous
  {
    var texts := EntryTexts(Items(row.allowlist));
    NamesAreNotPins(texts, Pins(row));
    SortedTextsMeaning(texts, texts);
    PinnedToolsMeaning(Pins(row), Pins(row));
    RoleHashExact(h, row.body, PinnedTools(Pins(row)), previous, row.body, NamedTools(texts), row.previous);
  }

  // ---------------------------------------------------------------- one chain

  lemma PinnedContentWellFormed(row: Row)
    requires WellFormedBody(row.body)
    ensures WellFormed(VDict(PinnedContent(row)))
  {
    match PinsOf(Items(row.allowlist))
    case Some(pins) =>
      PinnedToolsMeaning(pins, pins);
      ContentWellFormed(row.body, PinnedTools(pins));
    case None =>
      ContentWellFormed(row.body, VNull);
  }

  lemma ShapeContentWellFormed(row: Row)
    requires WellFormedBody(row.body)
    ensures WellFormed(VDict(ShapeContent(row)))
  {
    if ObjectShaped(row) {
      PinnedContentWellFormed(row);
    } else {
      var texts := EntryTexts(Items(row.allowlist));
      SortedTextsMeaning(texts, texts);
      ContentWellFormed(row.body, NamedTools(texts));
    }
  }

  lemma ReadableRevisions(chain: seq<Row>, t: string)
    requires ReadableChain(chain, t)
    ensures WellFormedChain(Revisions(ShapeContent, chain))
  {
    forall i | 0 <= i < |chain| ensures WellFormed(VDict(ShapeContent(chain[i]))) {
      ShapeContentWellFormed(chain[i]);
    }
  }

  /** The upgrade as a walk that skips the object-shaped rows. */
  const PINNING := Turn(Upgrade, ObjectShaped, ShapeContent, PinnedContent)

  lemma {:induction false} UpgradeTurns(h: Hash, row: Row)
    requires Ideal(h) && Readable(row)
    ensures Turns(h, PINNING, row)
  {
    ReadableRow(row);
    ShapeContentWellFormed(row);
    if !ObjectShaped(row) {
      forall previous ensures Turned(h, PINNING, row, previous) {
        PinnedRowContent(h, row, previous);
        if row.own == RevisionHash(h, ShapeContent(row), row.previous) {
          PinnedRowDigest(h, row, previous);
        }
      }
    }
  }

  lemma {:induction false} PinOfChain(h: Hash, chain: seq<Row>, t: string)
    requires Ideal(h) && ReadableChain(chain, t) && ValidChain(h, ShapeContent, chain)
    ensures ValidChain(h, PinnedContent, Walk(h, Upgrade, chain).rows) <==> Pinnable(chain)
  {
    forall i | 0 <= i < |chain| ensures Turns(h, PINNING, chain[i]) {
      UpgradeTurns(h, chain[i]);
    }
    assert SkipsFilled(PINNING.skips);
    ValidWhenSurvives(h, PINNING, chain, t);
    assert Survives(ObjectShaped, chain) <==> Pinnable(chain);
  }

  ghost predicate WellFormedBodies(rows: seq<Row>) { forall r | r in rows :: WellFormedBody(r.body) }

  /** A run that goes through has read every row. */
  lemma RunReads(rows: seq<Row>, t: string)
    requires !Aborts(Upgrade, rows) && WellFormedBodies(Chain(rows, t))
    ensures ReadableChain(Chain(rows, t), t)
  {
    var chain := Chain(rows, t);
    ChainIsOfTemplate(rows, t);
    forall i | 0 <= i < |chain| ensures Readable(chain[i]) {
      assert chain[i] in chain;
      var k :| 0 <= k < |rows| && rows[k] == chain[i];
    }
  }

  predicate Named(row: Row) { !Empty(row) && !ObjectShaped(row) }

  /** The two encodings give a row one digest unless it holds names. */
  lemma {:induction false} SameUnderBoth(h: Hash, row: Row, previous: string)
    requires Ideal(h) && WellFormedBody(row.body)
    ensures RevisionHash(h, PinnedContent(row), previous) == RevisionHash(h, ShapeContent(row), previous) <==>
            !Named(row)
  {
    if !ObjectShaped(row) {
      var texts := EntryTexts(Items(row.allowlist));
      SortedTextsMeaning(texts, texts);
      match PinsOf(Items(row.allowlist)) {
        case Some(pins) =>
          NamesAreNotPins(texts, pins);
          PinnedToolsMeaning(pins, pins);
          RoleHashExact(h, row.body, PinnedTools(pins), previous, row.body, NamedTools(texts), previous);
        case None =>
          RoleHashExact(h, row.body, VNull, previous, row.body, NamedTools(texts), previous);
      }
    }
  }

  lemma NoNamesStep(front: seq<Row>, row: Row)
    ensures NoNames(front + [row]) <==> NoNames(front) && (Empty(row) || ObjectShaped(row))
  {
    var all := front + [row];
    assert all[|front|] == row && forall i | 0 <= i < |front| :: all[i] == front[i];
  }

  /** A chain as it stands is valid under the pinned encoding exactly when it holds no names. */
  lemma {:induction false} UntouchedChain(h: Hash, chain: seq<Row>)
    requires Ideal(h) && WellFormedBodies(chain) && ValidChain(h, ShapeContent, chain)
    ensures ValidChain(h, PinnedContent, chain) <==> NoNames(chain)
  {
    if chain != [] {
      var front, row := chain[..|chain| - 1], chain[|chain| - 1];
      assert chain == front + [row] && row in chain;
      ValidStep(h, ShapeContent, front, row);
      ValidStep(h, PinnedContent, front, row);
      UntouchedChain(h, front);
      SameUnderBoth(h, row, row.previous);
      NoNamesStep(front, row);
    }
  }

  /**
   A run makes a valid chain valid under the pinned encoding exactly when the
   chain's object-shaped rows lead, or when it has no named tools at all and its
   empty rows stand side by side. If some row makes the run raise, nothing is
   rewritten, and the chain has to be without names as it is.
   */
  lemma {:induction false} UpgradePinsChains(h: Hash, rows: seq<Row>, t: string)
    requires Ideal(h) && WellFormedBodies(Chain(rows, t)) && ValidChain(h, ShapeContent, Chain(rows, t))
    ensures ValidChain(h, PinnedContent, Chain(Migrated(h, Upgrade, rows), t)) <==>
            if Aborts(Upgrade, rows) then NoNames(Chain(rows, t)) else Pinnable(Chain(rows, t))
  {
    if Aborts(Upgrade, rows) {
      UntouchedChain(h, Chain(rows, t));
    } else {
      RunReads(rows, t);
      WalkByTemplate(h, Upgrade, rows, t);
      PinOfChain(h, Chain(rows, t), t);
    }
  }

  // ---------------------------------------------------------------- the rows without tools

  /** No names before row `i`, and nothing but empty rows once there is one. */
  ghost predicate Undisturbed(chain: seq<Row>, i: nat)
    requires i <= |chain|
  {
    && (forall j | 0 <= j < i :: !Named(chain[j]))
    && (forall j, k | 0 <= j < k < i :: Empty(chain[j]) ==> Empty(chain[k]))
  }

  ghost predicate ObjectsUpTo(chain: seq<Row>, n: nat)
    requires n <= |chain|
  {
    forall j | 0 <= j < n :: ObjectShaped(chain[j])
  }

  lemma UndisturbedStep(chain: seq<Row>, n: nat)
    requires n < |chain|
    ensures ObjectsUpTo(chain, n + 1) <==> ObjectsUpTo(chain, n) && ObjectShaped(chain[n])
    ensures ObjectsUpTo(chain, n) ==> Undisturbed(chain, n)
    ensures Undisturbed(chain, n + 1) <==>
            Undisturbed(chain, n) && !Named(chain[n]) && (ObjectShaped(chain[n]) ==> ObjectsUpTo(chain, n))
  {
    assert ObjectShaped(chain[n]) ==> !Empty(chain[n]);
  }

  ghost predicate NotHeadAt(chain: seq<Row>, m: nat, digest: string) {
    m <= |chain| && digest != HeadOf(chain[..m])
  }

  /** The digest is not one the chain only reaches after `n` rows. */
  ghost predicate NotReached(chain: seq<Row>, n: nat, digest: string) {
    forall m | n < m <= |chain| :: NotHeadAt(chain, m, digest)
  }

  ghost predicate NeverAhead(chain: seq<Row>, n: nat, t: string, w: Walked) {
    t in w.latest ==> NotReached(chain, n, w.latest[t])
  }

  /** What a rewritten row is anchored to, if its digest is one the chain reaches. */
  lemma {:induction false} RewrittenDigestAhead(h: Hash, row: Row, previous: string, other: Row)
    requires Ideal(h) && Readable(row) && !ObjectShaped(row) && WellFormedBody(other.body)
    requires other.own == RevisionHash(h, ShapeContent(other), other.previous)
    requires PinnedRow(h, row, previous).own == other.own
    ensures previous == other.previous
  {
    PinnedToolsMeaning(Pins(row), Pins(row));
    ContentWellFormed(row.body, PinnedTools(Pins(row)));
    ShapeContentWellFormed(other);
    HashExact(h, Content(row.body, PinnedTools(Pins(row))), previous, ShapeContent(other), other.previous);
  }

  lemma HeadsApart(h: Hash, chain: seq<Row>, t: string, m: nat, n: nat)
    requires Ideal(h) && ReadableChain(chain, t) && ValidChain(h, ShapeContent, chain) && m < n <= |chain|
    ensures HeadOf(chain[..m]) != HeadOf(chain[..n])
  {
    ReadableRevisions(chain, t);
    RevisionsPrefix(ShapeContent, chain, m);
    RevisionsPrefix(ShapeContent, chain, n);
    HeadsDiffer(h, Revisions(ShapeContent, chain), m, n);
  }

  lemma ChainRow(h: Hash, chain: seq<Row>, t: string, i: nat)
    requires ReadableChain(chain, t) && ValidChain(h, ShapeContent, chain) && i < |chain|
    ensures Readable(chain[i]) && chain[i].own == HeadOf(chain[..i + 1]) && chain[i].previous == HeadOf(chain[..i])
    ensures chain[i].own == RevisionHash(h, ShapeContent(chain[i]), chain[i].previous)
  {
    ValidAt(h, ShapeContent, chain, i);
  }

  lemma {:induction false} DigestApart(h: Hash, row: Row, anchor: string, other: Row)
    requires Ideal(h) && Readable(row) && !ObjectShaped(row) && Readable(other) && anchor != other.previous
    requires other.own == RevisionHash(h, ShapeContent(other), other.previous)
    ensures Upgrade(row).Rewrite? && PinnedRow(h, row, anchor).own != other.own
  {
    ReadableRow(row);
    if PinnedRow(h, row, anchor).own == other.own {
      RewrittenDigestAhead(h, row, anchor, other);
    }
  }

  /** The anchor of a row to be rewritten: where its chain stands, or nowhere its chain will. */
  ghost predicate Anchoring(chain: seq<Row>, n: nat, anchor: string) {
    n <= |chain| && (anchor == HeadOf(chain[..n]) || NotReached(chain, n, anchor))
  }

  lemma {:induction false} AnchorApart(h: Hash, chain: seq<Row>, n: nat, t: string, anchor: string, m: nat)
    requires Ideal(h) && ReadableChain(chain, t) && ValidChain(h, ShapeContent, chain)
    requires n < m < |chain| && Anchoring(chain, n, anchor)
    ensures NotHeadAt(chain, m, anchor)
  {
    HeadsApart(h, chain, t, n, m);
  }

  lemma {:induction false} NotAheadAt(h: Hash, chain: seq<Row>, n: nat, t: string, anchor: string, m: nat)
    requires Ideal(h) && ReadableChain(chain, t) && ValidChain(h, ShapeContent, chain)
    requires n < m < |chain| && !ObjectShaped(chain[n]) && Anchoring(chain, n, anchor)
    ensures Upgrade(chain[n]).Rewrite? && NotHeadAt(chain, m + 1, PinnedRow(h, chain[n], anchor).own)
  {
    AnchorApart(h, chain, n, t, anchor, m);
    ChainRow(h, chain, t, m);
    ChainRow(h, chain, t, n);
    DigestApart(h, chain[n], anchor, chain[m]);
  }

  lemma {:induction false} RewriteNotReached(h: Hash, chain: seq<Row>, n: nat, t: string, anchor: string)
    requires Ideal(h) && ReadableChain(chain, t) && ValidChain(h, ShapeContent, chain)
    requires n < |chain| && !ObjectShaped(chain[n]) && Anchoring(chain, n, anchor)
    requires Upgrade(chain[n]).Rewrite?
    ensures NotReached(chain, n + 1, PinnedRow(h, chain[n], anchor).own)
  {
    var own := PinnedRow(h, chain[n], anchor).own;
    forall m | n + 1 < m <= |chain| ensures NotHeadAt(chain, m, own) {
      NotAheadAt(h, chain, n, t, anchor, m - 1);
    }
  }

  lemma {:induction false} RewriteNeverAhead(h: Hash, chain: seq<Row>, n: nat, t: string, w: Walked)
    requires Ideal(h) && ReadableChain(chain, t) && ValidChain(h, ShapeContent, chain)
    requires n < |chain| && !ObjectShaped(chain[n]) && NeverAhead(chain, n, t, w)
    ensures NeverAhead(chain, n + 1, t, Step(h, Upgrade, w, chain[n]))
  {
    ReadableRow(chain[n]);
    ValidAt(h, ShapeContent, chain, n);
    RewriteNotReached(h, chain, n, t, Anchor(chain[n], w.latest));
  }

  lemma {:induction false} StepNeverAhead(h: Hash, chain: seq<Row>, n: nat, t: string, w: Walked)
    requires Ideal(h) && ReadableChain(chain, t) && ValidChain(h, ShapeContent, chain)
    requires n < |chain| && NeverAhead(chain, n, t, w)
    ensures NeverAhead(chain, n + 1, t, Step(h, Upgrade, w, chain[n]))
  {
    if ObjectShaped(chain[n]) {
      ReadableRow(chain[n]);
    } else {
      RewriteNeverAhead(h, chain, n, t, w);
    }
  }

  lemma {:induction false} WalkNeverAhead(h: Hash, chain: seq<Row>, n: nat, t: string)
    requires Ideal(h) && ReadableChain(chain, t) && ValidChain(h, ShapeContent, chain) && n <= |chain|
    ensures NeverAhead(chain, n, t, Walk(h, Upgrade, chain[..n]))
  {
    if n > 0 {
      WalkNeverAhead(h, chain, n - 1, t);
      WalkNext(h, Upgrade, chain, n - 1);
      StepNeverAhead(h, chain, n - 1, t, Walk(h, Upgrade, chain[..n - 1]));
    }
  }

  /** The walk would anchor the next row where the chain does. */
  ghost predicate InPlace(chain: seq<Row>, n: nat, t: string, w: Walked)
    requires n <= |chain|
  {
    t in w.latest ==> w.latest[t] == HeadOf(chain[..n])
  }

  ghost predicate PlaceState(chain: seq<Row>, n: nat, t: string, w: Walked)
    requires n <= |chain|
  {
    (t !in w.latest <==> ObjectsUpTo(chain, n)) && (InPlace(chain, n, t, w) <==> Undisturbed(chain, n))
  }

  lemma {:induction false} PlaceStep(h: Hash, chain: seq<Row>, n: nat, t: string, w: Walked)
    requires Ideal(h) && ReadableChain(chain, t) && ValidChain(h, ShapeContent, chain) && n < |chain|
    requires NeverAhead(chain, n, t, w) && PlaceState(chain, n, t, w)
    ensures PlaceState(chain, n + 1, t, Step(h, Upgrade, w, chain[n]))
  {
    var row := chain[n];
    ReadableRow(row);
    UndisturbedStep(chain, n);
    assert HeadOf(chain[..n + 1]) == row.own;
    assert t in w.latest ==> NotHeadAt(chain, n + 1, w.latest[t]);
    if !ObjectShaped(row) {
      ValidAt(h, ShapeContent, chain, n);
      PinnedRowDigest(h, row, Anchor(row, w.latest));
    }
  }

  lemma {:induction false} WalkPlace(h: Hash, chain: seq<Row>, n: nat, t: string)
    requires Ideal(h) && ReadableChain(chain, t) && ValidChain(h, ShapeContent, chain) && n <= |chain|
    ensures PlaceState(chain, n, t, Walk(h, Upgrade, chain[..n]))
  {
    if n > 0 {
      WalkPlace(h, chain, n - 1, t);
      WalkNeverAhead(h, chain, n - 1, t);
      WalkNext(h, Upgrade, chain, n - 1);
      PlaceStep(h, chain, n - 1, t, Walk(h, Upgrade, chain[..n - 1]));
    }
  }

  lemma {:induction false} EmptyRowOfChain(h: Hash, chain: seq<Row>, t: string, i: nat)
    requires Ideal(h) && ReadableChain(chain, t) && ValidChain(h, ShapeContent, chain) && i < |chain| && Empty(chain[i])
    ensures |Walk(h, Upgrade, chain).rows| == |chain|
    ensures Walk(h, Upgrade, chain).rows[i] == chain[i] <==> chain[i].allowlist.JArr? && Undisturbed(chain, i)
  {
    var row, w := chain[i], Walk(h, Upgrade, chain[..i]);
    WalkAt(h, Upgrade, chain, i);
    WalkPlace(h, chain, i, t);
    ReadableRow(row);
    ValidAt(h, ShapeContent, chain, i);
    PinnedRowDigest(h, row, Anchor(row, w.latest));
    assert Entries(row) == [];
  }

  /**
   A row without tools keeps every byte exactly when its column is a list, no row
   before it holds names, and only empty rows stand between it and the first empty
   one; or when the run raises.
   */
  lemma {:induction false} EmptyRowKept(h: Hash, rows: seq<Row>, t: string, i: nat)
    requires Ideal(h) && WellFormedBodies(Chain(rows, t)) && ValidChain(h, ShapeContent, Chain(rows, t))
    requires i < |Chain(rows, t)| && Empty(Chain(rows, t)[i])
    ensures |Chain(Migrated(h, Upgrade, rows), t)| == |Chain(rows, t)|
    ensures Chain(Migrated(h, Upgrade, rows), t)[i] == Chain(rows, t)[i] <==>
            Aborts(Upgrade, rows) || (Chain(rows, t)[i].allowlist.JArr? && Undisturbed(Chain(rows, t), i))
  {
    if !Aborts(Upgrade, rows) {
      RunReads(rows, t);
      WalkByTemplate(h, Upgrade, rows, t);
      EmptyRowOfChain(h, Chain(rows, t), t, i);
    }
  }

  // ---------------------------------------------------------------- running it again

  /** No row with tool names stands between two empty rows. */
  ghost predicate Steady(chain: seq<Row>) {
    forall i, j, k | 0 <= i < j < k < |chain| :: Empty(chain[i]) && Empty(chain[k]) ==> !Named(chain[j])
  }

  /** No empty row yet; an empty row with no names after it; with names after it; an empty row after those. */
  datatype Rerun = NoEmpty | Open | Separated | Clash

  function NextRerun(q: Rerun, row: Row): Rerun {
    match q
    case NoEmpty => if Empty(row) then Open else NoEmpty
    case Open => if Named(row) then Separated else Open
    case Separated => if Empty(row) then Clash else Separated
    case Clash => Clash
  }

  function RerunOf(chain: seq<Row>): Rerun {
    if chain == [] then NoEmpty else NextRerun(RerunOf(chain[..|chain| - 1]), chain[|chain| - 1])
  }

  ghost predicate HasEmpty(chain: seq<Row>) { exists i :: 0 <= i < |chain| && Empty(chain[i]) }

  ghost predicate NamedAfterEmpty(chain: seq<Row>) {
    exists i, j :: 0 <= i < j < |chain| && Empty(chain[i]) && Named(chain[j])
  }

  lemma EmptyStep(front: seq<Row>, row: Row)
    ensures HasEmpty(front + [row]) <==> HasEmpty(front) || Empty(row)
  {
    var all := front + [row];
    assert all[|front|] == row && forall i | 0 <= i < |front| :: all[i] == front[i];
    if HasEmpty(front) {
      var i :| 0 <= i < |front| && Empty(front[i]);
      assert Empty(all[i]);
    } else if Empty(row) {
      assert Empty(all[|front|]);
    }
  }

  lemma NamedAfterEmptyStep(front: seq<Row>, row: Row)
    ensures NamedAfterEmpty(front + [row]) <==> NamedAfterEmpty(front) || (HasEmpty(front) && Named(row))
  {
    var all := front + [row];
    assert all[|front|] == row && forall i | 0 <= i < |front| :: all[i] == front[i];
    if NamedAfterEmpty(front) {
      var i, j :| 0 <= i < j < |front| && Empty(front[i]) && Named(front[j]);
      assert Empty(all[i]) && Named(all[j]);
    } else if HasEmpty(front) && Named(row) {
      var i :| 0 <= i < |front| && Empty(front[i]);
      assert Empty(all[i]) && Named(all[|front|]);
    }
  }

  lemma SteadyStep(front: seq<Row>, row: Row)
    ensures Steady(front + [row]) <==> Steady(front) && (Empty(row) ==> !NamedAfterEmpty(front))
  {
    var all := front + [row];
    assert all[|front|] == row && forall i | 0 <= i < |front| :: all[i] == front[i];
    if Steady(all) {
      forall i, j | 0 <= i < j < |front| && Empty(front[i]) && Empty(row) ensures !Named(front[j]) {
        assert Empty(all[i]) && Empty(all[|front|]) && all[j] == front[j];
      }
    }
  }

  lemma {:induction false} RerunDecides(chain: seq<Row>)
    ensures RerunOf(chain) == NoEmpty <==> !HasEmpty(chain)
    ensures RerunOf(chain) == Open ==> !NamedAfterEmpty(chain)
    ensures RerunOf(chain) == Separated ==> NamedAfterEmpty(chain)
    ensures RerunOf(chain) != Clash <==> Steady(chain)
  {
    if chain != [] {
      var front, row := chain[..|chain| - 1], chain[|chain| - 1];
      assert chain == front + [row];
      RerunDecides(front);
      EmptyStep(front, row);
      NamedAfterEmptyStep(front, row);
      SteadyStep(front, row);
      assert NamedAfterEmpty(front) ==> HasEmpty(front);
    }
  }

  /** The digest of some row without tools. */
  ghost predicate EmptyDigest(h: Hash, digest: string) {
    exists body, previous :: WellFormedBody(body) && digest == RoleHash(h, body, PinnedTools([]), previous)
  }

  lemma {:induction false} NamedDigestIsNotEmpty(h: Hash, row: Row, previous: string)
    requires Ideal(h) && Readable(row) && Named(row)
    ensures !EmptyDigest(h, PinnedRow(h, row, previous).own)
  {
    forall body, p | WellFormedBody(body)
      ensures PinnedRow(h, row, previous).own != RoleHash(h, body, PinnedTools([]), p)
    {
      PinnedHashExact(h, row.body, Pins(row), previous, body, [], p);
      assert Pins(row)[0] in multiset(Pins(row));
    }
  }

  /** Where the first and the second run stand after a chain. */
  ghost predicate RerunState(h: Hash, t: string, w: Walked, x: Walked, q: Rerun) {
    match q
    case NoEmpty => x.rows == w.rows && t !in x.latest
    case Open =>
      x.rows == w.rows && t in w.latest && t in x.latest && EmptyDigest(h, x.latest[t]) && w.latest[t] == x.latest[t]
    case Separated =>
      x.rows == w.rows && t in w.latest && t in x.latest && EmptyDigest(h, x.latest[t]) && w.latest[t] != x.latest[t]
    case Clash => x.rows != w.rows && |x.rows| == |w.rows|
  }

  lemma PinnedRowAgain(h: Hash, row: Row, previous: string)
    requires Upgrade(row).Rewrite?
    ensures Empty(row) ==> Upgrade(PinnedRow(h, row, previous)) == Rewrite(JArr([]), PinnedTools([]))
    ensures Named(row) ==> Upgrade(PinnedRow(h, row, previous)) == Keep(false)
  {
    if Empty(row) {
      assert Entries(row) == [];
    } else {
      PinnedEntriesAreObjects(Items(row.allowlist));
      assert Entries(row)[0].JObj?;
    }
  }

  lemma AppendsDiffer<T>(x: seq<T>, a: T, y: seq<T>, b: T)
    requires |x| == |y| && x != y
    ensures x + [a] != y + [b]
  {
    assert (x + [a])[..|x|] == x && (y + [b])[..|y|] == y;
  }

  /** Once the two runs differ they differ for good. */
  lemma ClashStep(h: Hash, t: string, w: Walked, x: Walked, row: Row, again: Row)
    requires RerunState(h, t, w, x, Clash)
    requires Step(h, Upgrade, w, row).rows == w.rows + [again]
    ensures RerunState(h, t, Step(h, Upgrade, w, row), Step(h, Upgrade, x, again), Clash)
  {
    var y := Step(h, Upgrade, x, again);
    assert y.rows == x.rows + [y.rows[|x.rows|]];
    AppendsDiffer(x.rows, y.rows[|x.rows|], w.rows, again);
  }

  lemma RerunStep(h: Hash, row: Row, t: string, w: Walked, x: Walked, q: Rerun)
    requires Ideal(h) && Readable(row) && row.template == t && RerunState(h, t, w, x, q)
    ensures var next := Step(h, Upgrade, w, row);
            next.rows == w.rows + [next.rows[|w.rows|]] &&
            RerunState(h, t, next, Step(h, Upgrade, x, next.rows[|w.rows|]), NextRerun(q, row))
  {
    ReadableRow(row);
    if ObjectShaped(row) {
      RerunKept(h, row, t, w, x, q);
    } else if Named(row) {
      RerunNamed(h, row, t, w, x, q);
    } else {
      RerunEmpty(h, row, t, w, x, q);
    }
  }

  lemma RerunKept(h: Hash, row: Row, t: string, w: Walked, x: Walked, q: Rerun)
    requires Readable(row) && ObjectShaped(row) && row.template == t && RerunState(h, t, w, x, q)
    ensures RerunState(h, t, Step(h, Upgrade, w, row), Step(h, Upgrade, x, row), NextRerun(q, row))
  {
    ReadableRow(row);
    if q == Clash {
      ClashStep(h, t, w, x, row, row);
    }
  }

  lemma {:induction false} RerunNamed(h: Hash, row: Row, t: string, w: Walked, x: Walked, q: Rerun)
    requires Ideal(h) && Readable(row) && Named(row) && row.template == t && RerunState(h, t, w, x, q)
    ensures var again := PinnedRow(h, row, Anchor(row, w.latest));
            RerunState(h, t, Step(h, Upgrade, w, row), Step(h, Upgrade, x, again), NextRerun(q, row))
  {
    ReadableRow(row);
    var r := PinnedRow(h, row, Anchor(row, w.latest));
    PinnedRowAgain(h, row, r.previous);
    NamedDigestIsNotEmpty(h, row, r.previous);
    if q == Clash {
      ClashStep(h, t, w, x, row, r);
    }
  }

  lemma {:induction false} RerunEmpty(h: Hash, row: Row, t: string, w: Walked, x: Walked, q: Rerun)
    requires Ideal(h) && Readable(row) && Empty(row) && row.template == t && RerunState(h, t, w, x, q)
    ensures var again := PinnedRow(h, row, Anchor(row, w.latest));
            RerunState(h, t, Step(h, Upgrade, w, row), Step(h, Upgrade, x, again), NextRerun(q, row))
  {
    ReadableRow(row);
    var r := PinnedRow(h, row, Anchor(row, w.latest));
    PinnedRowAgain(h, row, r.previous);
    assert Entries(row) == [] && Pins(row) == [];
    var p := Anchor(r, x.latest);
    var s := Reanchored(h, r, JArr([]), PinnedTools([]), p);
    assert EmptyDigest(h, s.own);
    PinnedHashExact(h, row.body, [], p, row.body, [], r.previous);
    assert s == r <==> p == r.previous;
    var y := Step(h, Upgrade, x, r);
    assert y == Walked(x.rows + [s], x.latest[t := s.own]);
    assert Step(h, Upgrade, w, row) == Walked(w.rows + [r], w.latest[t := r.own]);
    if q == Clash {
      ClashStep(h, t, w, x, row, r);
    }
    assert (x.rows + [s])[|x.rows|] == s && (w.rows + [r])[|w.rows|] == r;
  }

  lemma {:induction false} RerunOfChain(h: Hash, chain: seq<Row>, t: string)
    requires Ideal(h) && ReadableChain(chain, t)
    ensures var w := Walk(h, Upgrade, chain);
            RerunState(h, t, w, Walk(h, Upgrade, w.rows), RerunOf(chain))
  {
    if chain != [] {
      var front, row := chain[..|chain| - 1], chain[|chain| - 1];
      RerunOfChain(h, front, t);
      var w := Walk(h, Upgrade, front);
      RerunStep(h, row, t, w, Walk(h, Upgrade, w.rows), RerunOf(front));
      WalkOfAppend(h, Upgrade, w.rows, Step(h, Upgrade, w, row).rows[|w.rows|]);
    }
  }

  lemma {:induction false} ChainSteady(h: Hash, rows: seq<Row>, t: string)
    requires Ideal(h) && ReadableChain(Chain(rows, t), t)
    ensures var once := Walk(h, Upgrade, rows).rows;
            Chain(Walk(h, Upgrade, once).rows, t) == Chain(once, t) <==> Steady(Chain(rows, t))
  {
    var once := Walk(h, Upgrade, rows).rows;
    WalkByTemplate(h, Upgrade, rows, t);
    WalkByTemplate(h, Upgrade, once, t);
    RerunOfChain(h, Chain(rows, t), t);
    RerunDecides(Chain(rows, t));
  }

  ghost predicate AllReadable(rows: seq<Row>) { forall t :: ReadableChain(Chain(rows, t), t) }

  ghost predicate AllSteady(rows: seq<Row>) { forall t :: Steady(Chain(rows, t)) }

  lemma SteadyTable(h: Hash, rows: seq<Row>)
    requires Ideal(h) && AllReadable(rows) && AllSteady(rows)
    ensures var once := Walk(h, Upgrade, rows).rows;
            Walk(h, Upgrade, once).rows == once
  {
    var once := Walk(h, Upgrade, rows).rows;
    var twice := Walk(h, Upgrade, once).rows;
    WalkShape(h, Upgrade, once);
    forall t ensures Chain(twice, t) == Chain(once, t) {
      assert ReadableChain(Chain(rows, t), t) && Steady(Chain(rows, t));
      ChainSteady(h, rows, t);
    }
    ChainsDetermineTable(twice, once);
  }

  lemma UnsteadyTable(h: Hash, rows: seq<Row>)
    requires Ideal(h) && AllReadable(rows)
    ensures var once := Walk(h, Upgrade, rows).rows;
            Walk(h, Upgrade, once).rows == once ==> AllSteady(rows)
  {
    var once := Walk(h, Upgrade, rows).rows;
    if Walk(h, Upgrade, once).rows == once {
      forall t ensures Steady(Chain(rows, t)) {
        assert ReadableChain(Chain(rows, t), t);
        ChainSteady(h, rows, t);
      }
    }
  }

  lemma AllRead(rows: seq<Row>)
    requires !Aborts(Upgrade, rows) && WellFormedBodies(rows)
    ensures AllReadable(rows)
  {
    forall t ensures ReadableChain(Chain(rows, t), t) {
      ChainIsOfTemplate(rows, t);
      RunReads(rows, t);
    }
  }

  /** What a run that goes through leaves, a second one reads as well. */
  lemma OnceIsReadAgain(h: Hash, rows: seq<Row>)
    requires !Aborts(Upgrade, rows)
    ensures !Aborts(Upgrade, Walk(h, Upgrade, rows).rows)
  {
    var once := Walk(h, Upgrade, rows).rows;
    WalkShape(h, Upgrade, rows);
    forall i | 0 <= i < |once| ensures Upgrade(once[i]) != Abort {
      WalkAt(h, Upgrade, rows, i);
      if Upgrade(rows[i]).Rewrite? {
        PinnedRowAgain(h, rows[i], Anchor(rows[i], Walk(h, Upgrade, rows[..i]).latest));
      }
    }
  }

  /**
   Running the migration a second time changes nothing exactly when in no chain a
   row with tool names stands between two empty rows, or when it raises.
   */
  lemma RerunChangesNothing(h: Hash, rows: seq<Row>)
    requires Ideal(h) && WellFormedBodies(rows)
    ensures var once := Migrated(h, Upgrade, rows);
            Migrated(h, Upgrade, once) == once <==> Aborts(Upgrade, rows) || AllSteady(rows)
  {
    if !Aborts(Upgrade, rows) {
      AllRead(rows);
      OnceIsReadAgain(h, rows);
      UnsteadyTable(h, rows);
      if AllSteady(rows) {
        SteadyTable(h, rows);
      }
    }
  }

  // ---------------------------------------------------------------- and back

  /** A row as it stood before the change of encoding, naming no tool this migration cannot resolve. */
  ghost predicate NamesOnly(row: Row) {
    row.allowlist.JArr? && RetrievalNames(Items(row.allowlist))
  }

  lemma NamesOnlyRow(row: Row)
    requires NamesOnly(row)
    ensures var n := |Items(row.allowlist)|;
            Upgrade(row).Rewrite? && Entries(row) == Copies(n, RETRIEVAL_ENTRY) &&
            Pins(row) == Copies(n, RETRIEVAL_PIN) &&
            EntryTexts(Items(row.allowlist)) == Copies(n, "retrieval")
  {
    RetrievalNamesPinned(Items(row.allowlist));
    RetrievalPins(|Items(row.allowlist)|);
  }

  lemma RetrievalEntryNamed(tools: Tools)
    ensures NameEntry(tools, RETRIEVAL_ENTRY) == Some("retrieval")
  {
    assert RETRIEVAL_ENTRY.fields[0].key == "tool_id";
    assert Get(RETRIEVAL_ENTRY.fields, "tool_id") == Some(JStr(RETRIEVAL_TOOL));
  }

  lemma NameEntriesStep(tools: Tools, items: seq<Json>, names: seq<string>, item: Json, name: string)
    requires NameEntries(tools, items) == Some(names) && NameEntry(tools, item) == Some(name)
    ensures NameEntries(tools, items + [item]) == Some(names + [name])
  {
    assert (items + [item])[..|items|] == items;
  }

  lemma {:induction false} RetrievalEntriesNamed(tools: Tools, n: nat)
    ensures NameEntries(tools, Copies(n, RETRIEVAL_ENTRY)) == Some(Copies(n, "retrieval"))
  {
    if n > 0 {
      RetrievalEntriesNamed(tools, n - 1);
      RetrievalEntryNamed(tools);
      CopiesStep(n, RETRIEVAL_ENTRY);
      CopiesStep(n, "retrieval");
      NameEntriesStep(tools, Copies(n - 1, RETRIEVAL_ENTRY), Copies(n - 1, "retrieval"), RETRIEVAL_ENTRY, "retrieval");
    }
  }

  lemma {:induction false} PinnedRowBack(h: Hash, tools: Tools, row: Row, previous: string)
    requires NamesOnly(row)
    ensures Upgrade(row).Rewrite?
    ensures Downgrade(tools, PinnedRow(h, row, previous)) ==
            Rewrite(row.allowlist, NamedTools(EntryTexts(Items(row.allowlist))))
  {
    var n := |Items(row.allowlist)|;
    NamesOnlyRow(row);
    RetrievalEntriesNamed(tools, n);
    assert n > 0 ==> Entries(row)[0] == RETRIEVAL_ENTRY;
    assert NamesColumn(Copies(n, "retrieval")).items == row.allowlist.items;
  }

  lemma {:induction false} BackStep(h: Hash, tools: Tools, front: seq<Row>, row: Row, t: string, w: Walked, d: Walked)
    requires NamesOnly(row) && row.template == t
    requires row.previous == HeadOf(front) && row.own == RevisionHash(h, ShapeContent(row), row.previous)
    requires Restored(front, t, d) && (t in w.latest <==> front != [])
    ensures var next := Step(h, Upgrade, w, row);
            next.rows == w.rows + [next.rows[|w.rows|]] && t in next.latest &&
            Restored(front + [row], t, Step(h, DowngradeWith(tools), d, next.rows[|w.rows|]))
  {
    NamesOnlyRow(row);
    PinnedRowBack(h, tools, row, Anchor(row, w.latest));
  }

  lemma {:induction false} ChainComesBack(h: Hash, tools: Tools, chain: seq<Row>, t: string)
    requires OneTemplate(chain, t) && (forall i | 0 <= i < |chain| :: NamesOnly(chain[i]))
    requires ValidChain(h, ShapeContent, chain)
    ensures Restored(chain, t, Walk(h, DowngradeWith(tools), Walk(h, Upgrade, chain).rows))
    ensures t in Walk(h, Upgrade, chain).latest <==> chain != []
  {
    if chain != [] {
      var front, row := chain[..|chain| - 1], chain[|chain| - 1];
      assert chain == front + [row];
      ValidStep(h, ShapeContent, front, row);
      ChainComesBack(h, tools, front, t);
      var w := Walk(h, Upgrade, front);
      BackStep(h, tools, front, row, t, w, Walk(h, DowngradeWith(tools), w.rows));
      WalkOfAppend(h, DowngradeWith(tools), w.rows, Step(h, Upgrade, w, row).rows[|w.rows|]);
    }
  }

  /** Neither run raises on such a table. */
  lemma BothGoThrough(h: Hash, tools: Tools, rows: seq<Row>)
    requires forall r | r in rows :: NamesOnly(r)
    ensures !Aborts(Upgrade, rows) && !Aborts(DowngradeWith(tools), Walk(h, Upgrade, rows).rows)
  {
    var up := Walk(h, Upgrade, rows).rows;
    WalkShape(h, Upgrade, rows);
    forall i | 0 <= i < |rows| ensures Upgrade(rows[i]) != Abort && DowngradeWith(tools)(up[i]) != Abort {
      NamesOnlyRow(rows[i]);
      WalkAt(h, Upgrade, rows, i);
      PinnedRowBack(h, tools, rows[i], Anchor(rows[i], Walk(h, Upgrade, rows[..i]).latest));
    }
  }

  /**
   Downgrading after upgrading restores every allowlist and every digest of a table
   of valid chains from before the change of encoding.
   */
  lemma {:induction false} DowngradeUndoesUpgrade(h: Hash, tools: Tools, rows: seq<Row>)
    requires forall t :: ValidChain(h, ShapeContent, Chain(rows, t))
    requires forall r | r in rows :: NamesOnly(r)
    ensures Migrated(h, DowngradeWith(tools), Migrated(h, Upgrade, rows)) == rows
  {
    forall t ensures Walk(h, DowngradeWith(tools), Walk(h, Upgrade, Chain(rows, t)).rows).rows == Chain(rows, t) {
      ChainIsOfTemplate(rows, t);
      ChainComesBack(h, tools, Chain(rows, t), t);
    }
    RestoredTable(h, Upgrade, DowngradeWith(tools), rows);
    BothGoThrough(h, tools, rows);
  }
}
