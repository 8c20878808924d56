/**
 Migration 0010 backwards: which chains are valid under tool names afterwards, and
 what either direction puts in place of each entry.
 */
module AllowlistUnpin {
  import opened JsonText
  import opened CanonicalJson
  import opened HashChain
  import opened RolePayload
  import opened Allowlists
  import opened ChainWalk
  import opened ShapeWalk
  import opened AllowlistPin

  /** The payload of a row in the encoding by name. */
  function NamedContent(row: Row): seq<Entry> {
    Content(row.body, NamedTools(EntryTexts(Items(row.allowlist))))
  }

  /** The name-shaped rows come first. */
  ghost predicate NamesLead(chain: seq<Row>) {
    forall i, j | 0 <= i < j < |chain| :: NameShaped(chain[j]) ==> NameShaped(chain[i])
  }

  /** The chains that survive the downgrade. */
  ghost predicate Nameable(chain: seq<Row>) {
    || NamesLead(chain)
    || ((forall i | 0 <= i < |chain| :: Empty(chain[i]) || NameShaped(chain[i])) && EmptiesTogether(chain))
  }

  ghost predicate NoObjects(chain: seq<Row>) { forall i | 0 <= i < |chain| :: !ObjectShaped(chain[i]) }

  // ---------------------------------------------------------------- entry by entry

  /** The name is the tool's: its own text, or what the tools table has for the entry's tool. */
  ghost predicate NamesTool(tools: Tools, name: string, entry: Json) {
    || entry == JStr(name)
    || (entry.JObj? && exists id :: Get(entry.fields, "tool_id") == Some(JStr(id)) && IsNameOf(tools, name, id))
  }

  predicate IsNameOf(tools: Tools, name: string, id: string) {
    if id == "00000000-0000-0000-0000-000000000001" then name == "retrieval" else id in tools && tools[id] == name
  }

  lemma {:induction false} NamesOfEntries(tools: Tools, items: seq<Json>, j: nat)
    requires NameEntries(tools, items).Some? && j < |items|
    ensures NamesTool(tools, NameEntries(tools, items).value[j], items[j])
  {
    if j < |items| - 1 {
      NamesOfEntries(tools, items[..|items| - 1], j);
    } else {
      NameOfEntry(tools, items[j]);
    }
  }

  lemma NameOfEntry(tools: Tools, entry: Json)
    requires NameEntry(tools, entry).Some?
    ensures NamesTool(tools, NameEntry(tools, entry).value, entry)
  {
    if entry.JObj? {
      var id := Get(entry.fields, "tool_id").value.s;
      assert IsNameOf(tools, NameEntry(tools, entry).value, id);
    }
  }

  /** A downgraded row lists, entry by entry, the names its entries stand for; a row of names is as it was. */
  lemma {:induction false} DowngradeNames(h: Hash, tools: Tools, rows: seq<Row>, i: nat, j: nat)
    requires !Aborts(DowngradeWith(tools), rows) && i < |rows| && j < |Items(rows[i].allowlist)|
    ensures |Migrated(h, DowngradeWith(tools), rows)| == |rows|
    ensures var r := Migrated(h, DowngradeWith(tools), rows)[i];
            && r.body == rows[i].body && (NameShaped(rows[i]) ==> r == rows[i])
            && (!NameShaped(rows[i]) ==>
                  && |Items(r.allowlist)| == |Items(rows[i].allowlist)|
                  && Items(r.allowlist)[j].JStr?
                  && NamesTool(tools, Items(r.allowlist)[j].s, Items(rows[i].allowlist)[j]))
  {
    WalkAt(h, DowngradeWith(tools), rows, i);
    WalkShape(h, DowngradeWith(tools), rows);
    assert !DowngradeWith(tools)(rows[i]).Abort?;
    if !NameShaped(rows[i]) {
      NamesOfEntries(tools, Items(rows[i].allowlist), j);
    }
  }

  /** What an entry is turned into on the way up: the one known name into its pin, an object into itself. */
  ghost predicate PinsTool(pin: Json, entry: Json) {
    || (entry.JObj? && pin == entry)
    || (entry == JStr("retrieval") &&
        PinOf(pin) == Some(Pin("00000000-0000-0000-0000-000000000001", "00000000-0000-0000-0000-000000000002")))
  }

  lemma {:induction false} PinsOfEntries(items: seq<Json>, j: nat)
    requires PinEntries(items).Some? && j < |items|
    ensures PinsTool(PinEntries(items).value[j], items[j])
  {
    if j < |items| - 1 {
      PinsOfEntries(items[..|items| - 1], j);
    } else {
      RetrievalEntryPin();
    }
  }

  /** An upgraded row lists, entry by entry, the pins its entries stand for; an object-shaped row is as it was. */
  lemma {:induction false} UpgradePins(h: Hash, rows: seq<Row>, i: nat, j: nat)
    requires !Aborts(Upgrade, rows) && i < |rows| && j < |Items(rows[i].allowlist)|
    ensures |Migrated(h, Upgrade, rows)| == |rows|
    ensures var r := Migrated(h, Upgrade, rows)[i];
            && r.body == rows[i].body && (ObjectShaped(rows[i]) ==> r == rows[i])
            && (!ObjectShaped(rows[i]) ==>
                  && |Items(r.allowlist)| == |Items(rows[i].allowlist)|
                  && PinsTool(Items(r.allowlist)[j], Items(rows[i].allowlist)[j]))
  {
    WalkAt(h, Upgrade, rows, i);
    WalkShape(h, Upgrade, rows);
    assert !Upgrade(rows[i]).Abort?;
    if !ObjectShaped(rows[i]) {
      PinsOfEntries(Items(rows[i].allowlist), j);
    }
  }

  // ---------------------------------------------------------------- one row

  lemma TextsOfNames(names: seq<string>)
    ensures EntryTexts(Items(NamesColumn(names))) == names
  {
  }

  lemma {:induction false} FirstIsObject(tools: Tools, items: seq<Json>)
    requires NameEntries(tools, items).Some? && items != [] && !items[0].JStr?
    ensures items[0].JObj?
  {
    NamesOfEntries(tools, items, 0);
  }

  /** Digests over names and over pins differ unless there are no tools. */
  lemma {:induction false} NamesOverPins(h: Hash, row: Row, names: seq<string>, previous: string)
    requires Ideal(h) && WellFormedBody(row.body) && ObjectShaped(row) && names != []
    ensures RoleHash(h, row.body, NamedTools(names), previous) != RevisionHash(h, PinnedContent(row), row.previous)
  {
    SortedTextsMeaning(names, names);
    match PinsOf(Items(row.allowlist)) {
      case Some(pins) =>
        NamesAreNotPins(names, pins);
        PinnedToolsMeaning(pins, pins);
        RoleHashExact(h, row.body, NamedTools(names), previous, row.body, PinnedTools(pins), row.previous);
      case None =>
        RoleHashExact(h, row.body, NamedTools(names), previous, row.body, VNull, row.previous);
    }
  }

  /** The downgrade as a walk that skips the name-shaped rows. */
  function Unpinning(tools: Tools): Turn { Turn(DowngradeWith(tools), NameShaped, ShapeContent, NamedContent) }

  lemma {:induction false} UnpinnedRow(h: Hash, tools: Tools, row: Row, previous: string)
    requires Ideal(h) && WellFormedBody(row.body) && Downgrade(tools, row).Rewrite?
    ensures Turned(h, Unpinning(tools), row, previous)
  {
    var items := Items(row.allowlist);
    var names := NameEntries(tools, items).value;
    TextsOfNames(names);
    if Empty(row) {
      assert EntryTexts(items) == [] && names == [];
      SortedTextsMeaning(names, names);
      RoleHashExact(h, row.body, NamedTools(names), previous, row.body, NamedTools(names), row.previous);
    } else {
      FirstIsObject(tools, items);
      NamesOverPins(h, row, names, previous);
    }
  }

  lemma {:induction false} DowngradeTurns(h: Hash, tools: Tools, row: Row)
    requires Ideal(h) && WellFormedBody(row.body) && Downgrade(tools, row) != Abort
    ensures Turns(h, Unpinning(tools), row)
  {
    ShapeContentWellFormed(row);
    if !NameShaped(row) {
      forall previous ensures Turned(h, Unpinning(tools), row, previous) {
        UnpinnedRow(h, tools, row, previous);
      }
    }
  }

  // ---------------------------------------------------------------- the chains

  lemma {:induction false} UnpinOfChain(h: Hash, tools: Tools, chain: seq<Row>, t: string)
    requires Ideal(h) && OneTemplate(chain, t) && ValidChain(h, ShapeContent, chain)
    requires forall i | 0 <= i < |chain| :: WellFormedBody(chain[i].body) && Downgrade(tools, chain[i]) != Abort
    ensures ValidChain(h, NamedContent, Walk(h, DowngradeWith(tools), chain).rows) <==> Nameable(chain)
  {
    var m := Unpinning(tools);
    forall i | 0 <= i < |chain| ensures Turns(h, m, chain[i]) {
      DowngradeTurns(h, tools, chain[i]);
    }
    assert SkipsFilled(m.skips);
    ValidWhenSurvives(h, m, chain, t);
    assert Survives(NameShaped, chain) <==> Nameable(chain);
  }

  lemma {:induction false} SameUnderNames(h: Hash, row: Row)
    requires Ideal(h) && WellFormedBody(row.body)
    ensures RevisionHash(h, NamedContent(row), row.previous) == RevisionHash(h, ShapeContent(row), row.previous) <==>
            !ObjectShaped(row)
  {
    if ObjectShaped(row) {
      NamesOverPins(h, row, EntryTexts(Items(row.allowlist)), row.previous);
    }
  }

  lemma NoObjectsStep(front: seq<Row>, row: Row)
    ensures NoObjects(front + [row]) <==> NoObjects(front) && !ObjectShaped(row)
  {
    var all := front + [row];
    assert all[|front|] == row && forall i | 0 <= i < |front| :: all[i] == front[i];
  }

  /** A chain as it stands is valid under names exactly when no row of it is object-shaped. */
  lemma {:induction false} UntouchedNames(h: Hash, chain: seq<Row>)
    requires Ideal(h) && WellFormedBodies(chain) && ValidChain(h, ShapeContent, chain)
    ensures ValidChain(h, NamedContent, chain) <==> NoObjects(chain)
  {
    if chain != [] {
      var front, row := chain[..|chain| - 1], chain[|chain| - 1];
      assert chain == front + [row] && row in chain;
      ValidStep(h, ShapeContent, front, row);
      ValidStep(h, NamedContent, front, row);
      UntouchedNames(h, front);
      SameUnderNames(h, row);
      NoObjectsStep(front, row);
    }
  }

  lemma DowngradeReads(tools: Tools, rows: seq<Row>, t: string, i: nat)
    requires !Aborts(DowngradeWith(tools), rows) && WellFormedBodies(Chain(rows, t)) && i < |Chain(rows, t)|
    ensures WellFormedBody(Chain(rows, t)[i].body) && Downgrade(tools, Chain(rows, t)[i]) != Abort
  {
    var chain := Chain(rows, t);
    ChainIsOfTemplate(rows, t);
    assert chain[i] in chain;
    var k :| 0 <= k < |rows| && rows[k] == chain[i];
    assert !DowngradeWith(tools)(rows[k]).Abort?;
  }

  /**
   The downgrade makes a valid chain valid under names exactly when the chain's
   name-shaped rows lead, or when it holds no pins at all and its empty rows stand
   side by side. If some row makes the run raise, nothing is rewritten, and the
   chain has to be without pins as it is.
   */
  lemma {:induction false} DowngradeNamesChains(h: Hash, tools: Tools, rows: seq<Row>, t: string)
    requires Ideal(h) && WellFormedBodies(Chain(rows, t)) && ValidChain(h, ShapeContent, Chain(rows, t))
    ensures ValidChain(h, NamedContent, Chain(Migrated(h, DowngradeWith(tools), rows), t)) <==>
            if Aborts(DowngradeWith(tools), rows) then NoObjects(Chain(rows, t)) else Nameable(Chain(rows, t))
  {
    var chain := Chain(rows, t);
    if Aborts(DowngradeWith(tools), rows) {
      UntouchedNames(h, chain);
    } else {
      ChainIsOfTemplate(rows, t);
      WalkByTemplate(h, DowngradeWith(tools), rows, t);
      forall i | 0 <= i < |chain| ensures WellFormedBody(chain[i].body) && Downgrade(tools, chain[i]) != Abort {
        DowngradeReads(tools, rows, t, i);
      }
      UnpinOfChain(h, tools, chain, t);
    }
  }
}
