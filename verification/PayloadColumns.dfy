/**
 What a reader of a hashed payload finds in it, key by key: each column of the
 revision under its own name, lists in ascending order.
 */
module PayloadColumns {
  import opened JsonText
  import opened Decimals
  import opened Sorting
  import opened CanonicalJson
  import opened HashChain
  import opened RolePayload
  import opened MethodologyPayload

  // ---------------------------------------------------------------- lists

  ghost predicate NotAfter(a: string, b: string) { a == b || Before(a, b) }

  /** The data is a list of texts: those of `xs`, in ascending order. */
  ghost predicate ListsTexts(d: Data, xs: seq<string>) {
    exists ys :: multiset(ys) == multiset(xs) && TextsInOrder(d, ys)
  }

  ghost predicate TextsInOrder(d: Data, ys: seq<string>) {
    && d.DList? && |d.items| == |ys|
    && (forall i | 0 <= i < |ys| :: d.items[i] == DText(ys[i]))
    && (forall i, j | 0 <= i < j < |ys| :: NotAfter(ys[i], ys[j]))
  }

  lemma NamedToolsRead(names: seq<string>)
    ensures ListsTexts(PayloadMeaning(NamedTools(names)), names)
  {
    var ys := Sort(names, TextLeq);
    SortPermutes(names, TextLeq);
    TextOrder();
    SortSorted(names, TextLeq);
    ListMeaning(Texts(ys).items);
    forall i, j | 0 <= i < j < |ys| ensures NotAfter(ys[i], ys[j]) {
      assert TextLeq(ys[i], ys[j]);
      TextLeqIsBefore(ys[i], ys[j]);
    }
    assert TextsInOrder(PayloadMeaning(NamedTools(names)), ys);
  }

  function PinData(p: Pin): Data { DDict(map["tool_id" := DText(p.tool), "revision_id" := DText(p.revision)]) }

  /** The data is a list of pins: those of `ps`, ascending by tool, and by revision where the tool is the same. */
  ghost predicate ListsPins(d: Data, ps: seq<Pin>) {
    exists qs :: multiset(qs) == multiset(ps) && PinsInOrder(d, qs)
  }

  ghost predicate PinsInOrder(d: Data, qs: seq<Pin>) {
    && d.DList? && |d.items| == |qs|
    && (forall i | 0 <= i < |qs| :: d.items[i] == PinData(qs[i]))
    && (forall i, j | 0 <= i < j < |qs| ::
          Before(qs[i].tool, qs[j].tool) || (qs[i].tool == qs[j].tool && NotAfter(qs[i].revision, qs[j].revision)))
  }

  lemma {:induction false} TwoFields(a: Entry, b: Entry)
    requires a.key != b.key
    ensures EntriesMeaning([a, b]) == map[a.key := PayloadMeaning(a.value), b.key := PayloadMeaning(b.value)]
  {
    MeaningOfAppend([a], b);
    MeaningOfAppend([], a);
    assert [] + [a] == [a] && [a] + [b] == [a, b];
    assert EntriesMeaning([]) == map[];
  }

  lemma PinRead(p: Pin)
    ensures PayloadMeaning(PinValue(p)) == PinData(p)
  {
    var a, b := Entry("tool_id", VText(p.tool)), Entry("revision_id", VText(p.revision));
    assert |a.key| == 7 && |b.key| == 11;
    TwoFields(a, b);
    assert PayloadMeaning(PinValue(p)) == DDict(EntriesMeaning([a, b]));
  }

  lemma PinnedToolsRead(pins: seq<Pin>)
    ensures ListsPins(PayloadMeaning(PinnedTools(pins)), pins)
  {
    var qs := Sort(pins, PinLeq);
    SortPermutes(pins, PinLeq);
    PinOrder();
    SortSorted(pins, PinLeq);
    ListMeaning(PinValues(qs).items);
    forall i | 0 <= i < |qs| ensures PayloadMeaning(PinValues(qs).items[i]) == PinData(qs[i]) {
      PinRead(qs[i]);
    }
    forall i, j | 0 <= i < j < |qs|
      ensures Before(qs[i].tool, qs[j].tool) || (qs[i].tool == qs[j].tool && NotAfter(qs[i].revision, qs[j].revision))
    {
      assert PinLeq(qs[i], qs[j]);
      TextLeqIsBefore(qs[i].tool, qs[j].tool);
      TextLeqIsBefore(qs[i].revision, qs[j].revision);
    }
    assert PinsInOrder(PayloadMeaning(PinnedTools(pins)), qs);
  }

  // ---------------------------------------------------------------- a role's payload

  lemma {:induction false} EntryRead(c: seq<Entry>, i: nat)
    requires DistinctEntries(c) && i < |c| && forall e | e in c :: e.key != PREVIOUS
    ensures c[i].key in ContentMeaning(c) && ContentMeaning(c)[c[i].key] == PayloadMeaning(c[i].value)
  {
    KeysOfMeaning(c);
    FieldsMeaningAt(EraseEntries(c), i);
  }

  lemma {:induction false} ColumnIs(b: Body, tools: Value, i: nat, key: string, value: Value)
    requires i < |Content(b, tools)| && Content(b, tools)[i] == Entry(key, value)
    ensures Under(ContentMeaning(Content(b, tools)), key, PayloadMeaning(value))
  {
    ContentKeys(b, tools);
    EntryRead(Content(b, tools), i);
  }

  /** Under the key stands this. */
  predicate Under(m: map<string, Data>, key: string, d: Data) { key in m && m[key] == d }

  lemma TextColumns(b: Body, tools: Value)
    ensures var m := ContentMeaning(Content(b, tools));
            && Under(m, "name", DText(b.name))
            && Under(m, "description", DText(if b.description.Some? then b.description.value else ""))
            && Under(m, "system_prompt", DText(b.systemPrompt))
            && Under(m, "model_selection", DText(b.modelSelection))
  {
    ColumnIs(b, tools, 0, "name", VText(b.name));
    ColumnIs(b, tools, 1, "description", VText(DescriptionText(b)));
    ColumnIs(b, tools, 2, "system_prompt", VText(b.systemPrompt));
    ColumnIs(b, tools, 9, "model_selection", VText(b.modelSelection));
  }

  lemma NumberColumns(b: Body, tools: Value)
    ensures var m := ContentMeaning(Content(b, tools));
            && Under(m, "top_k", DInt(b.topK))
            && "min_score" in m && m["min_score"].DText? && SameNumber(ReadFixed(m["min_score"].s), b.minScore)
  {
    ColumnIs(b, tools, 7, "top_k", VInt(b.topK));
    ColumnIs(b, tools, 8, "min_score", VDecimal(b.minScore));
    DecimalTextReads(b.minScore);
  }

  lemma OtherColumns(b: Body, tools: Value)
    ensures var m := ContentMeaning(Content(b, tools));
            && "source_ids" in m && ListsTexts(m["source_ids"], b.sourceIds)
            && Under(m, "tool_allowlist", PayloadMeaning(tools))
            && Under(m, "retrieval_strategy", PayloadMeaning(VDict(b.retrievalStrategy)))
            && Under(m, "filter_tree", PayloadMeaning(VDict(b.filterTree)))
  {
    ColumnIs(b, tools, 3, "source_ids", NamedTools(b.sourceIds));
    ColumnIs(b, tools, 4, "tool_allowlist", tools);
    ColumnIs(b, tools, 5, "retrieval_strategy", VDict(b.retrievalStrategy));
    ColumnIs(b, tools, 6, "filter_tree", VDict(b.filterTree));
    NamedToolsRead(b.sourceIds);
  }

  const ROLE_COLUMNS: seq<string> := [
    "name", "description", "system_prompt", "source_ids", "tool_allowlist",
    "retrieval_strategy", "filter_tree", "top_k", "min_score", "model_selection"]

  lemma RoleKeys(b: Body, tools: Value)
    ensures |Content(b, tools)| == |ROLE_COLUMNS| == 10
    ensures forall i | 0 <= i < 10 :: Content(b, tools)[i].key == ROLE_COLUMNS[i]
  {
  }

  lemma {:induction false} KeysAre(c: seq<Entry>, names: seq<string>)
    requires |c| == |names| && forall i | 0 <= i < |c| :: c[i].key == names[i]
    requires forall e | e in c :: e.key != PREVIOUS
    ensures forall k :: k in ContentMeaning(c) <==> k in names
  {
    KeysOfMeaning(c);
    FieldsMeaningKeys(EraseEntries(c));
    forall k ensures k in ContentMeaning(c) <==> k in names {
      if i :| 0 <= i < |c| && EraseEntries(c)[i].key == k {
        assert names[i] == k;
      }
      if i :| 0 <= i < |names| && names[i] == k {
        assert EraseEntries(c)[i].key == k;
      }
    }
  }

  /**
   A reader of a role's payload finds under each column's name the column: texts and
   numbers as they are, dicts as mappings, source ids in order, and nothing else.
   */
  lemma ColumnsRead(b: Body, tools: Value)
    ensures var m := ContentMeaning(Content(b, tools));
            && (forall k :: k in m <==> k in ROLE_COLUMNS)
            && Under(m, "name", DText(b.name))
            && Under(m, "description", DText(if b.description.Some? then b.description.value else ""))
            && Under(m, "system_prompt", DText(b.systemPrompt))
            && "source_ids" in m && ListsTexts(m["source_ids"], b.sourceIds)
            && Under(m, "tool_allowlist", PayloadMeaning(tools))
            && Under(m, "retrieval_strategy", PayloadMeaning(VDict(b.retrievalStrategy)))
            && Under(m, "filter_tree", PayloadMeaning(VDict(b.filterTree)))
            && Under(m, "top_k", DInt(b.topK))
            && "min_score" in m && m["min_score"].DText? && SameNumber(ReadFixed(m["min_score"].s), b.minScore)
            && Under(m, "model_selection", DText(b.modelSelection))
  {
    RoleKeys(b, tools);
    ContentKeys(b, tools);
    KeysAre(Content(b, tools), ROLE_COLUMNS);
    TextColumns(b, tools);
    NumberColumns(b, tools);
    OtherColumns(b, tools);
  }

  // ---------------------------------------------------------------- a methodology's payload

  function RefData(r: Ref): Data {
    DDict(map["role_id" := DText(r.role), "role_version" := DInt(r.version),
      "overrides" := PayloadMeaning(r.overrides)])
  }

  /** The data is a list of references: those of `refs`, ascending by role. */
  ghost predicate ListsRefs(d: Data, refs: seq<Ref>) {
    exists qs :: multiset(qs) == multiset(refs) && RefsInOrder(d, qs)
  }

  ghost predicate RefsInOrder(d: Data, qs: seq<Ref>) {
    && d.DList? && |d.items| == |qs|
    && (forall i | 0 <= i < |qs| :: d.items[i] == RefData(qs[i]))
    && (forall i, j | 0 <= i < j < |qs| :: NotAfter(qs[i].role, qs[j].role))
  }

  lemma RefRead(r: Ref)
    ensures PayloadMeaning(VDict(RefEntries(r))) == RefData(r)
  {
    var a, b, c := RefEntries(r)[0], RefEntries(r)[1], RefEntries(r)[2];
    assert |a.key| == 7 && |b.key| == 12 && |c.key| == 9;
    TwoFields(a, b);
    MeaningOfAppend([a, b], c);
    assert [a, b] + [c] == RefEntries(r);
    assert PayloadMeaning(VDict(RefEntries(r))) == DDict(EntriesMeaning(RefEntries(r)));
  }

  lemma RefOrder()
    ensures Order(RefLeq)
  {
    TextOrder();
  }

  lemma RefsRead(refs: seq<Ref>)
    ensures ListsRefs(PayloadMeaning(VList(RefValues(Sort(refs, RefLeq)))), refs)
  {
    var qs := Sort(refs, RefLeq);
    SortPermutes(refs, RefLeq);
    RefOrder();
    SortSorted(refs, RefLeq);
    ListMeaning(RefValues(qs));
    forall i | 0 <= i < |qs| ensures PayloadMeaning(RefValues(qs)[i]) == RefData(qs[i]) {
      RefRead(qs[i]);
    }
    forall i, j | 0 <= i < j < |qs| ensures NotAfter(qs[i].role, qs[j].role) {
      assert RefLeq(qs[i], qs[j]);
      TextLeqIsBefore(qs[i].role, qs[j].role);
    }
    assert RefsInOrder(PayloadMeaning(VList(RefValues(qs))), qs);
  }

  const METHODOLOGY_COLUMNS: seq<string> := ["name", "description", "role_refs"]

  lemma MethodologyKeys(name: string, description: Option<string>, refs: seq<Ref>)
    ensures var c := MethodologyContent(name, description, refs);
            |c| == 3 && (forall i | 0 <= i < 3 :: c[i].key == METHODOLOGY_COLUMNS[i])
  {
  }

  /** A reader of a methodology's payload finds its name, its description and its references, ascending by role. */
  lemma PlaybookRead(name: string, description: Option<string>, refs: seq<Ref>)
    ensures var m := ContentMeaning(MethodologyContent(name, description, refs));
            && (forall k :: k in m <==> k in METHODOLOGY_COLUMNS)
            && Under(m, "name", DText(name))
            && Under(m, "description", DText(if description.Some? then description.value else ""))
            && "role_refs" in m && ListsRefs(m["role_refs"], refs)
  {
    var c := MethodologyContent(name, description, refs);
    MethodologyCoded(name, description, refs);
    CodesTellApart(c, METHODOLOGY_CODES);
    MethodologyKeys(name, description, refs);
    KeysAre(c, METHODOLOGY_COLUMNS);
    EntryRead(c, 0);
    EntryRead(c, 1);
    EntryRead(c, 2);
    RefsRead(refs);
  }
}
