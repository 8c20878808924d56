/**
 Reading the `tool_allowlist` column, a JSON value of any shape. A JSON object
 stands for an unordered record: PostgreSQL's jsonb keeps no key order.
 */
module Allowlists {
  import opened JsonText
  import opened RolePayload

  const RETRIEVAL_TOOL := "00000000-0000-0000-0000-000000000001"
  const RETRIEVAL_REVISION := "00000000-0000-0000-0000-000000000002"

  const RETRIEVAL_PIN: Pin := Pin(RETRIEVAL_TOOL, RETRIEVAL_REVISION)
  const RETRIEVAL_ENTRY: Json :=
    JObj([Field("tool_id", JStr(RETRIEVAL_TOOL)), Field("revision_id", JStr(RETRIEVAL_REVISION))])

  /** The entries of the column; anything but a list counts as an empty list. */
  function Items(column: Json): seq<Json> {
    if column.JArr? then column.items else []
  }

  /** `entry.get(key)`. */
  function Get(fields: seq<Field>, key: string): Option<Json> {
    if fields == [] then None
    else if fields[0].key == key then Some(fields[0].value)
    else Get(fields[1..], key)
  }

  /** The pin an entry holds, or none when indexing it would raise. */
  function PinOf(entry: Json): Option<Pin> {
    if !entry.JObj? then None
    else match (Get(entry.fields, "tool_id"), Get(entry.fields, "revision_id"))
      case (Some(JStr(t)), Some(JStr(r))) => Some(Pin(t, r))
      case _ => None
  }

  function PinsOf(items: seq<Json>): (pins: Option<seq<Pin>>)
    ensures pins.Some? ==> |pins.value| == |items|
  {
    if items == [] then Some([])
    else match (PinsOf(items[..|items| - 1]), PinOf(items[|items| - 1]))
      case (Some(ps), Some(p)) => Some(ps + [p])
      case _ => None
  }

  predicate IsRetrieval(entry: Json)
    requires entry.JObj?
  {
    Get(entry.fields, "tool_id") == Some(JStr(RETRIEVAL_TOOL)) &&
    Get(entry.fields, "revision_id") == Some(JStr(RETRIEVAL_REVISION))
  }

  lemma RetrievalEntryPin()
    ensures RETRIEVAL_ENTRY.JObj? && IsRetrieval(RETRIEVAL_ENTRY)
    ensures PinOf(RETRIEVAL_ENTRY) == Some(RETRIEVAL_PIN)
  {
    var fields := RETRIEVAL_ENTRY.fields;
    assert fields[0].key == "tool_id" && |fields[0].key| == 7;
    assert Get(fields, "revision_id") == Get(fields[1..], "revision_id");
  }

  lemma SinglePin(entry: Json, pin: Pin)
    requires PinOf(entry) == Some(pin)
    ensures PinsOf([entry]) == Some([pin])
  {
    var none: seq<Pin> := [];
    assert [entry][..0] == [];
    assert PinsOf([entry][..0]) == Some(none);
    assert none + [pin] == [pin];
  }

  lemma {:induction false} PinsOfObjects(items: seq<Json>)
    ensures PinsOf(items).Some? <==> forall e | e in items :: PinOf(e).Some?
  {
    if items != [] {
      PinsOfObjects(items[..|items| - 1]);
      assert items == items[..|items| - 1] + [items[|items| - 1]];
    }
  }
}
