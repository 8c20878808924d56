/**
 The event stream as the server prints it
 (apps/api/adapters/sse_event_translator.py), and what survives of it on the
 client's side when the connection is cut at any point.
 */
module SseWire {
  import opened JsonText
  import opened Decimals
  import opened CanonicalJson
  import opened SseLines

  // ---------------------------------------------------------------- the server's side

  /** A field of an event after `dataclasses.asdict`. Times come as ISO text; enums come with their value. */
  datatype Raw =
    | RNull
    | RBool(b: bool)
    | RInt(n: int)
    | RText(s: string)
    | RUuid(u: Uuid)
    | RDecimal(d: PlainDecimal)
    | RTime(iso: string)
    | REnum(value: Json)
    | RList(items: seq<Raw>)
    | RDict(entries: seq<RawEntry>)

  datatype RawEntry = RawEntry(key: string, value: Raw)

  /** The digits with the decimal point after the first `dot` of them. */
  function Positional(digits: string, dot: int): string {
    if dot <= 0 then "0." + Zeros(-dot) + digits
    else if dot >= |digits| then digits + Zeros(dot - |digits|)
    else digits[..dot] + "." + digits[dot..]
  }

  function PowerText(power: int): string {
    if power == 0 then "" else if power > 0 then "E+" + IntText(power) else "E" + IntText(power)
  }

  /** Positional, or scientific when the exponent is positive or very negative. */
  function MagnitudeText(d: PlainDecimal): string {
    var digits := Digits(d.coefficient);
    var lead := d.exponent + |digits|;
    var dot := if d.exponent <= 0 && lead > -6 then lead else 1;
    Positional(digits, dot) + PowerText(lead - dot)
  }

  /** Python's `str(d)`. */
  function DecimalStr(d: PlainDecimal): string {
    (if d.negative then "-" else "") + MagnitudeText(d)
  }

  function JsonSafe(v: Raw): Json {
    match v
    case RNull => JNull
    case RBool(b) => JBool(b)
    case RInt(n) => JInt(n)
    case RText(s) => JStr(s)
    case RUuid(u) => JStr(UuidText(u))
    case RDecimal(d) => JStr(DecimalStr(d))
    case RTime(iso) => JStr(iso)
    case REnum(value) => value
    case RList(items) => JArr(seq(|items|, i requires 0 <= i < |items| => JsonSafe(items[i])))
    case RDict(entries) =>
      JObj(seq(|entries|, i requires 0 <= i < |entries| => Field(entries[i].key, JsonSafe(entries[i].value))))
  }

  /** The eleven event types. */
  datatype Kind =
    | InvocationStarted
    | IterationStarted
    | LLMCallStarted
    | ContentDelta
    | ToolCallProposed
    | ToolCallExecuting
    | ToolCallCompleted
    | IterationCompleted
    | InvocationCompleted
    | InvocationFailed
    | InvariantBlocked

  function KindName(k: Kind): string {
    match k
    case InvocationStarted => "InvocationStarted"
    case IterationStarted => "IterationStarted"
    case LLMCallStarted => "LLMCallStarted"
    case ContentDelta => "ContentDelta"
    case ToolCallProposed => "ToolCallProposed"
    case ToolCallExecuting => "ToolCallExecuting"
    case ToolCallCompleted => "ToolCallCompleted"
    case IterationCompleted => "IterationCompleted"
    case InvocationCompleted => "InvocationCompleted"
    case InvocationFailed => "InvocationFailed"
    case InvariantBlocked => "InvariantBlocked"
  }

  datatype Event = Event(kind: Kind, fields: seq<RawEntry>)

  function Payload(e: Event): Json { JsonSafe(RDict(e.fields)) }

  function FrameOf(e: Event): Frame { Frame(KindName(e.kind), Dumps(Payload(e))) }

  function Translate(e: Event): string {
    "event: " + KindName(e.kind) + "\n" + "data: " + Dumps(Payload(e)) + "\n\n"
  }

  /** The stream of a run: its events' blocks, one after another. */
  function Wire(events: seq<Event>): string {
    if events == [] then "" else Wire(events[..|events| - 1]) + Translate(events[|events| - 1])
  }

  // ---------------------------------------------------------------- from events to blocks

  /** The parser inverts the printer on trees without repeated keys. */
  ghost predicate Inverts(loads: Loads) {
    forall j | WellKeyed(j) :: loads(Dumps(j)) == Some(j)
  }

  /** The hypothesis on the parser can be met: the printer's own inverse does. */
  lemma DecodeInverts()
    ensures Inverts(Decode)
  {
    forall j | WellKeyed(j) ensures Decode(Dumps(j)) == Some(j) {
      DecodeOfDumps(j);
    }
  }

  /** No dict of the event repeats a key. */
  ghost predicate Proper(e: Event) { WellKeyed(Payload(e)) }

  ghost predicate AllProper(events: seq<Event>) { forall i | 0 <= i < |events| :: Proper(events[i]) }

  /** The event as the client is to see it. */
  function Sent(e: Event): Parsed { Parsed(KindName(e.kind), Payload(e)) }

  function SentAll(events: seq<Event>): (r: seq<Parsed>)
    ensures |r| == |events|
  {
    seq(|events|, i requires 0 <= i < |events| => Sent(events[i]))
  }

  function FramesOf(events: seq<Event>): (r: seq<Frame>)
    ensures |r| == |events|
  {
    seq(|events|, i requires 0 <= i < |events| => FrameOf(events[i]))
  }

  lemma KindNameIsOneLine(k: Kind)
    ensures OneLine(KindName(k))
  {
  }

  lemma DumpsIsOneLine(j: Json)
    ensures OneLine(Dumps(j))
  {
    DumpsPrintable(j);
  }

  lemma FrameReadable(loads: Loads, e: Event)
    requires Inverts(loads) && Proper(e)
    ensures Readable(loads, FrameOf(e)) && EventOf(loads, FrameOf(e)) == Sent(e)
  {
    KindNameIsOneLine(e.kind);
    DumpsIsOneLine(Payload(e));
  }

  lemma TranslateIsBlock(e: Event)
    ensures Translate(e) == BlockText(FrameOf(e))
  {
  }

  lemma {:induction false} FramesReadable(loads: Loads, events: seq<Event>)
    requires Inverts(loads) && AllProper(events)
    ensures AllReadable(loads, FramesOf(events)) && EventsOf(loads, FramesOf(events)) == SentAll(events)
  {
    forall i | 0 <= i < |events|
      ensures Readable(loads, FramesOf(events)[i]) && EventOf(loads, FramesOf(events)[i]) == Sent(events[i])
    {
      FrameReadable(loads, events[i]);
    }
  }

  lemma {:induction false} WireIsStream(events: seq<Event>)
    ensures Wire(events) == StreamText(FramesOf(events))
  {
    if events != [] {
      var front, last := events[..|events| - 1], events[|events| - 1];
      WireIsStream(front);
      TranslateIsBlock(last);
      assert FramesOf(events)[..|events| - 1] == FramesOf(front);
    }
  }

  // ---------------------------------------------------------------- cutting the stream

  /** How many events have their whole block, blank line included, within the first `n` characters. */
  function Arrived(events: seq<Event>, n: nat): (k: nat)
    ensures k <= |events|
  {
    Whole(FramesOf(events), n)
  }

  /** `Arrived` counts the blocks that end by position `n`. */
  lemma ArrivedMeans(events: seq<Event>, n: nat)
    ensures var k := Arrived(events, n);
            |Wire(events[..k])| <= n && (k < |events| ==> n < |Wire(events[..k + 1])|)
  {
    var k := Arrived(events, n);
    WholeFits(FramesOf(events), n);
    FramesOfPrefix(events, k);
    WireIsStream(events[..k]);
    if k < |events| {
      NextDoesNotFit(FramesOf(events), n);
      FramesOfPrefix(events, k + 1);
      WireIsStream(events[..k + 1]);
    }
  }

  lemma FramesOfPrefix(events: seq<Event>, k: nat)
    requires k <= |events|
    ensures FramesOf(events[..k]) == FramesOf(events)[..k]
  {
  }

  /**
   Of any prefix of the stream, the client yields exactly the events whose whole
   block, blank line included, lies in the prefix, in order, each with the payload
   that was sent.
   */
  lemma {:induction false} PrefixYieldsWholeEvents(loads: Loads, events: seq<Event>, n: nat)
    requires Inverts(loads) && AllProper(events) && n <= |Wire(events)|
    ensures Received(loads, Wire(events)[..n]) == SentAll(events)[..Arrived(events, n)]
  {
    WireIsStream(events);
    FramesReadable(loads, events);
    PrefixYieldsWholeBlocks(loads, FramesOf(events), n);
  }

  /** The whole stream yields the whole run. */
  lemma {:induction false} RoundTrip(loads: Loads, events: seq<Event>)
    requires Inverts(loads) && AllProper(events)
    ensures Received(loads, Wire(events)) == SentAll(events)
  {
    WireIsStream(events);
    WholeAll(FramesOf(events), |Wire(events)|);
    PrefixYieldsWholeEvents(loads, events, |Wire(events)|);
    assert Wire(events)[..|Wire(events)|] == Wire(events);
    assert SentAll(events)[..|events|] == SentAll(events);
  }
}
