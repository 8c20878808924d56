/**
 The command-line client as it runs (apps/cli/_agent_run.py): both parsers as
 loops, the renderer that remembers what decides the exit code, and what exit
 code a stream leads to wherever it is cut.
 */
module SseClient {
  import opened JsonText
  import opened PythonText
  import opened SseLines
  import opened SseBatch
  import opened SseWire

  const EXIT_SUCCESS := 0
  const EXIT_FAILED := 1
  const EXIT_INVARIANT_BLOCKED := 2

  // ---------------------------------------------------------------- the parsers

  /** `_iter_sse_events_from_lines`. */
  method IterEvents(loads: Loads, lines: seq<string>) returns (events: seq<Parsed>)
    ensures events == FeedLines(loads, lines).events
  {
    events := [];
    var kind: Option<string> := None;
    var data: seq<string> := [];
    var i := 0;
    while i < |lines|
      invariant 0 <= i <= |lines|
      invariant FeedLines(loads, lines[..i]) == Feed(Partial(kind, data), events)
    {
      var line := lines[i];
      assert lines[..i + 1] == lines[..i] + [line];
      FeedAppend(loads, lines[..i], line);
      i := i + 1;
      if line == "" {
        if kind.Some? && data != [] {
          var payload := loads(JoinedText(data));
          if payload == None {
            kind, data := None, [];
            continue;
          }
          if payload.value.JObj? {
            events := events + [Parsed(kind.value, payload.value)];
          }
        }
        kind, data := None, [];
        continue;
      }
      if "event: " <= line {
        kind := Some(line[7..]);
      } else if "data: " <= line {
        data := data + [line[6..]];
      }
    }
    assert lines[..i] == lines;
  }

  /** `parse_sse_block`. */
  method ParseBlock(loads: Loads, text: string) returns (event: Option<Parsed>)
    ensures event == BlockEvent(loads, text)
  {
    var lines := SplitLines(text);
    var kind: Option<string> := None;
    var data: seq<string> := [];
    var i := 0;
    while i < |lines|
      invariant 0 <= i <= |lines|
      invariant Gather(lines[..i]) == Partial(kind, data)
    {
      var line := lines[i];
      assert lines[..i + 1] == lines[..i] + [line];
      GatherAppend(lines[..i], line);
      if "event: " <= line {
        kind := Some(line[7..]);
      } else if "data: " <= line {
        data := data + [line[6..]];
      }
      i := i + 1;
    }
    assert lines[..i] == lines;
    if kind == None || data == [] {
      return None;
    }
    var payload := loads(JoinedText(data));
    if payload == None || !payload.value.JObj? {
      return None;
    }
    return Some(Parsed(kind.value, payload.value));
  }

  /** `parse_sse_body`. */
  method ParseBody(loads: Loads, body: string) returns (events: seq<Parsed>)
    ensures events == BlocksEvents(loads, Blocks(body))
    ensures LfOnly(body) ==> events == Received(loads, body + "\n\n")
  {
    events := [];
    var blocks := Blocks(body);
    var i := 0;
    while i < |blocks|
      invariant 0 <= i <= |blocks|
      invariant events == BlocksEvents(loads, blocks[..i])
    {
      NextBlock(loads, blocks, i);
      if Blank(blocks[i]) {
        BlankYieldsNothing(loads, blocks[i]);
      } else {
        var parsed := ParseBlock(loads, blocks[i]);
        if parsed.Some? {
          events := events + [parsed.value];
        }
      }
      i := i + 1;
    }
    assert blocks[..i] == blocks;
    if LfOnly(body) {
      BatchIsIncremental(loads, body);
    }
  }

  lemma {:induction false} NextBlock(loads: Loads, blocks: seq<string>, i: nat)
    requires i < |blocks|
    ensures BlocksEvents(loads, blocks[..i + 1]) ==
            BlocksEvents(loads, blocks[..i]) + Emitted(BlockEvent(loads, blocks[i]))
  {
    assert blocks[..i + 1] == blocks[..i] + [blocks[i]];
    BlocksEventsAppend(loads, blocks[..i], blocks[i]);
  }

  // ---------------------------------------------------------------- the renderer

  predicate IsTerminal(kind: string) {
    kind == "InvocationCompleted" || kind == "InvocationFailed" || kind == "InvariantBlocked"
  }

  predicate IsIteration(kind: string) { kind == "IterationCompleted" }

  function LastTerminal(events: seq<Parsed>): Option<Parsed> {
    if events == [] then None
    else if IsTerminal(events[|events| - 1].kind) then Some(events[|events| - 1])
    else LastTerminal(events[..|events| - 1])
  }

  function Iterations(events: seq<Parsed>): nat {
    if events == [] then 0
    else Iterations(events[..|events| - 1]) + if IsIteration(events[|events| - 1].kind) then 1 else 0
  }

  lemma LastTerminalAppend(events: seq<Parsed>, e: Parsed)
    ensures LastTerminal(events + [e]) == if IsTerminal(e.kind) then Some(e) else LastTerminal(events)
  {
    assert (events + [e])[..|events|] == events;
  }

  lemma IterationsAppend(events: seq<Parsed>, e: Parsed)
    ensures Iterations(events + [e]) == Iterations(events) + if IsIteration(e.kind) then 1 else 0
  {
    assert (events + [e])[..|events|] == events;
  }

  /** `exit_code`. */
  function ExitCodeOf(terminal: Option<Parsed>): int {
    match terminal
    case None => EXIT_FAILED
    case Some(e) =>
      if e.kind == "InvocationCompleted" then EXIT_SUCCESS
      else if e.kind == "InvariantBlocked" then EXIT_INVARIANT_BLOCKED
      else EXIT_FAILED
  }

  class StreamRenderer {
    var iterationCount: nat
    var terminal: Option<Parsed>
    ghost var seen: seq<Parsed>

    ghost predicate Valid()
      reads this
    {
      iterationCount == Iterations(seen) && terminal == LastTerminal(seen)
    }

    constructor ()
      ensures Valid() && seen == []
    {
      iterationCount, terminal, seen := 0, None, [];
    }

    method Consume(event: Parsed)
      requires Valid()
      modifies this
      ensures Valid() && seen == old(seen) + [event]
    {
      if IsIteration(event.kind) {
        iterationCount := iterationCount + 1;
      }
      if IsTerminal(event.kind) {
        terminal := Some(event);
      }
      LastTerminalAppend(seen, event);
      IterationsAppend(seen, event);
      seen := seen + [event];
    }

    method ExitCode() returns (code: int)
      requires Valid()
      ensures code == ExitCodeOf(LastTerminal(seen))
    {
      if terminal == None {
        return EXIT_FAILED;
      }
      var kind := terminal.value.kind;
      if kind == "InvocationCompleted" {
        return EXIT_SUCCESS;
      }
      if kind == "InvariantBlocked" {
        return EXIT_INVARIANT_BLOCKED;
      }
      return EXIT_FAILED;
    }
  }

  lemma PrefixGrows<T>(xs: seq<T>, i: nat)
    requires i < |xs|
    ensures xs[..i + 1] == xs[..i] + [xs[i]]
  {
  }

  /** `run_invocation` on a response: its status, and the lines of its body as they come. */
  method RunInvocation(loads: Loads, status: int, lines: seq<string>) returns (code: int)
    ensures code == if status >= 400 then 1 else ExitCodeOf(LastTerminal(FeedLines(loads, lines).events))
  {
    if status >= 400 {
      return EXIT_FAILED;
    }
    var renderer := new StreamRenderer();
    var events := IterEvents(loads, lines);
    var i := 0;
    while i < |events|
      invariant 0 <= i <= |events|
      invariant renderer.Valid() && renderer.seen == events[..i]
    {
      renderer.Consume(events[i]);
      PrefixGrows(events, i);
      i := i + 1;
    }
    assert events[..i] == events;
    code := renderer.ExitCode();
  }

  // ---------------------------------------------------------------- exit codes of cut streams

  /** What a run amounts to: the class of its last terminal event, failure if there is none. */
  function Outcome(events: seq<Event>): int {
    if events == [] then EXIT_FAILED
    else match events[|events| - 1].kind
      case InvocationCompleted => EXIT_SUCCESS
      case InvocationFailed => EXIT_FAILED
      case InvariantBlocked => EXIT_INVARIANT_BLOCKED
      case _ => Outcome(events[..|events| - 1])
  }

  predicate TerminalKind(k: Kind) { k.InvocationCompleted? || k.InvocationFailed? || k.InvariantBlocked? }

  lemma TerminalNames(k: Kind)
    ensures IsTerminal(KindName(k)) <==> TerminalKind(k)
    ensures KindName(k) == "InvocationCompleted" <==> k.InvocationCompleted?
    ensures KindName(k) == "InvariantBlocked" <==> k.InvariantBlocked?
  {
    assert |KindName(k)| == 16 ==> (KindName(k)[2] == 'v' <==> k.InvocationFailed? || k.InvariantBlocked?);
  }

  lemma {:induction false} ExitOfSent(events: seq<Event>)
    ensures ExitCodeOf(LastTerminal(SentAll(events))) == Outcome(events)
  {
    if events != [] {
      var front, last := events[..|events| - 1], events[|events| - 1];
      ExitOfSent(front);
      TerminalNames(last.kind);
      assert SentAll(events)[..|events| - 1] == SentAll(front);
    }
  }

  /** 0 when the last terminal event is a completion, 2 when it is a blocked invariant, 1 when it is a failure. */
  lemma {:induction false} OutcomeOfLast(events: seq<Event>, i: nat)
    requires i < |events| && TerminalKind(events[i].kind)
    requires forall j | i < j < |events| :: !TerminalKind(events[j].kind)
    ensures events[i].kind.InvocationCompleted? ==> Outcome(events) == 0
    ensures events[i].kind.InvocationFailed? ==> Outcome(events) == 1
    ensures events[i].kind.InvariantBlocked? ==> Outcome(events) == 2
  {
    if i < |events| - 1 {
      OutcomeOfLast(events[..|events| - 1], i);
    }
  }

  /** Wherever the stream is cut, the exit code is that of the events that arrived whole. */
  lemma {:induction false} CutStreamExitCode(loads: Loads, events: seq<Event>, n: nat)
    requires Inverts(loads) && AllProper(events) && n <= |Wire(events)|
    ensures ExitCodeOf(LastTerminal(Received(loads, Wire(events)[..n]))) == Outcome(events[..Arrived(events, n)])
  {
    PrefixYieldsWholeEvents(loads, events, n);
    ExitOfSent(events[..Arrived(events, n)]);
    assert SentAll(events[..Arrived(events, n)]) == SentAll(events)[..Arrived(events, n)];
  }

  lemma {:induction false} NoTerminalFails(events: seq<Event>, k: nat)
    requires k <= |events| && forall i | 0 <= i < k :: !TerminalKind(events[i].kind)
    ensures Outcome(events[..k]) == EXIT_FAILED
  {
    if k > 0 {
      NoTerminalFails(events, k - 1);
      assert events[..k][..k - 1] == events[..k - 1];
    }
  }

  lemma {:induction false} WireGrows(events: seq<Event>, j: nat)
    requires j <= |events|
    ensures |Wire(events[..j])| <= |Wire(events)|
  {
    if j < |events| {
      var front := events[..|events| - 1];
      WireGrows(front, j);
      assert front[..j] == events[..j];
    } else {
      assert events[..j] == events;
    }
  }

  lemma {:induction false} ArrivedBefore(events: seq<Event>, m: nat, n: nat)
    requires m < |events| && n < |Wire(events[..m + 1])| && n <= |Wire(events)|
    ensures Arrived(events, n) <= m
  {
    var k := Arrived(events, n);
    ArrivedMeans(events, n);
    if k > m {
      assert events[..k][..m + 1] == events[..m + 1];
      WireGrows(events[..k], m + 1);
      assert false;
    }
  }

  /** A stream cut before its first terminal event is whole counts as failed. */
  lemma {:induction false} CutBeforeTerminalFails(loads: Loads, events: seq<Event>, first: nat, n: nat)
    requires Inverts(loads) && AllProper(events) && first < |events|
    requires forall i | 0 <= i < first :: !TerminalKind(events[i].kind)
    requires n < |Wire(events[..first + 1])| && n <= |Wire(events)|
    ensures ExitCodeOf(LastTerminal(Received(loads, Wire(events)[..n]))) == 1
  {
    CutStreamExitCode(loads, events, n);
    ArrivedBefore(events, first, n);
    NoTerminalFails(events, Arrived(events, n));
  }

  /** The whole stream leads to the exit code of its last terminal event. */
  lemma {:induction false} WholeStreamExitCode(loads: Loads, events: seq<Event>)
    requires Inverts(loads) && AllProper(events)
    ensures ExitCodeOf(LastTerminal(Received(loads, Wire(events)))) == Outcome(events)
  {
    RoundTrip(loads, events);
    ExitOfSent(events);
  }

  /** In numbers: 0 for a completed run, 2 for a blocked one, 1 for a failed one. */
  lemma {:induction false} LastTerminalDecides(loads: Loads, events: seq<Event>, i: nat)
    requires Inverts(loads) && AllProper(events) && i < |events| && TerminalKind(events[i].kind)
    requires forall j | i < j < |events| :: !TerminalKind(events[j].kind)
    ensures ExitCodeOf(LastTerminal(Received(loads, Wire(events)))) ==
            if events[i].kind.InvocationCompleted? then 0 else if events[i].kind.InvariantBlocked? then 2 else 1
  {
    WholeStreamExitCode(loads, events);
    OutcomeOfLast(events, i);
  }
}
