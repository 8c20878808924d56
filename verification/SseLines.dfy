/**
 The event stream as the client reads it (apps/cli/_agent_run.py): how a text
 falls into lines, what the incremental parser makes of them, and what it has
 yielded at any point of a stream of `event:`/`data:` blocks.
 */
module SseLines {
  import opened JsonText

  // ---------------------------------------------------------------- lines

  /** The lines that have ended, and the text since the last of them. */
  datatype Cut = Cut(lines: seq<string>, tail: string)

  function CutLines(s: string): Cut {
    if s == "" then Cut([], "")
    else
      var before, c := CutLines(s[..|s| - 1]), s[|s| - 1];
      if c == '\n' then Cut(before.lines + [before.tail], "") else Cut(before.lines, before.tail + [c])
  }

  /** Splitting at line feeds; an empty piece at the end is not a line. */
  function Lines(s: string): seq<string> {
    var cut := CutLines(s);
    if cut.tail == "" then cut.lines else cut.lines + [cut.tail]
  }

  // ---------------------------------------------------------------- the client's side

  datatype Parsed = Parsed(kind: string, data: Json)

  /** The event type and data lines gathered since the last blank line. */
  datatype Partial = Partial(kind: Option<string>, data: seq<string>)

  const NOTHING := Partial(None, [])

  /** `"".join(data_lines)`. */
  function JoinedText(data: seq<string>): string {
    if data == [] then "" else JoinedText(data[..|data| - 1]) + data[|data| - 1]
  }

  function AddLine(p: Partial, line: string): Partial {
    if "event: " <= line then p.(kind := Some(line[7..]))
    else if "data: " <= line then p.(data := p.data + [line[6..]])
    else p
  }

  /** The event a finished block stands for, if any. */
  function Complete(loads: Loads, p: Partial): Option<Parsed> {
    if p.kind == None || p.data == [] then None
    else match loads(JoinedText(p.data))
      case Some(JObj(fields)) => Some(Parsed(p.kind.value, JObj(fields)))
      case _ => None
  }

  datatype Feed = Feed(partial: Partial, events: seq<Parsed>)

  function Emitted(e: Option<Parsed>): seq<Parsed> {
    match e case None => [] case Some(x) => [x]
  }

  function FeedLine(loads: Loads, f: Feed, line: string): Feed {
    if line == "" then Feed(NOTHING, f.events + Emitted(Complete(loads, f.partial)))
    else f.(partial := AddLine(f.partial, line))
  }

  /** What the incremental parser has yielded and holds after these lines. */
  function FeedLines(loads: Loads, lines: seq<string>): Feed {
    if lines == [] then Feed(NOTHING, [])
    else FeedLine(loads, FeedLines(loads, lines[..|lines| - 1]), lines[|lines| - 1])
  }

  /** The events the incremental parser yields for a text received so far. */
  function Received(loads: Loads, s: string): seq<Parsed> {
    FeedLines(loads, Lines(s)).events
  }

  // ---------------------------------------------------------------- facts about lines

  lemma CutAppendChar(s: string, c: char)
    ensures CutLines(s + [c]) ==
            if c == '\n' then Cut(CutLines(s).lines + [CutLines(s).tail], "")
            else Cut(CutLines(s).lines, CutLines(s).tail + [c])
  {
    assert (s + [c])[..|s|] == s;
  }

  predicate OneLine(s: string) { '\n' !in s }

  lemma Snoc(a: string, x: string)
    requires x != ""
    ensures a + x == a + x[..|x| - 1] + [x[|x| - 1]]
  {
  }

  lemma {:induction false} CutAppendText(s: string, x: string)
    requires OneLine(x)
    ensures CutLines(s + x) == Cut(CutLines(s).lines, CutLines(s).tail + x)
  {
    if x == "" {
      assert s + x == s && CutLines(s).tail + x == CutLines(s).tail;
    } else {
      var y, c := x[..|x| - 1], x[|x| - 1];
      assert OneLine(y) && c in x;
      CutAppendText(s, y);
      CutAppendChar(s + y, c);
      Snoc(s, x);
      Snoc(CutLines(s).tail, x);
    }
  }

  lemma CutAppendLine(s: string, x: string)
    requires OneLine(x)
    ensures CutLines(s + x + "\n") == Cut(CutLines(s).lines + [CutLines(s).tail + x], "")
  {
    CutAppendText(s, x);
    CutAppendChar(s + x, '\n');
  }

  lemma FeedAppend(loads: Loads, lines: seq<string>, line: string)
    ensures FeedLines(loads, lines + [line]) == FeedLine(loads, FeedLines(loads, lines), line)
  {
    assert (lines + [line])[..|lines|] == lines;
  }

  /** A line that has not ended yields nothing. */
  lemma ReceivedIsOfEndedLines(loads: Loads, s: string)
    ensures Received(loads, s) == FeedLines(loads, CutLines(s).lines).events
  {
    if CutLines(s).tail != "" {
      FeedAppend(loads, CutLines(s).lines, CutLines(s).tail);
    }
  }

  // ---------------------------------------------------------------- one block

  /** A block on the wire. */
  datatype Frame = Frame(name: string, data: string)

  function EventLine(f: Frame): string { "event: " + f.name }

  function DataLine(f: Frame): string { "data: " + f.data }

  function BlockText(f: Frame): string { EventLine(f) + "\n" + DataLine(f) + "\n\n" }

  /** A block the parser makes an event of. */
  predicate Readable(loads: Loads, f: Frame) {
    OneLine(f.name) && OneLine(f.data) && match loads(f.data) case Some(JObj(_)) => true case _ => false
  }

  function EventOf(loads: Loads, f: Frame): Parsed
    requires Readable(loads, f)
  {
    Parsed(f.name, loads(f.data).value)
  }

  lemma AddEventLine(p: Partial, f: Frame)
    ensures AddLine(p, EventLine(f)) == p.(kind := Some(f.name))
    ensures EventLine(f) != "" && (OneLine(f.name) ==> OneLine(EventLine(f)))
  {
    assert EventLine(f)[7..] == f.name;
  }

  lemma AddDataLine(p: Partial, f: Frame)
    ensures AddLine(p, DataLine(f)) == p.(data := p.data + [f.data])
    ensures DataLine(f) != "" && (OneLine(f.data) ==> OneLine(DataLine(f)))
  {
    assert DataLine(f)[0] == 'd';
    assert DataLine(f)[6..] == f.data;
  }

  lemma JoinedTextOne(x: string)
    ensures JoinedText([x]) == x
  {
    assert JoinedText([x][..0]) == "";
  }

  lemma CompleteFrame(loads: Loads, f: Frame)
    requires Readable(loads, f)
    ensures Complete(loads, Partial(Some(f.name), [f.data])) == Some(EventOf(loads, f))
  {
    JoinedTextOne(f.data);
  }

  /** Where the parser stands after a text: between lines, holding `p`, having yielded `events`. */
  ghost predicate Stands(loads: Loads, s: string, p: Partial, events: seq<Parsed>) {
    CutLines(s).tail == "" && FeedLines(loads, CutLines(s).lines) == Feed(p, events)
  }

  lemma StandsAfterLine(loads: Loads, s: string, p: Partial, events: seq<Parsed>, line: string)
    requires Stands(loads, s, p, events) && OneLine(line)
    ensures line != "" ==> Stands(loads, s + line + "\n", AddLine(p, line), events)
    ensures line == "" ==> Stands(loads, s + line + "\n", NOTHING, events + Emitted(Complete(loads, p)))
  {
    CutAppendLine(s, line);
    FeedAppend(loads, CutLines(s).lines, line);
    assert "" + line == line;
  }

  /** Text since the last line's end yields nothing. */
  lemma ReceivedAtTail(loads: Loads, s: string, p: Partial, events: seq<Parsed>, x: string)
    requires Stands(loads, s, p, events) && OneLine(x)
    ensures Received(loads, s + x) == events
  {
    CutAppendText(s, x);
    ReceivedIsOfEndedLines(loads, s + x);
  }

  lemma Unpack(s: string, a: string, b: string)
    ensures s + (a + "\n" + b + "\n\n") == s + a + "\n" + b + "\n" + "" + "\n"
  {
  }

  lemma WholeBlock(loads: Loads, s: string, events: seq<Parsed>, f: Frame)
    requires Stands(loads, s, NOTHING, events) && Readable(loads, f)
    ensures Stands(loads, s + BlockText(f), NOTHING, events + [EventOf(loads, f)])
  {
    AddEventLine(NOTHING, f);
    var p := Partial(Some(f.name), []);
    AddDataLine(p, f);
    assert p.data + [f.data] == [f.data];
    StandsAfterLine(loads, s, NOTHING, events, EventLine(f));
    StandsAfterLine(loads, s + EventLine(f) + "\n", p, events, DataLine(f));
    var t := s + EventLine(f) + "\n" + DataLine(f) + "\n";
    StandsAfterLine(loads, t, Partial(Some(f.name), [f.data]), events, "");
    CompleteFrame(loads, f);
    Unpack(s, EventLine(f), DataLine(f));
  }

  lemma PrefixIsOneLine(x: string, n: nat)
    requires OneLine(x) && n <= |x|
    ensures OneLine(x[..n])
  {
  }

  /** Cutting a text of three parts. */
  lemma PrefixOfParts(a: string, b: string, n: nat)
    requires n < |a| + 1 + |b| + 2
    ensures n <= |a| ==> (a + "\n" + b + "\n\n")[..n] == a[..n]
    ensures |a| < n <= |a| + 1 + |b| ==> (a + "\n" + b + "\n\n")[..n] == a + "\n" + b[..n - |a| - 1]
    ensures |a| + 1 + |b| < n ==> (a + "\n" + b + "\n\n")[..n] == a + "\n" + b + "\n"
  {
  }

  lemma Glue(s: string, a: string, x: string)
    ensures s + (a + "\n" + x) == s + a + "\n" + x
  {
  }

  /** Anything short of the whole block yields nothing. */
  lemma PartOfBlock(loads: Loads, s: string, events: seq<Parsed>, f: Frame, n: nat)
    requires Stands(loads, s, NOTHING, events) && OneLine(f.name) && OneLine(f.data) && n < |BlockText(f)|
    ensures Received(loads, s + BlockText(f)[..n]) == events
  {
    var a, b := EventLine(f), DataLine(f);
    AddEventLine(NOTHING, f);
    AddDataLine(Partial(Some(f.name), []), f);
    PrefixOfParts(a, b, n);
    if n <= |a| {
      PrefixIsOneLine(a, n);
      ReceivedAtTail(loads, s, NOTHING, events, a[..n]);
    } else {
      StandsAfterLine(loads, s, NOTHING, events, a);
      PartOfData(loads, s, events, f, n);
    }
  }

  lemma PartOfData(loads: Loads, s: string, events: seq<Parsed>, f: Frame, n: nat)
    requires Stands(loads, s + EventLine(f) + "\n", AddLine(NOTHING, EventLine(f)), events)
    requires OneLine(f.data) && |EventLine(f)| < n < |BlockText(f)|
    ensures Received(loads, s + BlockText(f)[..n]) == events
  {
    var a, b := EventLine(f), DataLine(f);
    var p := AddLine(NOTHING, a);
    AddDataLine(p, f);
    PrefixOfParts(a, b, n);
    if n <= |a| + 1 + |b| {
      var x := b[..n - |a| - 1];
      PrefixIsOneLine(b, n - |a| - 1);
      Glue(s, a, x);
      ReceivedAtTail(loads, s + a + "\n", p, events, x);
    } else {
      Glue(s, a, b + "\n");
      assert a + "\n" + (b + "\n") == a + "\n" + b + "\n";
      StandsAfterLine(loads, s + a + "\n", p, events, b);
      assert s + a + "\n" + b + "\n" + "" == s + a + "\n" + (b + "\n");
      ReceivedAtTail(loads, s + a + "\n" + b + "\n", AddLine(p, b), events, "");
    }
  }

  // ---------------------------------------------------------------- a stream of blocks

  function StreamText(frames: seq<Frame>): string {
    if frames == [] then "" else StreamText(frames[..|frames| - 1]) + BlockText(frames[|frames| - 1])
  }

  predicate AllReadable(loads: Loads, frames: seq<Frame>) {
    forall i | 0 <= i < |frames| :: Readable(loads, frames[i])
  }

  function EventsOf(loads: Loads, frames: seq<Frame>): (r: seq<Parsed>)
    requires AllReadable(loads, frames)
    ensures |r| == |frames|
  {
    seq(|frames|, i requires 0 <= i < |frames| => EventOf(loads, frames[i]))
  }

  /** How many blocks lie whole within the first `n` characters. */
  function Whole(frames: seq<Frame>, n: nat): (k: nat)
    ensures k <= |frames|
  {
    if frames == [] then 0
    else if |StreamText(frames)| <= n then |frames|
    else Whole(frames[..|frames| - 1], n)
  }

  lemma SliceOfSlice<T>(xs: seq<T>, m: nat, k: nat)
    requires k <= m <= |xs|
    ensures xs[..m][..k] == xs[..k]
  {
  }

  lemma {:induction false} WholeFits(frames: seq<Frame>, n: nat)
    ensures |StreamText(frames[..Whole(frames, n)])| <= n
  {
    if frames == [] || |StreamText(frames)| <= n {
      assert frames[..|frames|] == frames;
    } else {
      WholeFits(frames[..|frames| - 1], n);
      SliceOfSlice(frames, |frames| - 1, Whole(frames[..|frames| - 1], n));
    }
  }

  lemma TakeAll<T>(xs: seq<T>)
    ensures xs[..|xs|] == xs
  {
  }

  lemma {:induction false} NotAllWhole(frames: seq<Frame>, n: nat)
    requires Whole(frames, n) < |frames|
    ensures n < |StreamText(frames)| && Whole(frames, n) == Whole(frames[..|frames| - 1], n)
  {
  }

  lemma {:induction false} NextDoesNotFit(frames: seq<Frame>, n: nat)
    requires Whole(frames, n) < |frames|
    ensures n < |StreamText(frames[..Whole(frames, n) + 1])|
  {
    var m, k := |frames| - 1, Whole(frames, n);
    NotAllWhole(frames, n);
    if k == m {
      TakeAll(frames);
    } else {
      NextDoesNotFit(frames[..m], n);
      SliceOfSlice(frames, m, k + 1);
    }
  }

  lemma {:induction false} StandsAfterStream(loads: Loads, frames: seq<Frame>)
    requires AllReadable(loads, frames)
    ensures Stands(loads, StreamText(frames), NOTHING, EventsOf(loads, frames))
  {
    if frames != [] {
      var front, last := frames[..|frames| - 1], frames[|frames| - 1];
      StandsAfterStream(loads, front);
      WholeBlock(loads, StreamText(front), EventsOf(loads, front), last);
      assert EventsOf(loads, frames) == EventsOf(loads, front) + [EventOf(loads, last)];
    }
  }

  lemma PrefixOfSum(a: string, b: string, n: nat)
    requires n <= |a| + |b|
    ensures (a + b)[..n] == if n < |a| then a[..n] else a + b[..n - |a|]
  {
  }

  lemma EventsOfFront(loads: Loads, frames: seq<Frame>, k: nat)
    requires AllReadable(loads, frames) && k < |frames|
    ensures EventsOf(loads, frames[..|frames| - 1])[..k] == EventsOf(loads, frames)[..k]
  {
  }

  lemma EventsOfAllButLast(loads: Loads, frames: seq<Frame>)
    requires AllReadable(loads, frames) && frames != []
    ensures EventsOf(loads, frames[..|frames| - 1]) == EventsOf(loads, frames)[..|frames| - 1]
  {
  }

  /** No part of `block` short of the whole yields more than `events`. */
  ghost predicate YieldsOnlyWhole(loads: Loads, s: string, block: string, events: seq<Parsed>) {
    forall k | 0 <= k < |block| :: Received(loads, s + block[..k]) == events
  }

  lemma PartsOfBlock(loads: Loads, s: string, events: seq<Parsed>, f: Frame)
    requires Stands(loads, s, NOTHING, events) && OneLine(f.name) && OneLine(f.data)
    ensures YieldsOnlyWhole(loads, s, BlockText(f), events)
  {
    forall k | 0 <= k < |BlockText(f)| ensures Received(loads, s + BlockText(f)[..k]) == events {
      PartOfBlock(loads, s, events, f, k);
    }
  }

  /** A prefix that ends right after `s` or within the block after it. */
  lemma PrefixInBlock(loads: Loads, s: string, block: string, events: seq<Parsed>, n: nat)
    requires YieldsOnlyWhole(loads, s, block, events) && |s| <= n < |s| + |block|
    ensures Received(loads, (s + block)[..n]) == events
  {
    assert (s + block)[..n] == s + block[..n - |s|];
  }

  /** The prefix ends within or right before the last block. */
  lemma {:induction false} PrefixInLast(loads: Loads, frames: seq<Frame>, n: nat)
    requires AllReadable(loads, frames) && frames != []
    requires |StreamText(frames[..|frames| - 1])| <= n < |StreamText(frames)|
    ensures Received(loads, StreamText(frames)[..n]) == EventsOf(loads, frames)[..|frames| - 1]
  {
    var front, last := frames[..|frames| - 1], frames[|frames| - 1];
    StandsAfterStream(loads, front);
    assert Readable(loads, last);
    PartsOfBlock(loads, StreamText(front), EventsOf(loads, front), last);
    PrefixInBlock(loads, StreamText(front), BlockText(last), EventsOf(loads, front), n);
    EventsOfAllButLast(loads, frames);
  }

  /** Of any prefix of a stream the parser yields exactly the events of the blocks that lie whole in it. */
  lemma {:induction false} PrefixYieldsWholeBlocks(loads: Loads, frames: seq<Frame>, n: nat)
    requires AllReadable(loads, frames) && n <= |StreamText(frames)|
    ensures Received(loads, StreamText(frames)[..n]) == EventsOf(loads, frames)[..Whole(frames, n)]
  {
    if n == |StreamText(frames)| {
      StandsAfterStream(loads, frames);
      assert StreamText(frames)[..n] == StreamText(frames) + "";
      ReceivedAtTail(loads, StreamText(frames), NOTHING, EventsOf(loads, frames), "");
    } else {
      PrefixBeforeEnd(loads, frames, n);
    }
  }

  lemma {:induction false} PrefixBeforeEnd(loads: Loads, frames: seq<Frame>, n: nat)
    requires AllReadable(loads, frames) && n < |StreamText(frames)|
    ensures Received(loads, StreamText(frames)[..n]) == EventsOf(loads, frames)[..Whole(frames, n)]
  {
    var front := frames[..|frames| - 1];
    if n < |StreamText(front)| {
      PrefixBeforeEnd(loads, front, n);
      PrefixOfSum(StreamText(front), BlockText(frames[|front|]), n);
      EventsOfFront(loads, frames, Whole(front, n));
    } else {
      PrefixInLast(loads, frames, n);
      WholeAll(front, n);
    }
  }

  lemma WholeAll(frames: seq<Frame>, n: nat)
    requires |StreamText(frames)| <= n
    ensures Whole(frames, n) == |frames|
  {
  }
}
