/**
 Parsing a whole body at once (apps/cli/_agent_run.py): split at double line
 feeds, parse each block on its own. On texts whose only line break is the line
 feed it agrees with the incremental parser.
 */
module SseBatch {
  import opened JsonText
  import opened PythonText
  import opened SseLines

  // ---------------------------------------------------------------- splitlines

  predicate LfOnly(s: string) { forall c | c in s :: IsBreak(c) ==> c == '\n' }

  function CutBreaks(s: string): Cut {
    if s == "" then Cut([], "")
    else
      var front, c := s[..|s| - 1], s[|s| - 1];
      var before := CutBreaks(front);
      if c == '\n' && front != "" && front[|front| - 1] == '\r' then before
      else if IsBreak(c) then Cut(before.lines + [before.tail], "")
      else Cut(before.lines, before.tail + [c])
  }

  function SplitLines(s: string): seq<string> {
    var cut := CutBreaks(s);
    if cut.tail == "" then cut.lines else cut.lines + [cut.tail]
  }

  lemma {:induction false} BreaksAreLineFeeds(s: string)
    requires LfOnly(s)
    ensures CutBreaks(s) == CutLines(s)
  {
    if s != "" {
      var front, c := s[..|s| - 1], s[|s| - 1];
      assert c in s && forall d | d in front :: d in s;
      BreaksAreLineFeeds(front);
      assert front != "" ==> front[|front| - 1] in s;
    }
  }

  // ---------------------------------------------------------------- blocks

  predicate EndsInLf(s: string) { s != "" && s[|s| - 1] == '\n' }

  function PushChar(p: Pieces, c: char): Pieces {
    if c == '\n' && EndsInLf(p.open) then Pieces(p.closed + [p.open[..|p.open| - 1]], "")
    else Pieces(p.closed, p.open + [c])
  }

  function CutBlocks(s: string): Pieces {
    if s == "" then Pieces([], "") else PushChar(CutBlocks(s[..|s| - 1]), s[|s| - 1])
  }

  /** `body.split("\n\n")`. */
  function Blocks(s: string): seq<string> { CutBlocks(s).closed + [CutBlocks(s).open] }

  lemma CutBlocksAppend(s: string, c: char)
    ensures CutBlocks(s + [c]) == PushChar(CutBlocks(s), c)
  {
    assert (s + [c])[..|s|] == s;
  }

  function Terminated(blocks: seq<string>): string {
    if blocks == [] then "" else Terminated(blocks[..|blocks| - 1]) + blocks[|blocks| - 1] + "\n\n"
  }

  /** No double line feed in it. */
  predicate NoBreak(s: string) { forall i | 0 < i < |s| :: !(s[i - 1] == '\n' && s[i] == '\n') }

  /** A closed block holds no double line feed and does not run into its separator. */
  predicate Closed(s: string) { NoBreak(s) && !EndsInLf(s) }

  /**
   What `split` yields: joined by double line feeds the pieces give the text back,
   no piece holds a double line feed, and no piece but the last ends in one half of
   it, so that every separator was taken at its leftmost place.
   */
  predicate IsSplit(p: Pieces, s: string) {
    s == Terminated(p.closed) + p.open && (forall b | b in p.closed :: Closed(b)) && NoBreak(p.open)
  }

  lemma TerminatedAppend(blocks: seq<string>, block: string)
    ensures Terminated(blocks + [block]) == Terminated(blocks) + block + "\n\n"
  {
    assert (blocks + [block])[..|blocks|] == blocks;
  }

  /** The first half of a separator closes the block before it. */
  lemma FrontCloses(block: string)
    requires NoBreak(block) && EndsInLf(block)
    ensures Closed(block[..|block| - 1]) && block == block[..|block| - 1] + "\n"
  {
    var i := |block| - 1;
    assert i > 0 ==> block[i - 1] != '\n';
  }

  lemma SeparatorPreserves(p: Pieces, s: string)
    requires IsSplit(p, s) && EndsInLf(p.open)
    ensures IsSplit(PushChar(p, '\n'), s + "\n")
  {
    var x := p.open[..|p.open| - 1];
    FrontCloses(p.open);
    TerminatedAppend(p.closed, x);
    assert s + "\n" == Terminated(p.closed) + x + "\n\n" + "";
  }

  lemma CharPreserves(p: Pieces, s: string, c: char)
    requires IsSplit(p, s) && !(c == '\n' && EndsInLf(p.open))
    ensures IsSplit(PushChar(p, c), s + [c])
  {
    assert NoBreak(p.open + [c]);
    assert s + [c] == Terminated(p.closed) + (p.open + [c]);
  }

  lemma {:induction false} BlocksSplit(s: string)
    ensures IsSplit(CutBlocks(s), s)
  {
    if s != "" {
      var front, c := s[..|s| - 1], s[|s| - 1];
      BlocksSplit(front);
      assert s == front + [c];
      if c == '\n' && EndsInLf(CutBlocks(front).open) {
        SeparatorPreserves(CutBlocks(front), front);
      } else {
        CharPreserves(CutBlocks(front), front, c);
      }
    } else {
      assert Terminated([]) + "" == "";
    }
  }

  // ---------------------------------------------------------------- the batch parser

  function Gather(lines: seq<string>): Partial {
    if lines == [] then NOTHING else AddLine(Gather(lines[..|lines| - 1]), lines[|lines| - 1])
  }

  lemma GatherAppend(lines: seq<string>, line: string)
    ensures Gather(lines + [line]) == AddLine(Gather(lines), line)
  {
    assert (lines + [line])[..|lines|] == lines;
  }

  /** `parse_sse_block`. */
  function BlockEvent(loads: Loads, text: string): Option<Parsed> {
    Complete(loads, Gather(SplitLines(text)))
  }

  function BlocksEvents(loads: Loads, blocks: seq<string>): seq<Parsed> {
    if blocks == [] then []
    else BlocksEvents(loads, blocks[..|blocks| - 1]) + Emitted(BlockEvent(loads, blocks[|blocks| - 1]))
  }

  lemma BlocksEventsAppend(loads: Loads, blocks: seq<string>, block: string)
    ensures BlocksEvents(loads, blocks + [block]) == BlocksEvents(loads, blocks) + Emitted(BlockEvent(loads, block))
  {
    assert (blocks + [block])[..|blocks|] == blocks;
  }

  // ---------------------------------------------------------------- both parsers, character by character

  lemma TailIsEmpty(s: string)
    ensures CutLines(s).tail == "" <==> s == "" || EndsInLf(s)
    ensures s == "" ==> CutLines(s).lines == []
  {
  }

  lemma EmptyLineGathersNothing()
    ensures Gather([""]) == NOTHING && Gather([]) == NOTHING
  {
    assert [""][..0] == [];
    assert !("event: " <= "") && !("data: " <= "");
  }

  /** The batch parser's block in the making against the incremental parser's partial event. */
  ghost predicate InStep(loads: Loads, s: string) {
    var p, f := CutBlocks(s), FeedLines(loads, CutLines(s).lines);
    && f.events == BlocksEvents(loads, p.closed)
    && CutLines(p.open).tail == CutLines(s).tail
    && f.partial == Gather(CutLines(p.open).lines)
    && (EndsInLf(p.open) ==> !EndsInLf(p.open[..|p.open| - 1]))
    && LfOnly(p.open)
  }

  lemma StepText(loads: Loads, s: string, c: char)
    requires InStep(loads, s) && !IsBreak(c)
    ensures InStep(loads, s + [c])
  {
    var open := CutBlocks(s).open;
    CutBlocksAppend(s, c);
    CutAppendChar(s, c);
    CutAppendChar(open, c);
    assert CutBlocks(s + [c]).open == open + [c];
  }

  /** A line ends inside a block. */
  lemma StepLine(loads: Loads, s: string)
    requires InStep(loads, s) && !EndsInLf(CutBlocks(s).open)
    ensures InStep(loads, s + ['\n'])
  {
    var open := CutBlocks(s).open;
    var lines, tail := CutLines(open).lines, CutLines(open).tail;
    CutBlocksAppend(s, '\n');
    CutAppendChar(s, '\n');
    CutAppendChar(open, '\n');
    FeedAppend(loads, CutLines(s).lines, tail);
    GatherAppend(lines, tail);
    TailIsEmpty(open);
    EmptyLineGathersNothing();
    assert (open + ['\n'])[..|open|] == open;
    if tail == "" {
      assert lines + [tail] == [""];
    }
  }

  /** A text and the same text with its last line ended gather the same. */
  lemma GatherUnended(x: string)
    requires !EndsInLf(x)
    ensures Gather(Lines(x)) == Gather(CutLines(x + "\n").lines)
  {
    CutAppendChar(x, '\n');
    TailIsEmpty(x);
    EmptyLineGathersNothing();
    if x == "" {
      assert CutLines(x + "\n").lines == [""];
    }
  }

  lemma BlockEventOfLines(loads: Loads, x: string)
    requires LfOnly(x)
    ensures BlockEvent(loads, x) == Complete(loads, Gather(Lines(x)))
  {
    BreaksAreLineFeeds(x);
  }

  /** A blank line ends the block. */
  lemma {:induction false} StepBlank(loads: Loads, s: string)
    requires InStep(loads, s) && EndsInLf(CutBlocks(s).open)
    ensures InStep(loads, s + ['\n'])
  {
    var p := CutBlocks(s);
    var x := p.open[..|p.open| - 1];
    assert p.open == x + "\n";
    CutBlocksAppend(s, '\n');
    CutAppendChar(s, '\n');
    TailIsEmpty(p.open);
    FeedAppend(loads, CutLines(s).lines, "");
    GatherUnended(x);
    BlockEventOfLines(loads, x);
    BlocksEventsAppend(loads, p.closed, x);
  }

  lemma {:induction false} AlwaysInStep(loads: Loads, s: string)
    requires LfOnly(s)
    ensures InStep(loads, s)
  {
    if s == "" {
    } else {
      var front, c := s[..|s| - 1], s[|s| - 1];
      assert s == front + [c] && c in s && forall d | d in front :: d in s;
      AlwaysInStep(loads, front);
      if c != '\n' {
        StepText(loads, front, c);
      } else if EndsInLf(CutBlocks(front).open) {
        StepBlank(loads, front);
      } else {
        StepLine(loads, front);
      }
    }
  }

  /** The two line feeds at the end complete what the last block holds. */
  lemma {:induction false} Finish(loads: Loads, s: string)
    requires InStep(loads, s)
    ensures Received(loads, s + "\n\n") ==
            BlocksEvents(loads, CutBlocks(s).closed) + Emitted(BlockEvent(loads, CutBlocks(s).open))
  {
    var open, f := CutBlocks(s).open, FeedLines(loads, CutLines(s).lines);
    var lines, tail := CutLines(open).lines, CutLines(open).tail;
    var t := s + ['\n'];
    CutAppendChar(s, '\n');
    CutAppendChar(t, '\n');
    assert s + "\n\n" == t + ['\n'];
    FeedAppend(loads, CutLines(s).lines, tail);
    FeedAppend(loads, CutLines(t).lines, "");
    GatherAppend(lines, tail);
    BlockEventOfLines(loads, open);
  }

  /** Splitting at double line feeds and resetting at blank lines agree, whatever the body holds. */
  lemma {:induction false} BatchIsIncremental(loads: Loads, body: string)
    requires LfOnly(body)
    ensures BlocksEvents(loads, Blocks(body)) == Received(loads, body + "\n\n")
  {
    AlwaysInStep(loads, body);
    Finish(loads, body);
    BlocksEventsAppend(loads, CutBlocks(body).closed, CutBlocks(body).open);
  }

  // ---------------------------------------------------------------- blank blocks

  predicate AllBlank(lines: seq<string>) { forall l | l in lines :: Blank(l) }

  lemma {:induction false} CutOfBlank(s: string)
    requires Blank(s)
    ensures AllBlank(CutBreaks(s).lines) && Blank(CutBreaks(s).tail)
  {
    if s != "" {
      var front := s[..|s| - 1];
      assert s[|s| - 1] in s && forall d | d in front :: d in s;
      CutOfBlank(front);
    }
  }

  lemma {:induction false} GatherOfBlank(lines: seq<string>)
    requires AllBlank(lines)
    ensures Gather(lines) == NOTHING
  {
    if lines != [] {
      var line := lines[|lines| - 1];
      GatherOfBlank(lines[..|lines| - 1]);
      assert line in lines;
      assert line != "" ==> line[0] in line && line[0] != 'e' && line[0] != 'd';
    }
  }

  /** Skipping a blank block loses nothing. */
  lemma BlankYieldsNothing(loads: Loads, s: string)
    requires Blank(s)
    ensures BlockEvent(loads, s) == None
  {
    CutOfBlank(s);
    GatherOfBlank(SplitLines(s));
  }
}
