/**
 How a lone worker leaves each source, said of the ten states by name and of how
 each stage goes on the source, not of what a stage claims or how it ends.
 */
module IngestOutcome {
  import opened IngestPipeline

  /**
   Where a source comes to rest once nothing is left to claim: past every enabled
   stage that succeeds on it, at the first that fails or is not enabled.
   */
  ghost predicate RestsRight(stages: set<Stage>, works: Works, id: string, from: State, to: State)
    decreases Left(from)
  {
    match from
    case Received =>
      && (to == Received <==> Parse !in stages)
      && (to == Failed <==> Parse in stages && !works(Parse, id))
      && (Parse in stages && works(Parse, id) ==> RestsRight(stages, works, id, Parsed, to))
    case Parsed =>
      && (to == Parsed <==> Embed !in stages)
      && (to == EmbeddingFailed <==> Embed in stages && !works(Embed, id))
      && (Embed in stages && works(Embed, id) ==> RestsRight(stages, works, id, Embedded, to))
    case Embedded =>
      && (to == Embedded <==> Extract !in stages)
      && (to == ExtractionFailed <==> Extract in stages && !works(Extract, id))
      && (to == Indexed <==> Extract in stages && works(Extract, id))
    case _ => to == from
  }

  /** What a stage run on a source has behind it: the success of the stages before it, back to where the source was. */
  ghost predicate Earned(works: Works, id: string, from: State, s: Stage) {
    match s
    case Parse => from == Received
    case Embed => from == Parsed || (from == Received && works(Parse, id))
    case Extract =>
      || from == Embedded
      || (from == Parsed && works(Embed, id))
      || (from == Received && works(Parse, id) && works(Embed, id))
  }

  // ---------------------------------------------------------------- on the way

  /** Where a source may be on its way. */
  ghost predicate OnWay(stages: set<Stage>, works: Works, id: string, from: State, to: State)
    decreases Left(from)
  {
    to == from ||
    match from
    case Received =>
      Parse in stages && if works(Parse, id) then OnWay(stages, works, id, Parsed, to) else to == Failed
    case Parsed =>
      Embed in stages && if works(Embed, id) then OnWay(stages, works, id, Embedded, to) else to == EmbeddingFailed
    case Embedded =>
      Extract in stages && to == if works(Extract, id) then Indexed else ExtractionFailed
    case _ => false
  }

  lemma {:induction false} OneStageOn(
      stages: set<Stage>, works: Works, id: string, from: State, middle: State, s: Stage, to: State)
    requires OnWay(stages, works, id, from, middle) && s in stages
    requires middle == Pending(s) && to == Ended(s, works(s, id))
    ensures OnWay(stages, works, id, from, to) && Earned(works, id, from, s)
    decreases Left(from)
  {
    match from
    case Received =>
      if middle != Received {
        OneStageOn(stages, works, id, Parsed, middle, s, to);
      }
    case Parsed =>
      if middle != Parsed {
        OneStageOn(stages, works, id, Embedded, middle, s, to);
      }
    case _ =>
  }

  lemma {:induction false} AtRest(stages: set<Stage>, works: Works, id: string, from: State, to: State)
    requires OnWay(stages, works, id, from, to) && forall s | s in stages :: to != Pending(s)
    ensures RestsRight(stages, works, id, from, to)
    decreases Left(from)
  {
    match from
    case Received =>
      if Parse in stages && works(Parse, id) {
        assert to != Pending(Parse);
        AtRest(stages, works, id, Parsed, to);
      }
    case Parsed =>
      if Embed in stages && works(Embed, id) {
        assert to != Pending(Embed);
        AtRest(stages, works, id, Embedded, to);
      }
    case _ =>
  }

  // ---------------------------------------------------------------- every source

  /** Every source is on its way, and every stage run so far was earned. */
  ghost predicate AllOnWay(stages: set<Stage>, works: Works, before: seq<Source>, p: Progress) {
    && |p.sources| == |before|
    && (forall i | 0 <= i < |before| ::
          p.sources[i].id == before[i].id &&
          OnWay(stages, works, before[i].id, before[i].state, p.sources[i].state))
    && (forall r | r in p.log ::
          r.source < |before| && Earned(works, before[r.source].id, before[r.source].state, r.stage))
  }

  lemma PassKeepsWay(stages: set<Stage>, works: Works, before: seq<Source>, p: Progress, s: Stage, i: nat)
    requires AllOnWay(stages, works, before, p) && Picked(stages, works, p, s, i)
    ensures AllOnWay(stages, works, before, RunOn(works, p, s, i))
  {
    var id := before[i].id;
    OneStageOn(stages, works, id, before[i].state, p.sources[i].state, s, Ended(s, works(s, id)));
  }

  lemma {:induction false} DrainKeepsWay(stages: set<Stage>, works: Works, sources: seq<Source>, k: nat)
    ensures AllOnWay(stages, works, sources, Drain(stages, works, Progress(sources, []), k))
  {
    if k > 0 {
      var q := Drain(stages, works, Progress(sources, []), k - 1);
      DrainKeepsWay(stages, works, sources, k - 1);
      if Pass(stages, works, q).Some? {
        PassPicks(stages, works, q);
        var s, i: nat :| Picked(stages, works, q, s, i);
        PassKeepsWay(stages, works, sources, q, s, i);
      }
    }
  }

  /** Every source rests where the outcomes of its stages put it. */
  ghost predicate AllRestRight(stages: set<Stage>, works: Works, before: seq<Source>, after: seq<Source>) {
    |after| == |before| &&
    forall i | 0 <= i < |before| ::
      after[i].id == before[i].id && RestsRight(stages, works, before[i].id, before[i].state, after[i].state)
  }

  /** No stage was run on a source that had not come through the stages before. */
  ghost predicate AllEarned(works: Works, before: seq<Source>, log: seq<Run>) {
    forall r | r in log :: r.source < |before| && Earned(works, before[r.source].id, before[r.source].state, r.stage)
  }

  /** Every stage run is earned at any time, and once nothing is left every source rests where it should. */
  lemma {:induction false} DrainRestsRight(stages: set<Stage>, works: Works, sources: seq<Source>, k: nat)
    ensures var q := Drain(stages, works, Progress(sources, []), k);
            AllEarned(works, sources, q.log) &&
            (Drained(stages, q.sources) ==> AllRestRight(stages, works, sources, q.sources))
  {
    var q := Drain(stages, works, Progress(sources, []), k);
    DrainKeepsWay(stages, works, sources, k);
    if Drained(stages, q.sources) {
      forall i | 0 <= i < |sources|
        ensures RestsRight(stages, works, sources[i].id, sources[i].state, q.sources[i].state)
      {
        AtRest(stages, works, sources[i].id, sources[i].state, q.sources[i].state);
      }
    }
  }

  /** What a worker that has gone `k` passes can say. */
  lemma ReachedRests(stages: set<Stage>, works: Works, sources: seq<Source>, p: Progress, k: nat)
    requires Reached(stages, works, sources, p, k)
    ensures |p.sources| == |sources| && k <= 3 * |sources| && InOrder(p.log) && AllEarned(works, sources, p.log)
    ensures k == 3 * |sources| ==> Drained(stages, p.sources)
    ensures Drained(stages, p.sources) ==> AllRestRight(stages, works, sources, p.sources)
  {
    ReachedFacts(stages, works, sources, p, k);
    DrainRestsRight(stages, works, sources, k);
  }

  const ALL_STAGES: set<Stage> := {Parse, Embed, Extract}

  /** With all stages enabled, a received source is indexed exactly when all succeed, else it failed at the first. */
  lemma ReceivedEnds(works: Works, sources: seq<Source>, k: nat, i: nat)
    requires i < |sources| && sources[i].state == Received
    requires Drained(ALL_STAGES, Drain(ALL_STAGES, works, Progress(sources, []), k).sources)
    ensures |Drain(ALL_STAGES, works, Progress(sources, []), k).sources| == |sources|
    ensures var end, id := Drain(ALL_STAGES, works, Progress(sources, []), k).sources[i].state, sources[i].id;
            && (end == Indexed <==> works(Parse, id) && works(Embed, id) && works(Extract, id))
            && (end == Failed <==> !works(Parse, id))
            && (end == EmbeddingFailed <==> works(Parse, id) && !works(Embed, id))
            && (end == ExtractionFailed <==> works(Parse, id) && works(Embed, id) && !works(Extract, id))
  {
    DrainRestsRight(ALL_STAGES, works, sources, k);
    var end, id := Drain(ALL_STAGES, works, Progress(sources, []), k).sources[i].state, sources[i].id;
    assert RestsRight(ALL_STAGES, works, id, Received, end);
    if works(Parse, id) {
      assert RestsRight(ALL_STAGES, works, id, Parsed, end);
      if works(Embed, id) {
        assert RestsRight(ALL_STAGES, works, id, Embedded, end);
      }
    }
  }
}
