/**
 The three-stage ingestion pipeline (apps/cli/_ingest.py): its states, what a
 stage does to a source, and the order a lone worker drains it in.
 */
module IngestPipeline {
  import opened JsonText

  /** The ten states a source may be in. */
  datatype State =
    | Received
    | Parsing
    | Parsed
    | Failed
    | Embedding
    | Embedded
    | EmbeddingFailed
    | Extracting
    | Indexed
    | ExtractionFailed

  datatype Stage = Parse | Embed | Extract

  /** What a stage claims, what it makes of the claim, and how it ends. */
  function Pending(s: Stage): State {
    match s case Parse => Received case Embed => Parsed case Extract => Embedded
  }

  function Claimed(s: Stage): State {
    match s case Parse => Parsing case Embed => Embedding case Extract => Extracting
  }

  function Ended(s: Stage, ok: bool): State {
    match s
    case Parse => if ok then Parsed else Failed
    case Embed => if ok then Embedded else EmbeddingFailed
    case Extract => if ok then Indexed else ExtractionFailed
  }

  function Rank(s: Stage): nat {
    match s case Parse => 0 case Embed => 1 case Extract => 2
  }

  datatype Source = Source(id: string, createdAt: int, state: State)

  /** `ORDER BY created_at LIMIT 1` among the sources in a state. */
  function Oldest(sources: seq<Source>, state: State): (r: Option<nat>)
    ensures r.Some? ==> r.value < |sources| && sources[r.value].state == state
  {
    if sources == [] then None
    else
      var n := |sources| - 1;
      var best := Oldest(sources[..n], state);
      if sources[n].state == state && (best == None || sources[n].createdAt < sources[best.value].createdAt)
      then Some(n)
      else best
  }

  lemma {:induction false} OldestIsFirst(sources: seq<Source>, state: State)
    ensures Oldest(sources, state) == None <==> forall i | 0 <= i < |sources| :: sources[i].state != state
    ensures Oldest(sources, state).Some? ==>
              forall i | 0 <= i < |sources| && sources[i].state == state ::
                sources[Oldest(sources, state).value].createdAt <= sources[i].createdAt
  {
    if sources != [] {
      OldestIsFirst(sources[..|sources| - 1], state);
    }
  }

  // ---------------------------------------------------------------- a lone worker

  /** One stage run on one source. */
  datatype Run = Run(stage: Stage, source: nat)

  datatype Progress = Progress(sources: seq<Source>, log: seq<Run>)

  /** Whether a stage succeeds on a source, by the source's id. */
  type Works = (Stage, string) -> bool

  function RunOn(works: Works, p: Progress, stage: Stage, i: nat): Progress
    requires i < |p.sources|
  {
    var s := p.sources[i];
    Progress(p.sources[i := s.(state := Ended(stage, works(stage, s.id)))], p.log + [Run(stage, i)])
  }

  /** The source a stage would claim, if the stage is enabled. */
  function Claim(stages: set<Stage>, sources: seq<Source>, stage: Stage): (r: Option<nat>)
    ensures r.Some? ==> r.value < |sources| && sources[r.value].state == Pending(stage) && stage in stages
  {
    if stage in stages then Oldest(sources, Pending(stage)) else None
  }

  /** One pass of the loop: the earliest enabled stage with a pending source runs on the oldest of them. */
  function Pass(stages: set<Stage>, works: Works, p: Progress): Option<Progress> {
    match Claim(stages, p.sources, Parse)
    case Some(i) => Some(RunOn(works, p, Parse, i))
    case None =>
      match Claim(stages, p.sources, Embed)
      case Some(i) => Some(RunOn(works, p, Embed, i))
      case None =>
        match Claim(stages, p.sources, Extract)
        case Some(i) => Some(RunOn(works, p, Extract, i))
        case None => None
  }

  /** The state after `k` passes that each found something to do, or fewer if there was less. */
  function Drain(stages: set<Stage>, works: Works, p: Progress, k: nat): Progress {
    if k == 0 then p
    else
      var q := Drain(stages, works, p, k - 1);
      match Pass(stages, works, q) case None => q case Some(r) => r
  }

  /** Nothing left to claim in any enabled stage. */
  ghost predicate Drained(stages: set<Stage>, sources: seq<Source>) {
    forall i, s | 0 <= i < |sources| && s in stages :: sources[i].state != Pending(s)
  }

  lemma PassStopsWhenDrained(stages: set<Stage>, works: Works, p: Progress)
    ensures Pass(stages, works, p) == None <==> Drained(stages, p.sources)
  {
    OldestIsFirst(p.sources, Pending(Parse));
    OldestIsFirst(p.sources, Pending(Embed));
    OldestIsFirst(p.sources, Pending(Extract));
  }

  // ---------------------------------------------------------------- order of the stages

  /** All parse runs, then all embed runs, then all extract runs. */
  ghost predicate InOrder(log: seq<Run>) {
    forall i, j | 0 <= i < j < |log| :: Rank(log[i].stage) <= Rank(log[j].stage)
  }

  /** No enabled stage before `s` has anything pending. */
  ghost predicate EarlierDone(stages: set<Stage>, sources: seq<Source>, s: Stage) {
    forall e, i | e in stages && Rank(e) < Rank(s) && 0 <= i < |sources| :: sources[i].state != Pending(e)
  }

  ghost predicate Orderly(stages: set<Stage>, p: Progress) {
    && InOrder(p.log)
    && (forall r | r in p.log :: r.stage in stages && EarlierDone(stages, p.sources, r.stage))
  }

  lemma PassPicks(stages: set<Stage>, works: Works, p: Progress)
    requires Pass(stages, works, p).Some?
    ensures exists s, i: nat :: Picked(stages, works, p, s, i)
  {
    OldestIsFirst(p.sources, Pending(Parse));
    OldestIsFirst(p.sources, Pending(Embed));
    if Claim(stages, p.sources, Parse).Some? {
      assert Picked(stages, works, p, Parse, Claim(stages, p.sources, Parse).value);
    } else if Claim(stages, p.sources, Embed).Some? {
      assert Picked(stages, works, p, Embed, Claim(stages, p.sources, Embed).value);
    } else {
      assert Picked(stages, works, p, Extract, Claim(stages, p.sources, Extract).value);
    }
  }

  /** The pass ran stage `s` on source `i`. */
  ghost predicate Picked(stages: set<Stage>, works: Works, p: Progress, s: Stage, i: nat) {
    && i < |p.sources| && s in stages && p.sources[i].state == Pending(s)
    && EarlierDone(stages, p.sources, s)
    && Pass(stages, works, p) == Some(RunOn(works, p, s, i))
  }

  /** A run of stage `s` makes nothing pending for an earlier or equal stage. */
  lemma EarlierStaysDone(stages: set<Stage>, works: Works, p: Progress, s: Stage, i: nat, e: Stage)
    requires i < |p.sources| && EarlierDone(stages, p.sources, e) && Rank(e) <= Rank(s)
    ensures EarlierDone(stages, RunOn(works, p, s, i).sources, e)
  {
  }

  lemma PassKeepsOrder(stages: set<Stage>, works: Works, p: Progress, s: Stage, i: nat)
    requires Orderly(stages, p) && Picked(stages, works, p, s, i)
    ensures Orderly(stages, RunOn(works, p, s, i))
  {
    var q := RunOn(works, p, s, i);
    forall r | r in p.log ensures Rank(r.stage) <= Rank(s) {
      if Rank(s) < Rank(r.stage) {
        assert false;
      }
    }
    forall r | r in q.log ensures r.stage in stages && EarlierDone(stages, q.sources, r.stage) {
      EarlierStaysDone(stages, works, p, s, i, r.stage);
    }
  }

  /** With nothing arriving, all parse steps come before all embed steps, and those before all extract steps. */
  lemma {:induction false} DrainsInOrder(stages: set<Stage>, works: Works, sources: seq<Source>, k: nat)
    ensures Orderly(stages, Drain(stages, works, Progress(sources, []), k))
  {
    if k > 0 {
      var q := Drain(stages, works, Progress(sources, []), k - 1);
      DrainsInOrder(stages, works, sources, k - 1);
      if Pass(stages, works, q).Some? {
        PassPicks(stages, works, q);
        var s, i: nat :| Picked(stages, works, q, s, i);
        PassKeepsOrder(stages, works, q, s, i);
      }
    }
  }

  // ---------------------------------------------------------------- how much there is to do

  function Left(s: State): nat {
    match s case Received => 3 case Parsed => 2 case Embedded => 1 case _ => 0
  }

  /** The most stage runs the sources can still call for. */
  function Work(sources: seq<Source>): nat {
    if sources == [] then 0 else Work(sources[..|sources| - 1]) + Left(sources[|sources| - 1].state)
  }

  lemma {:induction false} WorkBound(sources: seq<Source>)
    ensures Work(sources) <= 3 * |sources|
  {
    if sources != [] {
      WorkBound(sources[..|sources| - 1]);
    }
  }

  lemma {:induction false} WorkOfUpdate(sources: seq<Source>, i: nat, s: Source)
    requires i < |sources|
    ensures Work(sources[i := s]) == Work(sources) - Left(sources[i].state) + Left(s.state)
  {
    var n := |sources| - 1;
    if i < n {
      WorkOfUpdate(sources[..n], i, s);
      assert sources[i := s][..n] == sources[..n][i := s];
    } else {
      assert sources[i := s][..n] == sources[..n];
    }
  }

  lemma {:induction false} NoWorkIsDrained(stages: set<Stage>, sources: seq<Source>)
    requires Work(sources) == 0
    ensures Drained(stages, sources)
  {
    if sources != [] {
      NoWorkIsDrained(stages, sources[..|sources| - 1]);
    }
  }

  lemma RunTakesWork(works: Works, p: Progress, s: Stage, i: nat)
    requires i < |p.sources| && p.sources[i].state == Pending(s)
    ensures Work(RunOn(works, p, s, i).sources) < Work(p.sources)
  {
    WorkOfUpdate(p.sources, i, RunOn(works, p, s, i).sources[i]);
  }

  /** `k` passes either did `k` runs or came to the end of what there is to do. */
  ghost predicate Accounted(stages: set<Stage>, sources: seq<Source>, q: Progress, k: nat) {
    && |q.sources| == |sources|
    && |q.log| + Work(q.sources) <= Work(sources)
    && |q.log| <= k
    && (|q.log| < k ==> Drained(stages, q.sources))
  }

  lemma AccountPass(stages: set<Stage>, works: Works, sources: seq<Source>, q: Progress, k: nat)
    requires Accounted(stages, sources, q, k)
    ensures Accounted(stages, sources, match Pass(stages, works, q) case None => q case Some(r) => r, k + 1)
  {
    PassStopsWhenDrained(stages, works, q);
    if Pass(stages, works, q).Some? {
      PassPicks(stages, works, q);
      var s, i: nat :| Picked(stages, works, q, s, i);
      RunTakesWork(works, q, s, i);
    }
  }

  lemma {:induction false} DrainProgress(stages: set<Stage>, works: Works, sources: seq<Source>, k: nat)
    ensures Accounted(stages, sources, Drain(stages, works, Progress(sources, []), k), k)
  {
    if k > 0 {
      DrainProgress(stages, works, sources, k - 1);
      AccountPass(stages, works, sources, Drain(stages, works, Progress(sources, []), k - 1), k - 1);
    }
  }

  /** A lone worker does at most three runs a source, and as many passes as that leave nothing to claim. */
  lemma DrainFinishes(stages: set<Stage>, works: Works, sources: seq<Source>, k: nat)
    ensures |Drain(stages, works, Progress(sources, []), k).log| <= 3 * |sources|
    ensures k >= 3 * |sources| ==> Drained(stages, Drain(stages, works, Progress(sources, []), k).sources)
  {
    var q := Drain(stages, works, Progress(sources, []), k);
    DrainProgress(stages, works, sources, k);
    WorkBound(sources);
    if k >= 3 * |sources| && |q.log| == k {
      NoWorkIsDrained(stages, q.sources);
    }
  }

  /** Where a worker stands after `k` passes that each found something to do. */
  ghost predicate Reached(stages: set<Stage>, works: Works, sources: seq<Source>, p: Progress, k: nat) {
    p == Drain(stages, works, Progress(sources, []), k) && |p.log| == k
  }

  lemma ReachedNext(stages: set<Stage>, works: Works, sources: seq<Source>, p: Progress, k: nat)
    requires Reached(stages, works, sources, p, k) && Pass(stages, works, p).Some?
    ensures Reached(stages, works, sources, Pass(stages, works, p).value, k + 1)
  {
  }

  lemma ReachedFacts(stages: set<Stage>, works: Works, sources: seq<Source>, p: Progress, k: nat)
    requires Reached(stages, works, sources, p, k)
    ensures |p.sources| == |sources| && k <= 3 * |sources| && InOrder(p.log)
    ensures k == 3 * |sources| ==> Drained(stages, p.sources)
  {
    DrainProgress(stages, works, sources, k);
    DrainFinishes(stages, works, sources, k);
    DrainsInOrder(stages, works, sources, k);
  }

  // ---------------------------------------------------------------- what happens to one source

  /** The stages run on source `i`, in order. */
  function RunsOn(log: seq<Run>, i: nat): seq<Stage> {
    if log == [] then []
    else
      var front, last := RunsOn(log[..|log| - 1], i), log[|log| - 1];
      if last.source == i then front + [last.stage] else front
  }

  /** Running these stages one after another, each on what the one before left. */
  ghost predicate Leads(works: Works, id: string, from: State, runs: seq<Stage>, to: State) {
    if runs == [] then from == to
    else
      var n := |runs| - 1;
      exists middle ::
        Leads(works, id, from, runs[..n], middle) && middle == Pending(runs[n]) &&
        to == Ended(runs[n], works(runs[n], id))
  }

  ghost predicate Traced(stages: set<Stage>, works: Works, before: seq<Source>, p: Progress, i: nat) {
    && i < |before| == |p.sources|
    && p.sources[i] == before[i].(state := p.sources[i].state)
    && Leads(works, before[i].id, before[i].state, RunsOn(p.log, i), p.sources[i].state)
    && (forall s | s in RunsOn(p.log, i) :: s in stages)
  }

  lemma LeadsOn(works: Works, id: string, from: State, runs: seq<Stage>, middle: State, s: Stage)
    requires Leads(works, id, from, runs, middle) && middle == Pending(s)
    ensures Leads(works, id, from, runs + [s], Ended(s, works(s, id)))
  {
    assert (runs + [s])[..|runs|] == runs;
  }

  lemma TracedAfterRun(stages: set<Stage>, works: Works, before: seq<Source>, p: Progress, s: Stage, j: nat, i: nat)
    requires Traced(stages, works, before, p, i) && Picked(stages, works, p, s, j)
    ensures Traced(stages, works, before, RunOn(works, p, s, j), i)
  {
    var q := RunOn(works, p, s, j);
    assert q.log[..|q.log| - 1] == p.log;
    if j == i {
      LeadsOn(works, before[i].id, before[i].state, RunsOn(p.log, i), p.sources[i].state, s);
    }
  }

  /** Each source goes down the pipeline through enabled stages only, from the state it was in. */
  lemma {:induction false} DrainTraces(stages: set<Stage>, works: Works, sources: seq<Source>, k: nat, i: nat)
    requires i < |sources|
    ensures Traced(stages, works, sources, Drain(stages, works, Progress(sources, []), k), i)
  {
    if k > 0 {
      var q := Drain(stages, works, Progress(sources, []), k - 1);
      DrainTraces(stages, works, sources, k - 1, i);
      if Pass(stages, works, q).Some? {
        PassPicks(stages, works, q);
        var s, j: nat :| Picked(stages, works, q, s, j);
        TracedAfterRun(stages, works, sources, q, s, j, i);
      }
    }
  }

  lemma {:induction false} FirstRunIsOfItsState(works: Works, id: string, from: State, runs: seq<Stage>, to: State)
    requires Leads(works, id, from, runs, to) && runs != []
    ensures from == Pending(runs[0])
  {
    var n := |runs| - 1;
    if n > 0 {
      var middle :| Leads(works, id, from, runs[..n], middle) && middle == Pending(runs[n]);
      FirstRunIsOfItsState(works, id, from, runs[..n], middle);
    }
  }

  /** A source that waits for no enabled stage is left as it is. */
  lemma {:induction false} DisabledUntouched(stages: set<Stage>, works: Works, sources: seq<Source>, k: nat, i: nat)
    requires i < |sources| && forall s | s in stages :: sources[i].state != Pending(s)
    ensures var q := Drain(stages, works, Progress(sources, []), k);
            |q.sources| == |sources| && q.sources[i] == sources[i] && RunsOn(q.log, i) == []
  {
    var q := Drain(stages, works, Progress(sources, []), k);
    DrainTraces(stages, works, sources, k, i);
    var runs := RunsOn(q.log, i);
    if runs != [] {
      FirstRunIsOfItsState(works, sources[i].id, sources[i].state, runs, q.sources[i].state);
      assert false;
    }
  }
}
