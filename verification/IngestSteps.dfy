/**
 Any number of ingestion workers on one store, as interleaved steps. A claim is
 atomic and may take any pending source of its stage, because `SKIP LOCKED` passes
 over rows other workers have locked; for the same reason it may come back empty
 although a source is pending. A worker may crash anywhere. The shutdown flag is
 looked at in the loop head only.
 */
module IngestSteps {
  import opened JsonText
  import opened IngestPipeline

  /** Where a worker is: at the loop head, about to try a stage, running a stage on a claim, or gone. */
  datatype Phase =
    | Head
    | Trying(stage: Stage)
    | Running(stage: Stage, source: nat)
    | Stopped
    | Crashed(left: Option<Run>)

  datatype Worker = Worker(stages: set<Stage>, bounded: bool, signalled: bool, phase: Phase)

  /** Every source's state, the states it has been in, and every worker. */
  datatype Sys = Sys(states: seq<State>, paths: seq<seq<State>>, workers: seq<Worker>)

  /** What a worker holds: the claim it is running, or the one it crashed on. */
  function Held(w: Worker): Option<Run> {
    match w.phase
    case Running(s, i) => Some(Run(s, i))
    case Crashed(left) => left
    case _ => None
  }

  function Moved(s: Sys, i: nat, to: State): Sys
    requires i < |s.states| == |s.paths|
  {
    s.(states := s.states[i := to], paths := s.paths[i := s.paths[i] + [to]])
  }

  function WithPhase(s: Sys, w: nat, phase: Phase): Sys
    requires w < |s.workers|
  {
    s.(workers := s.workers[w := s.workers[w].(phase := phase)])
  }

  /** The stage tried after `s` in a pass; after the last, back to the loop head. */
  function AfterMiss(s: Stage): Phase {
    match s case Parse => Trying(Embed) case Embed => Trying(Extract) case Extract => Head
  }

  datatype Step =
    | Arrive
    | Start(stages: set<Stage>, bounded: bool)
    | Signal(w: nat)
    | LoopHead(w: nat)
    | ClaimOne(w: nat, source: nat)
    | Miss(w: nat)
    | Exhausted(w: nat)
    | Finish(w: nat, ok: bool)
    | Crash(w: nat)

  predicate Enabled(s: Sys, step: Step) {
    |s.states| == |s.paths| &&
    match step
    case Arrive => true
    case Start(_, _) => true
    case Signal(w) => w < |s.workers|
    case LoopHead(w) => w < |s.workers| && s.workers[w].phase.Head?
    case ClaimOne(w, i) =>
      && w < |s.workers| && s.workers[w].phase.Trying? && s.workers[w].phase.stage in s.workers[w].stages
      && i < |s.states| && s.states[i] == Pending(s.workers[w].phase.stage)
    case Miss(w) => w < |s.workers| && s.workers[w].phase.Trying?
    case Exhausted(w) =>
      w < |s.workers| && s.workers[w].bounded && (s.workers[w].phase.Head? || s.workers[w].phase == Trying(Extract))
    case Finish(w, _) => w < |s.workers| && s.workers[w].phase.Running? && s.workers[w].phase.source < |s.states|
    case Crash(w) => w < |s.workers| && !s.workers[w].phase.Stopped? && !s.workers[w].phase.Crashed?
  }

  function Take(s: Sys, step: Step): Sys
    requires Enabled(s, step)
  {
    match step
    case Arrive => s.(states := s.states + [Received], paths := s.paths + [[Received]])
    case Start(stages, bounded) => s.(workers := s.workers + [Worker(stages, bounded, false, Head)])
    case Signal(w) => s.(workers := s.workers[w := s.workers[w].(signalled := true)])
    case LoopHead(w) => WithPhase(s, w, if s.workers[w].signalled then Stopped else Trying(Parse))
    case ClaimOne(w, i) =>
      var stage := s.workers[w].phase.stage;
      WithPhase(Moved(s, i, Claimed(stage)), w, Running(stage, i))
    case Miss(w) => WithPhase(s, w, AfterMiss(s.workers[w].phase.stage))
    case Exhausted(w) => WithPhase(s, w, Stopped)
    case Finish(w, ok) =>
      var phase := s.workers[w].phase;
      WithPhase(Moved(s, phase.source, Ended(phase.stage, ok)), w, Head)
    case Crash(w) => WithPhase(s, w, Crashed(Held(s.workers[w])))
  }

  const EMPTY := Sys([], [], [])

  /** A run from the empty system, step by step. */
  ghost predicate Behaviour(run: seq<Sys>, steps: seq<Step>) {
    && |run| == |steps| + 1
    && run[0] == EMPTY
    && forall k | 0 <= k < |steps| :: Enabled(run[k], steps[k]) && run[k + 1] == Take(run[k], steps[k])
  }

  // ---------------------------------------------------------------- the invariant

  /** The pipeline: which state may follow which. */
  predicate Follows(a: State, b: State) {
    match a
    case Received => b == Parsing
    case Parsing => b == Parsed || b == Failed
    case Parsed => b == Embedding
    case Embedding => b == Embedded || b == EmbeddingFailed
    case Embedded => b == Extracting
    case Extracting => b == Indexed || b == ExtractionFailed
    case _ => false
  }

  predicate InProgress(a: State) { a == Parsing || a == Embedding || a == Extracting }

  /** A path down the pipeline from its start to `last`. */
  predicate Path(path: seq<State>, last: State) {
    && path != [] && path[0] == Received && path[|path| - 1] == last
    && forall k | 0 < k < |path| :: Follows(path[k - 1], path[k])
  }

  ghost predicate Holds(s: Sys, w: nat, stage: Stage, i: nat) {
    w < |s.workers| && Held(s.workers[w]) == Some(Run(stage, i))
  }

  /** What is held is a source in the state its claim put it in. */
  ghost predicate HeldIsClaimed(s: Sys) {
    forall w: nat, stage, i: nat | Holds(s, w, stage, i) :: i < |s.states| && s.states[i] == Claimed(stage)
  }

  /** No source is held by two workers. */
  ghost predicate NobodyShares(s: Sys) {
    forall w: nat, v: nat, a, b, i | Holds(s, w, a, i) && Holds(s, v, b, i) :: w == v
  }

  /** Every source in progress is held by someone. */
  ghost predicate SomebodyHolds(s: Sys) {
    forall i | 0 <= i < |s.states| && InProgress(s.states[i]) :: exists w: nat, stage :: Holds(s, w, stage, i)
  }

  ghost predicate AllPaths(s: Sys) {
    |s.paths| == |s.states| && forall i | 0 <= i < |s.states| :: Path(s.paths[i], s.states[i])
  }

  ghost predicate Inv(s: Sys) { HeldIsClaimed(s) && NobodyShares(s) && SomebodyHolds(s) && AllPaths(s) }

  // ---------------------------------------------------------------- one step

  /** A step that moves no source and changes nobody's holdings keeps the invariant. */
  lemma QuietStep(s: Sys, t: Sys)
    requires Inv(s) && t.states == s.states && t.paths == s.paths && |s.workers| <= |t.workers|
    requires forall w | 0 <= w < |s.workers| :: Held(t.workers[w]) == Held(s.workers[w])
    requires forall w | |s.workers| <= w < |t.workers| :: Held(t.workers[w]) == None
    ensures Inv(t)
  {
    forall w: nat, stage, i ensures Holds(t, w, stage, i) <==> Holds(s, w, stage, i) {
    }
    forall i | 0 <= i < |t.states| && InProgress(t.states[i]) ensures exists w: nat, stage :: Holds(t, w, stage, i) {
      var w: nat, stage :| Holds(s, w, stage, i);
      assert Holds(t, w, stage, i);
    }
  }

  lemma ArriveStep(s: Sys)
    requires Inv(s)
    ensures Inv(Take(s, Arrive))
  {
    var t := Take(s, Arrive);
    forall w: nat, stage, i ensures Holds(t, w, stage, i) <==> Holds(s, w, stage, i) {
    }
    forall i | 0 <= i < |t.states| && InProgress(t.states[i]) ensures exists w: nat, stage :: Holds(t, w, stage, i) {
      assert i < |s.states|;
      var w: nat, stage :| Holds(s, w, stage, i);
      assert Holds(t, w, stage, i);
    }
  }

  lemma PathGrows(path: seq<State>, last: State, next: State)
    requires Path(path, last) && Follows(last, next)
    ensures Path(path + [next], next)
  {
  }

  lemma MovedPaths(s: Sys, i: nat, to: State)
    requires AllPaths(s) && i < |s.states| && Follows(s.states[i], to)
    ensures AllPaths(Moved(s, i, to))
  {
    PathGrows(s.paths[i], s.states[i], to);
  }

  lemma ClaimStep(s: Sys, w: nat, i: nat)
    requires Inv(s) && Enabled(s, ClaimOne(w, i))
    ensures Inv(Take(s, ClaimOne(w, i)))
  {
    var stage := s.workers[w].phase.stage;
    var t := Take(s, ClaimOne(w, i));
    MovedPaths(s, i, Claimed(stage));
    forall v: nat, a ensures !Holds(s, v, a, i) {
    }
    forall v: nat, a, j ensures Holds(t, v, a, j) <==> if v == w then a == stage && j == i else Holds(s, v, a, j) {
    }
    forall j | 0 <= j < |t.states| && InProgress(t.states[j]) ensures exists v: nat, a :: Holds(t, v, a, j) {
      if j == i {
        assert Holds(t, w, stage, i);
      } else {
        var v: nat, a :| Holds(s, v, a, j);
        assert Holds(t, v, a, j);
      }
    }
  }

  lemma FinishStep(s: Sys, w: nat, ok: bool)
    requires Inv(s) && Enabled(s, Finish(w, ok))
    ensures Inv(Take(s, Finish(w, ok)))
  {
    var stage, i := s.workers[w].phase.stage, s.workers[w].phase.source;
    var t := Take(s, Finish(w, ok));
    assert Holds(s, w, stage, i);
    MovedPaths(s, i, Ended(stage, ok));
    forall v: nat, a, j ensures Holds(t, v, a, j) <==> v != w && Holds(s, v, a, j) {
    }
    forall j | 0 <= j < |t.states| && InProgress(t.states[j]) ensures exists v: nat, a :: Holds(t, v, a, j) {
      assert j != i;
      var v: nat, a :| Holds(s, v, a, j);
      assert Holds(t, v, a, j);
    }
  }

  lemma InvStep(s: Sys, step: Step)
    requires Inv(s) && Enabled(s, step)
    ensures Inv(Take(s, step))
  {
    match step {
      case Arrive => ArriveStep(s);
      case ClaimOne(w, i) => ClaimStep(s, w, i);
      case Finish(w, ok) => FinishStep(s, w, ok);
      case _ => QuietStep(s, Take(s, step));
    }
  }

  lemma {:induction false} AlwaysInv(run: seq<Sys>, steps: seq<Step>, k: nat)
    requires Behaviour(run, steps) && k < |run|
    ensures Inv(run[k])
  {
    if k > 0 {
      AlwaysInv(run, steps, k - 1);
      InvStep(run[k - 1], steps[k - 1]);
    }
  }

  // ---------------------------------------------------------------- what follows

  /** How many times a stage starts on a path. */
  function Starts(path: seq<State>, s: Stage): nat {
    if path == [] then 0 else Starts(path[..|path| - 1], s) + if path[|path| - 1] == Claimed(s) then 1 else 0
  }

  /** How far down the pipeline a state is. */
  function Depth(a: State): nat {
    match a
    case Received => 0
    case Parsing => 1
    case Parsed => 2
    case Failed => 2
    case Embedding => 3
    case Embedded => 4
    case EmbeddingFailed => 4
    case Extracting => 5
    case Indexed => 6
    case ExtractionFailed => 6
  }

  /** A stage has started once if the path is past its start, else not at all. */
  lemma {:induction false} StartsOnce(path: seq<State>, last: State, s: Stage)
    requires Path(path, last)
    ensures Starts(path, s) == (if Depth(last) >= Depth(Claimed(s)) then 1 else 0)
    ensures |path| == Depth(last) + 1
  {
    var n := |path| - 1;
    if n == 0 {
      assert path == [Received] && path[..0] == [];
    } else {
      StartsOnce(path[..n], path[n - 1], s);
      assert Follows(path[n - 1], path[n]);
    }
  }

  /** At every point of every run, no source is held by two workers. */
  lemma NoSourceHeldTwice(run: seq<Sys>, steps: seq<Step>, k: nat, v: nat, w: nat, a: Stage, b: Stage, i: nat)
    requires Behaviour(run, steps) && k < |run| && Holds(run[k], v, a, i) && Holds(run[k], w, b, i)
    ensures v == w && a == b && i < |run[k].states| && run[k].states[i] == Claimed(a)
  {
    AlwaysInv(run, steps, k);
  }

  /** At every point of every run, each source has gone down the pipeline, running each stage at most once. */
  lemma HistoriesArePaths(run: seq<Sys>, steps: seq<Step>, k: nat, i: nat)
    requires Behaviour(run, steps) && k < |run| && i < |run[k].states|
    ensures i < |run[k].paths| && Path(run[k].paths[i], run[k].states[i])
    ensures forall s :: Starts(run[k].paths[i], s) <= 1
  {
    AlwaysInv(run, steps, k);
    forall s ensures Starts(run[k].paths[i], s) <= 1 {
      StartsOnce(run[k].paths[i], run[k].states[i], s);
    }
  }

  /** In progress with no worker running it. */
  ghost predicate Stranded(s: Sys, i: nat) {
    i < |s.states| && InProgress(s.states[i]) &&
    forall w | 0 <= w < |s.workers| && s.workers[w].phase.Running? :: s.workers[w].phase.source != i
  }

  ghost predicate CrashedOn(s: Sys, w: nat, i: nat) {
    w < |s.workers| && s.workers[w].phase.Crashed? && exists stage :: s.workers[w].phase.left == Some(Run(stage, i))
  }

  /**
   A source is stranded exactly when a worker crashed while holding it. That worker
   is one for that source, and a crashed worker held one source at most, so there
   are never more stranded sources than crashed workers; a worker that stopped left
   nothing behind.
   */
  lemma StrandedExactly(run: seq<Sys>, steps: seq<Step>, k: nat, i: nat)
    requires Behaviour(run, steps) && k < |run|
    ensures Stranded(run[k], i) <==> exists w :: CrashedOn(run[k], w, i)
  {
    var s := run[k];
    AlwaysInv(run, steps, k);
    if Stranded(s, i) {
      var w: nat, stage :| Holds(s, w, stage, i);
      assert CrashedOn(s, w, i);
    }
    if w: nat :| CrashedOn(s, w, i) {
      var stage :| s.workers[w].phase.left == Some(Run(stage, i));
      assert Holds(s, w, stage, i);
      forall v | 0 <= v < |s.workers| && s.workers[v].phase.Running? ensures s.workers[v].phase.source != i {
        assert Holds(s, v, s.workers[v].phase.stage, s.workers[v].phase.source);
      }
    }
  }

  lemma CrashStrandsOne(run: seq<Sys>, steps: seq<Step>, k: nat, v: nat, w: nat, i: nat, j: nat)
    requires Behaviour(run, steps) && k < |run| && CrashedOn(run[k], v, i) && CrashedOn(run[k], w, j)
    ensures v == w <==> i == j
  {
    var s := run[k];
    AlwaysInv(run, steps, k);
    var a :| s.workers[v].phase.left == Some(Run(a, i));
    var b :| s.workers[w].phase.left == Some(Run(b, j));
    assert Holds(s, v, a, i) && Holds(s, w, b, j);
  }

  // ---------------------------------------------------------------- shutdown

  /** The claims worker `w` makes in these steps. */
  function Claims(steps: seq<Step>, w: nat): nat {
    if steps == [] then 0
    else
      var last := steps[|steps| - 1];
      Claims(steps[..|steps| - 1], w) + if last.ClaimOne? && last.w == w then 1 else 0
  }

  /** The claims a signalled worker may still make: one, while it is trying the stages of a pass. */
  function Allowance(phase: Phase): nat { if phase.Trying? then 1 else 0 }

  lemma AllowanceStep(s: Sys, step: Step, w: nat)
    requires Enabled(s, step) && w < |s.workers| && s.workers[w].signalled
    ensures var t := Take(s, step);
            w < |t.workers| && t.workers[w].signalled &&
            Allowance(t.workers[w].phase) + (if step.ClaimOne? && step.w == w then 1 else 0) <=
            Allowance(s.workers[w].phase)
  {
  }

  /** Once signalled, a worker makes at most the one claim of the pass it is in. */
  lemma {:induction false} ClaimsAfterSignal(run: seq<Sys>, steps: seq<Step>, k: nat, m: nat, w: nat)
    requires Behaviour(run, steps) && k <= m < |run| && w < |run[k].workers| && run[k].workers[w].signalled
    ensures w < |run[m].workers| && run[m].workers[w].signalled
    ensures Claims(steps[k..m], w) + Allowance(run[m].workers[w].phase) <= Allowance(run[k].workers[w].phase) <= 1
  {
    if k < m {
      ClaimsAfterSignal(run, steps, k, m - 1, w);
      AllowanceStep(run[m - 1], steps[m - 1], w);
      assert steps[k..m][..m - 1 - k] == steps[k..m - 1];
    }
  }

  /** Once gone, a worker stays gone, with what it held. */
  lemma {:induction false} GoneForGood(run: seq<Sys>, steps: seq<Step>, k: nat, m: nat, w: nat)
    requires Behaviour(run, steps) && k <= m < |run| && w < |run[k].workers|
    requires run[k].workers[w].phase.Stopped? || run[k].workers[w].phase.Crashed?
    ensures w < |run[m].workers| && run[m].workers[w].phase == run[k].workers[w].phase
  {
    if k < m {
      GoneForGood(run, steps, k, m - 1, w);
    }
  }
}
