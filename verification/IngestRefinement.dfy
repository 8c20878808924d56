/**
 The lone worker's loop is a run of the interleaved system: every pass of it is a
 sequence of that system's steps, ending with the worker back at the loop head.
 */
module IngestRefinement {
  import opened IngestPipeline
  import opened IngestSteps

  /** Taking these steps one after another leads from `s` to `t`. */
  ghost predicate LeadsTo(s: Sys, steps: seq<Step>, t: Sys)
    decreases |steps|
  {
    if steps == [] then s == t
    else Enabled(s, steps[0]) && LeadsTo(Take(s, steps[0]), steps[1..], t)
  }

  function States(sources: seq<Source>): (r: seq<State>)
    ensures |r| == |sources|
  {
    seq(|sources|, i requires 0 <= i < |sources| => sources[i].state)
  }

  /** The system holds these sources and one worker, at the loop head. */
  ghost predicate Alone(s: Sys, stages: set<Stage>, sources: seq<Source>) {
    && s.states == States(sources)
    && |s.paths| == |s.states|
    && s.workers == [Worker(stages, true, false, Head)]
  }

  lemma {:induction false} LeadsOn(s: Sys, a: seq<Step>, t: Sys, b: seq<Step>, u: Sys)
    requires LeadsTo(s, a, t) && LeadsTo(t, b, u)
    ensures LeadsTo(s, a + b, u)
    decreases |a|
  {
    if a == [] {
      assert a + b == b;
    } else {
      LeadsOn(Take(s, a[0]), a[1..], t, b, u);
      assert (a + b)[1..] == a[1..] + b;
    }
  }

  lemma OneStep(s: Sys, step: Step)
    requires Enabled(s, step)
    ensures LeadsTo(s, [step], Take(s, step))
  {
    assert [step][1..] == [];
  }

  /** The steps before a stage is tried: the loop head, and a miss for each stage before it. */
  function Approach(stage: Stage): seq<Step> {
    match stage
    case Parse => [LoopHead(0)]
    case Embed => [LoopHead(0), Miss(0)]
    case Extract => [LoopHead(0), Miss(0), Miss(0)]
  }

  lemma Approaches(s: Sys, stages: set<Stage>, sources: seq<Source>, stage: Stage)
    requires Alone(s, stages, sources)
    ensures LeadsTo(s, Approach(stage), WithPhase(s, 0, Trying(stage)))
  {
    var parse, embed := WithPhase(s, 0, Trying(Parse)), WithPhase(s, 0, Trying(Embed));
    OneStep(s, LoopHead(0));
    if stage != Parse {
      OneStep(parse, Miss(0));
      assert Take(parse, Miss(0)) == embed;
      LeadsOn(s, [LoopHead(0)], parse, [Miss(0)], embed);
      assert [LoopHead(0)] + [Miss(0)] == Approach(Embed);
    }
    if stage == Extract {
      OneStep(embed, Miss(0));
      assert Take(embed, Miss(0)) == WithPhase(s, 0, Trying(Extract));
      LeadsOn(s, Approach(Embed), embed, [Miss(0)], WithPhase(s, 0, Trying(Extract)));
      assert Approach(Embed) + [Miss(0)] == Approach(Extract);
    }
  }

  /** The system after the worker has run `stage` on source `i`. */
  function AfterRun(s: Sys, stage: Stage, i: nat, ok: bool): Sys
    requires i < |s.states| == |s.paths|
  {
    Moved(Moved(s, i, Claimed(stage)), i, Ended(stage, ok))
  }

  lemma ClaimAndFinish(s: Sys, stages: set<Stage>, sources: seq<Source>, stage: Stage, i: nat, ok: bool)
    requires Alone(s, stages, sources) && stage in stages && i < |sources| && sources[i].state == Pending(stage)
    ensures LeadsTo(WithPhase(s, 0, Trying(stage)), [ClaimOne(0, i), Finish(0, ok)], AfterRun(s, stage, i, ok))
  {
    var trying := WithPhase(s, 0, Trying(stage));
    var running := Take(trying, ClaimOne(0, i));
    OneStep(trying, ClaimOne(0, i));
    OneStep(running, Finish(0, ok));
    assert Take(running, Finish(0, ok)) == AfterRun(s, stage, i, ok);
    LeadsOn(trying, [ClaimOne(0, i)], running, [Finish(0, ok)], AfterRun(s, stage, i, ok));
    assert [ClaimOne(0, i)] + [Finish(0, ok)] == [ClaimOne(0, i), Finish(0, ok)];
  }

  /** One pass that finds something. */
  lemma PassIsSteps(stages: set<Stage>, works: Works, p: Progress, s: Sys, stage: Stage, i: nat)
    returns (steps: seq<Step>, t: Sys)
    requires Alone(s, stages, p.sources) && Picked(stages, works, p, stage, i)
    ensures LeadsTo(s, steps, t) && Alone(t, stages, RunOn(works, p, stage, i).sources)
  {
    var ok := works(stage, p.sources[i].id);
    t := AfterRun(s, stage, i, ok);
    steps := Approach(stage) + [ClaimOne(0, i), Finish(0, ok)];
    Approaches(s, stages, p.sources, stage);
    ClaimAndFinish(s, stages, p.sources, stage, i, ok);
    LeadsOn(s, Approach(stage), WithPhase(s, 0, Trying(stage)), [ClaimOne(0, i), Finish(0, ok)], t);
    assert t.states == States(RunOn(works, p, stage, i).sources);
  }

  /** However many passes the lone worker makes, the interleaved system can get to the same states. */
  lemma {:induction false} DrainIsARun(stages: set<Stage>, works: Works, sources: seq<Source>, k: nat, s: Sys)
    returns (steps: seq<Step>, t: Sys)
    requires Alone(s, stages, sources)
    ensures LeadsTo(s, steps, t) && Alone(t, stages, Drain(stages, works, Progress(sources, []), k).sources)
  {
    if k == 0 {
      steps, t := [], s;
    } else {
      var p := Drain(stages, works, Progress(sources, []), k - 1);
      steps, t := DrainIsARun(stages, works, sources, k - 1, s);
      if Pass(stages, works, p).Some? {
        PassPicks(stages, works, p);
        var stage, i: nat :| Picked(stages, works, p, stage, i);
        var more, u := PassIsSteps(stages, works, p, t, stage, i);
        LeadsOn(s, steps, t, more, u);
        steps, t := steps + more, u;
      }
    }
  }

  /** From no sources, arrivals and one start lead to the lone worker's beginning. */
  lemma {:induction false} Beginning(stages: set<Stage>, sources: seq<Source>) returns (steps: seq<Step>, s: Sys)
    requires forall i | 0 <= i < |sources| :: sources[i].state == Received
    ensures LeadsTo(EMPTY, steps, s) && Alone(s, stages, sources)
  {
    if sources == [] {
      steps := [Start(stages, true)];
      s := Take(EMPTY, Start(stages, true));
      OneStep(EMPTY, Start(stages, true));
      assert [] + [Worker(stages, true, false, Head)] == [Worker(stages, true, false, Head)];
    } else {
      var n := |sources| - 1;
      var front, before := Beginning(stages, sources[..n]);
      s := Take(before, Arrive);
      OneStep(before, Arrive);
      LeadsOn(EMPTY, front, before, [Arrive], s);
      steps := front + [Arrive];
      assert s.states == States(sources);
    }
  }

  /** The systems passed through on the way. */
  ghost function Trail(s: Sys, steps: seq<Step>, t: Sys): (run: seq<Sys>)
    requires LeadsTo(s, steps, t)
    ensures |run| == |steps| + 1
    decreases |steps|
  {
    if steps == [] then [s] else [s] + Trail(Take(s, steps[0]), steps[1..], t)
  }

  lemma {:induction false} TrailSteps(s: Sys, steps: seq<Step>, t: Sys)
    requires LeadsTo(s, steps, t)
    ensures var run := Trail(s, steps, t);
            run[0] == s && run[|steps|] == t &&
            forall k | 0 <= k < |steps| :: Enabled(run[k], steps[k]) && run[k + 1] == Take(run[k], steps[k])
    decreases |steps|
  {
    if steps != [] {
      var rest := Trail(Take(s, steps[0]), steps[1..], t);
      TrailSteps(Take(s, steps[0]), steps[1..], t);
      forall k | 0 < k < |steps|
        ensures Enabled(rest[k - 1], steps[k]) && rest[k] == Take(rest[k - 1], steps[k])
      {
        assert steps[1..][k - 1] == steps[k];
      }
    }
  }

  /**
   The lone worker's loop, from sources that have just arrived, is a run of the
   interleaved system from its empty beginning: what holds of every such run holds
   of the loop.
   */
  lemma LoopIsABehaviour(stages: set<Stage>, works: Works, sources: seq<Source>, k: nat)
    returns (run: seq<Sys>, steps: seq<Step>)
    requires forall i | 0 <= i < |sources| :: sources[i].state == Received
    ensures Behaviour(run, steps)
    ensures run[|steps|].states == States(Drain(stages, works, Progress(sources, []), k).sources)
    ensures Alone(run[|steps|], stages, Drain(stages, works, Progress(sources, []), k).sources)
  {
    var arrivals, s := Beginning(stages, sources);
    var passes, t := DrainIsARun(stages, works, sources, k, s);
    LeadsOn(EMPTY, arrivals, s, passes, t);
    steps := arrivals + passes;
    run := Trail(EMPTY, steps, t);
    TrailSteps(EMPTY, steps, t);
  }
}
