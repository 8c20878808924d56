/**
 The worker loop as it runs (apps/cli/_ingest.py, `run_ingest_worker`) on a store
 nobody else touches: claim the oldest pending source of the earliest enabled
 stage, run the stage, go round; stop on the shutdown flag, after a given number
 of passes, or, when that number is given, as soon as there is nothing to claim.
 */
module IngestWorker {
  import opened JsonText
  import opened IngestPipeline
  import opened IngestOutcome

  ghost predicate NeverRaised(flag: nat -> bool) { forall k :: !flag(k) }

  class Store {
    var sources: seq<Source>
    ghost var log: seq<Run>

    constructor (sources: seq<Source>)
      ensures this.sources == sources && log == []
    {
      this.sources, this.log := sources, [];
    }

    ghost function State(): Progress
      reads this
    {
      Progress(sources, log)
    }

    /** Claim the oldest pending source of an enabled stage; its state says so at once. */
    method ClaimPending(stages: set<Stage>, stage: Stage) returns (claimed: Option<nat>)
      modifies this`sources
      ensures claimed == Claim(stages, old(sources), stage)
      ensures claimed == None ==> sources == old(sources)
      ensures claimed.Some? ==>
                claimed.value < |old(sources)| &&
                sources == old(sources)[claimed.value := old(sources)[claimed.value].(state := Claimed(stage))]
    {
      claimed := if stage in stages then Oldest(sources, Pending(stage)) else None;
      if claimed.Some? {
        var i := claimed.value;
        sources := sources[i := sources[i].(state := Claimed(stage))];
      }
    }

    /** Run the stage on a claimed source, to its success or failure state. */
    method RunStage(works: Works, stage: Stage, i: nat)
      requires i < |sources| && sources[i].state == Claimed(stage)
      modifies this
      ensures sources == old(sources)[i := old(sources)[i].(state := Ended(stage, works(stage, old(sources)[i].id)))]
      ensures log == old(log) + [Run(stage, i)]
    {
      var ok := works(stage, sources[i].id);
      sources := sources[i := sources[i].(state := Ended(stage, ok))];
      log := log + [Run(stage, i)];
    }

    /** One stage of one pass. */
    method TryStage(stages: set<Stage>, works: Works, stage: Stage) returns (claimed: bool)
      modifies this
      ensures claimed == Claim(stages, old(sources), stage).Some?
      ensures claimed ==> State() == RunOn(works, old(State()), stage, Claim(stages, old(sources), stage).value)
      ensures !claimed ==> State() == old(State())
    {
      var i := ClaimPending(stages, stage);
      claimed := i.Some?;
      if claimed {
        RunStage(works, stage, i.value);
      }
    }

    /** One pass: parse, else embed, else extract. */
    method OnePass(stages: set<Stage>, works: Works) returns (claimed: bool)
      modifies this
      ensures match Pass(stages, works, old(State()))
              case None => !claimed && State() == old(State())
              case Some(q) => claimed && State() == q
    {
      claimed := TryStage(stages, works, Parse);
      if claimed {
        return;
      }
      claimed := TryStage(stages, works, Embed);
      if claimed {
        return;
      }
      claimed := TryStage(stages, works, Extract);
    }

    /**
     The loop. `flag(k)` is what the shutdown flag reads at the loop head after `k`
     passes; without a bound on the passes it is raised by `horizon` at the latest.
     */
    method Work(maxIterations: Option<nat>, stages: set<Stage>, works: Works, flag: nat -> bool, ghost horizon: nat)
      returns (processed: nat)
      requires log == []
      requires maxIterations == None ==> flag(horizon)
      modifies this
      ensures Reached(stages, works, old(sources), State(), processed)
      ensures processed <= 3 * |old(sources)| && InOrder(log) && AllEarned(works, old(sources), log)
      ensures maxIterations.Some? ==> processed <= maxIterations.value
      ensures maxIterations.Some? && maxIterations.value >= 3 * |old(sources)| && NeverRaised(flag) ==>
              Drained(stages, sources) && AllRestRight(stages, works, old(sources), sources)
    {
      ghost var before := sources;
      processed := 0;
      var iteration := 0;
      ghost var limit := if maxIterations.Some? then maxIterations.value else horizon;
      while !flag(iteration)
        invariant Reached(stages, works, before, State(), processed)
        invariant processed <= iteration <= limit
        invariant maxIterations.Some? ==> iteration == processed
        decreases limit - iteration
      {
        if maxIterations.Some? && iteration >= maxIterations.value {
          break;
        }
        assert iteration != limit;
        iteration := iteration + 1;
        ghost var p := State();
        var claimed := OnePass(stages, works);
        PassStopsWhenDrained(stages, works, p);
        if claimed {
          ReachedNext(stages, works, before, p, processed);
          processed := processed + 1;
          continue;
        }
        assert State() == p;
        if maxIterations.Some? {
          break;
        }
      }
      ReachedRests(stages, works, before, State(), processed);
    }
  }
}
