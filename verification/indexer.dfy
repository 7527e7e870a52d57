/**
 * The background indexer (`Indexer`): a pass runs only when indexing is
 * enabled, a run was requested, no pass is in flight and the mempool does
 * not have priority. A pass clears the request, marks itself running, runs
 * five steps that stop at the first one that throws, re-arms the request
 * when one threw, and ends by clearing the running flag. The model
 * assumes that building the log line in each `catch` never throws itself.
 *
 * The collaborators (block database, hashrate repository, mining, block
 * rates, the indexing switch and the mempool priority flag) are inputs:
 * a flag per call that says whether it succeeds.
 */
module IndexerJob {
  import opened StepTrace

  /** The steps of one indexing pass, in the order they are awaited. */
  datatype IndexStep =
    | GenerateBlockDatabase
    | ResetHashratesTimestamps
    | GenerateNetworkHashrateHistory
    | GeneratePoolHashrateHistory
    | SavePendingBlockRates

  const IndexSteps := [GenerateBlockDatabase, ResetHashratesTimestamps,
                       GenerateNetworkHashrateHistory, GeneratePoolHashrateHistory,
                       SavePendingBlockRates]

  /** The two "latest run" timestamps the hashrate reset zeroes, in order. */
  datatype LatestRunKey = LastHashratesIndexing | LastWeeklyHashratesIndexing

  const ResetKeys := [LastHashratesIndexing, LastWeeklyHashratesIndexing]

  /** Whether each collaborator call of one pass succeeds. */
  datatype PassOutcomes = PassOutcomes(
    blockDatabase: bool,
    lastHashratesWrite: bool,
    lastWeeklyHashratesWrite: bool,
    networkHashrate: bool,
    poolHashrate: bool,
    pendingBlockRates: bool)

  /**
   * Whether each pipeline step completes as seen by the enclosing `try`:
   * the hashrate reset catches its own errors, so it completes whenever
   * its `catch` does.
   */
  function StepOutcomes(o: PassOutcomes): (r: seq<bool>)
    ensures |r| == |IndexSteps|
    ensures r[1]
  {
    [o.blockDatabase, true, o.networkHashrate, o.poolHashrate, o.pendingBlockRates]
  }

  /** The four conditions under which `$run` does any work. */
  predicate GateOpen(indexingEnabled: bool, runIndexer: bool, indexerRunning: bool, hasPriority: bool) {
    indexingEnabled && runIndexer && !indexerRunning && !hasPriority
  }

  /**
   * A pass fails exactly when one of the four load-bearing steps throws,
   * and the step that throws is the last one started.
   */
  lemma {:induction false} PipelineOutcome(o: PassOutcomes)
    ensures !AllOk(StepOutcomes(o)) <==>
      !(o.blockDatabase && o.networkHashrate && o.poolHashrate && o.pendingBlockRates)
    ensures !o.blockDatabase ==> Attempted(IndexSteps, StepOutcomes(o)) == [GenerateBlockDatabase]
    ensures o.blockDatabase && !o.networkHashrate ==>
      Attempted(IndexSteps, StepOutcomes(o))
        == [GenerateBlockDatabase, ResetHashratesTimestamps, GenerateNetworkHashrateHistory]
    ensures o.blockDatabase && o.networkHashrate && !o.poolHashrate ==>
      Attempted(IndexSteps, StepOutcomes(o)) == IndexSteps[..4]
    ensures o.blockDatabase && o.networkHashrate && o.poolHashrate ==>
      Attempted(IndexSteps, StepOutcomes(o)) == IndexSteps
  {
    var ok := StepOutcomes(o);
    if !AllOk(ok) {
      var i :| 0 <= i < |ok| && !ok[i];
      assert i != 1;
    } else {
      assert ok[0] && ok[2] && ok[3] && ok[4];
    }
    if !o.blockDatabase {
      FailureSkipsLater(IndexSteps, ok, 0);
    } else if !o.networkHashrate {
      FailureSkipsLater(IndexSteps, ok, 2);
    } else if !o.poolHashrate {
      FailureSkipsLater(IndexSteps, ok, 3);
    }
  }

  /** The per-process indexer state. */
  class Indexer {
    /** Sticky request for a pass. */
    var runIndexer: bool
    /** True only while a pass is in flight. */
    var indexerRunning: bool

    constructor ()
      ensures runIndexer && !indexerRunning
    {
      runIndexer := true;
      indexerRunning := false;
    }

    /** Requests a pass; idempotent, and leaves a pass in flight alone. */
    method Reindex()
      modifies this
      ensures runIndexer
      ensures indexerRunning == old(indexerRunning)
    {
      runIndexer := true;
    }

    /**
     * The gate at the start of `$run`: either nothing changes, or the
     * request is consumed and the pass is marked running before any step.
     */
    method Begin(indexingEnabled: bool, hasPriority: bool) returns (started: bool)
      modifies this
      ensures started == GateOpen(indexingEnabled, old(runIndexer), old(indexerRunning), hasPriority)
      ensures started ==> !runIndexer && indexerRunning
      ensures !started ==> runIndexer == old(runIndexer) && indexerRunning == old(indexerRunning)
    {
      if !indexingEnabled || runIndexer == false || indexerRunning == true || hasPriority {
        return false;
      }
      runIndexer := false;
      indexerRunning := true;
      started := true;
    }

    /**
     * `$resetHashratesIndexingState`: zeroes both timestamps, skips the
     * second write when the first throws, and, provided its `catch` completes,
     * never throws itself (the result has no failure); `errorLogged` says
     * whether it logged one.
     */
    method ResetHashratesIndexingState(lastHashratesOk: bool, lastWeeklyHashratesOk: bool)
      returns (writes: seq<LatestRunKey>, errorLogged: bool)
      ensures writes == Attempted(ResetKeys, [lastHashratesOk, lastWeeklyHashratesOk])
      ensures errorLogged == !AllOk([lastHashratesOk, lastWeeklyHashratesOk])
    {
      writes := [LastHashratesIndexing];
      if !lastHashratesOk {
        errorLogged := true;
        return;
      }
      writes := writes + [LastWeeklyHashratesIndexing];
      errorLogged := !lastWeeklyHashratesOk;
    }

    /**
     * The `try` body of `$run`: the five steps in order, stopping at the
     * first one that throws. Returns the steps started, the timestamp
     * writes the hashrate reset attempted, and whether a step threw.
     */
    method RunPipeline(o: PassOutcomes) returns (steps: seq<IndexStep>, writes: seq<LatestRunKey>, failed: bool)
      ensures steps == Attempted(IndexSteps, StepOutcomes(o))
      ensures writes == if o.blockDatabase then Attempted(ResetKeys, [o.lastHashratesWrite, o.lastWeeklyHashratesWrite]) else []
      ensures failed == !AllOk(StepOutcomes(o))
    {
      steps := [GenerateBlockDatabase];
      writes := [];
      if !o.blockDatabase {
        return [GenerateBlockDatabase], [], true;
      }
      steps := steps + [ResetHashratesTimestamps];
      var resetErrorLogged;
      writes, resetErrorLogged := ResetHashratesIndexingState(o.lastHashratesWrite, o.lastWeeklyHashratesWrite);
      steps := steps + [GenerateNetworkHashrateHistory];
      if !o.networkHashrate {
        return steps, writes, true;
      }
      steps := steps + [GeneratePoolHashrateHistory];
      if !o.poolHashrate {
        return steps, writes, true;
      }
      steps := steps + [SavePendingBlockRates];
      failed := !o.pendingBlockRates;
    }

    /**
     * The rest of `$run` once the gate has let a pass through: the
     * pipeline, a re-armed request when a step threw, and the running flag
     * cleared last. A `reindex` that arrived during the pass stays.
     */
    method Finish(o: PassOutcomes) returns (steps: seq<IndexStep>, writes: seq<LatestRunKey>)
      requires indexerRunning
      modifies this
      ensures steps == Attempted(IndexSteps, StepOutcomes(o))
      ensures writes == if o.blockDatabase then Attempted(ResetKeys, [o.lastHashratesWrite, o.lastWeeklyHashratesWrite]) else []
      ensures runIndexer == (old(runIndexer) || !AllOk(StepOutcomes(o)))
      ensures !indexerRunning
    {
      var failed;
      steps, writes, failed := RunPipeline(o);
      if failed {
        Reindex();
      }
      indexerRunning := false;
    }

    /**
     * `$run`. A closed gate changes nothing and runs nothing. Otherwise
     * the pipeline runs; `runIndexer` ends true exactly when a step threw,
     * and `indexerRunning` ends false.
     */
    method Run(indexingEnabled: bool, hasPriority: bool, o: PassOutcomes)
      returns (steps: seq<IndexStep>, writes: seq<LatestRunKey>)
      modifies this
      ensures !GateOpen(indexingEnabled, old(runIndexer), old(indexerRunning), hasPriority) ==>
        steps == [] && writes == [] &&
        runIndexer == old(runIndexer) && indexerRunning == old(indexerRunning)
      ensures GateOpen(indexingEnabled, old(runIndexer), old(indexerRunning), hasPriority) ==>
        steps == Attempted(IndexSteps, StepOutcomes(o)) &&
        writes == (if o.blockDatabase then Attempted(ResetKeys, [o.lastHashratesWrite, o.lastWeeklyHashratesWrite]) else []) &&
        runIndexer == !AllOk(StepOutcomes(o)) && !indexerRunning
    {
      var started := Begin(indexingEnabled, hasPriority);
      if !started {
        return [], [];
      }
      steps, writes := Finish(o);
    }
  }

  /**
   * A second `$run` that arrives while a first pass awaits one of its
   * steps. If the first pass gets through the gate, the second `$run`
   * starts no step and changes no field, whatever its own inputs. The
   * first pass then completes as usual, so at most one pass is running at
   * any time.
   */
  method OverlappingRuns(ix: Indexer, indexingEnabled: bool, hasPriority: bool, o: PassOutcomes,
                         laterEnabled: bool, laterPriority: bool, laterOutcomes: PassOutcomes)
    returns (started: bool, laterSteps: seq<IndexStep>, laterWrites: seq<LatestRunKey>)
    modifies ix
    ensures started == GateOpen(indexingEnabled, old(ix.runIndexer), old(ix.indexerRunning), hasPriority)
    ensures laterSteps == [] && laterWrites == []
    ensures started ==> ix.runIndexer == !AllOk(StepOutcomes(o)) && !ix.indexerRunning
    ensures !started ==> ix.runIndexer == old(ix.runIndexer) && ix.indexerRunning == old(ix.indexerRunning)
  {
    started := ix.Begin(indexingEnabled, hasPriority);
    if !started {
      return false, [], [];
    }
    var requested, running := ix.runIndexer, ix.indexerRunning;
    laterSteps, laterWrites := ix.Run(laterEnabled, laterPriority, laterOutcomes);
    assert ix.runIndexer == requested && ix.indexerRunning == running;
    var steps, writes := ix.Finish(o);
  }
}
