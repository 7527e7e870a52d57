/**
 * The backend's main update loop (`Server.runMainUpdateLoop`): one pass
 * syncs mempool info, then blocks, then the mempool; a fully successful
 * pass reschedules itself after the configured poll rate and resets the
 * retry interval, a failed pass reschedules itself after the current retry
 * interval and then doubles that interval, capped at one minute.
 *
 * Timers are modelled by the delay a pass returns; the outcome of each
 * sync collaborator is an input.
 */
module MainLoop {
  import opened StepTrace

  /** Retry interval, in seconds, at start-up and after a successful pass. */
  const BaseRetryInterval := 5
  /** Ceiling of the retry interval, in seconds. */
  const MaxRetryInterval := 60

  /** The three sync steps of one pass, in the order they are awaited. */
  datatype SyncStep = UpdateMemPoolInfo | UpdateBlocks | UpdateMempool

  const SyncSteps := [UpdateMemPoolInfo, UpdateBlocks, UpdateMempool]

  /** Severity of the log line written for a failed pass. */
  datatype Severity = Debug | Warn

  datatype Option<T> = None | Some(value: T)

  /**
   * What a pass decides: the delay in ms before the next pass, the
   * severity of its failure log line (`None` when the pass succeeded) and
   * the retry interval it leaves behind.
   */
  datatype Reschedule = Reschedule(delayMs: int, failureLog: Option<Severity>, interval: int)

  predicate ValidInterval(interval: int) {
    BaseRetryInterval <= interval <= MaxRetryInterval
  }

  function Min(a: int, b: int): (r: int) {
    if a < b then a else b
  }

  /** The interval after a failure: doubled, then capped. */
  function Escalate(interval: int): (r: int)
    ensures r <= MaxRetryInterval
    ensures ValidInterval(interval) ==> ValidInterval(r) && interval <= r
    ensures interval == MaxRetryInterval ==> r == MaxRetryInterval
  {
    Min(interval * 2, MaxRetryInterval)
  }

  /** The decision taken at the end of a pass that started with `interval`. */
  function NextPass(interval: int, passOk: bool, pollRateMs: int): (r: Reschedule)
    ensures ValidInterval(interval) ==> ValidInterval(r.interval)
    ensures r.failureLog == None <==> passOk
  {
    if passOk then Reschedule(pollRateMs, None, BaseRetryInterval)
    else Reschedule(1000 * interval, Some(if interval > BaseRetryInterval then Warn else Debug), Escalate(interval))
  }

  /**
   * The decisions of consecutive passes with the given outcomes, the first
   * starting with `interval`: each pass, failed or not, schedules the next
   * one, provided the failure handler itself completes.
   */
  function Passes(interval: int, outcomes: seq<bool>, pollRateMs: int): (r: seq<Reschedule>)
    ensures |r| == |outcomes|
    ensures ValidInterval(interval) ==> forall k :: 0 <= k < |r| ==> ValidInterval(r[k].interval)
    decreases |outcomes|
  {
    if outcomes == [] then []
    else
      var first := NextPass(interval, outcomes[0], pollRateMs);
      [first] + Passes(first.interval, outcomes[1..], pollRateMs)
  }

  /** The retry interval after `k` consecutive failures from the reset state. */
  function Escalated(k: nat): (r: int) {
    if k == 0 then BaseRetryInterval else Escalate(Escalated(k - 1))
  }

  function Pow2(k: nat): (r: nat) {
    if k == 0 then 1 else 2 * Pow2(k - 1)
  }

  function Failures(n: nat): (r: seq<bool>)
    ensures |r| == n && forall i :: 0 <= i < n ==> !r[i]
  {
    seq(n, _ => false)
  }

  /** Closed form of the backoff: min(5 * 2^k, 60) seconds. */
  lemma {:induction false} EscalatedClosedForm(k: nat)
    ensures Escalated(k) == Min(BaseRetryInterval * Pow2(k), MaxRetryInterval)
  {
    if k > 0 {
      EscalatedClosedForm(k - 1);
    }
  }

  /** Escalation never falls back below the value reached after one failure. */
  lemma {:induction false} EscalatedAfterFirst(k: nat)
    ensures k == 0 ==> Escalated(k) == BaseRetryInterval
    ensures k > 0 ==> Escalated(k) >= 2 * BaseRetryInterval
  {
    EscalatedClosedForm(k);
    if k > 0 {
      PowPositive(k - 1);
    }
  }

  lemma {:induction false} PowPositive(k: nat)
    ensures Pow2(k) >= 1
  {
    if k > 0 {
      PowPositive(k - 1);
    }
  }

  /**
   * In a run of failures that starts after `j` earlier consecutive
   * failures, the `k`-th one waits the interval reached after `j + k`
   * failures and leaves the interval reached after `j + k + 1`.
   */
  lemma {:induction false} FailureRun(j: nat, n: nat, k: nat, pollRateMs: int)
    requires k < n
    ensures Passes(Escalated(j), Failures(n), pollRateMs)[k]
         == Reschedule(1000 * Escalated(j + k),
                       Some(if Escalated(j + k) > BaseRetryInterval then Warn else Debug),
                       Escalated(j + k + 1))
    decreases k
  {
    var fs := Failures(n);
    assert fs[1..] == Failures(n - 1);
    if k > 0 {
      FailureRun(j + 1, n - 1, k - 1, pollRateMs);
    }
  }

  /**
   * From the reset state, the `k`-th consecutive failure (counting from 0)
   * waits 1000 * min(5 * 2^k, 60) ms; its failure is logged at debug for
   * the first failure and at warn from the second one on.
   */
  lemma BackoffDelays(n: nat, k: nat, pollRateMs: int)
    requires k < n
    ensures Passes(BaseRetryInterval, Failures(n), pollRateMs)[k].delayMs
         == 1000 * Min(BaseRetryInterval * Pow2(k), MaxRetryInterval)
    ensures Passes(BaseRetryInterval, Failures(n), pollRateMs)[k].failureLog
         == Some(if k == 0 then Debug else Warn)
  {
    FailureRun(0, n, k, pollRateMs);
    EscalatedClosedForm(k);
    EscalatedAfterFirst(k);
  }

  /** The first six failures from the reset state wait 5, 10, 20, 40, 60 and 60 seconds. */
  lemma BackoffScenario(pollRateMs: int)
    ensures var delays := seq(6, k requires 0 <= k < 6 => Passes(BaseRetryInterval, Failures(6), pollRateMs)[k].delayMs);
      delays == [5000, 10000, 20000, 40000, 60000, 60000]
  {
    BackoffDelays(6, 0, pollRateMs);
    BackoffDelays(6, 1, pollRateMs);
    BackoffDelays(6, 2, pollRateMs);
    BackoffDelays(6, 3, pollRateMs);
    BackoffDelays(6, 4, pollRateMs);
    BackoffDelays(6, 5, pollRateMs);
  }

  /**
   * Whatever happened before, a successful pass waits the poll rate and
   * resets the interval, so a failure right after it waits 5 seconds and
   * is logged at debug.
   */
  lemma {:induction false} SuccessResets(interval: int, outcomes: seq<bool>, k: nat, pollRateMs: int)
    requires k < |outcomes| && outcomes[k]
    ensures Passes(interval, outcomes, pollRateMs)[k] == Reschedule(pollRateMs, None, BaseRetryInterval)
    ensures k + 1 < |outcomes| && !outcomes[k + 1] ==>
      Passes(interval, outcomes, pollRateMs)[k + 1] == Reschedule(1000 * BaseRetryInterval, Some(Debug), 2 * BaseRetryInterval)
    decreases k
  {
    if k > 0 {
      var first := NextPass(interval, outcomes[0], pollRateMs);
      SuccessResets(first.interval, outcomes[1..], k - 1, pollRateMs);
    }
  }

  /** The component that owns the retry interval. */
  class Server {
    var currentBackendRetryInterval: int

    ghost predicate Valid()
      reads this
    {
      ValidInterval(currentBackendRetryInterval)
    }

    constructor ()
      ensures Valid() && currentBackendRetryInterval == BaseRetryInterval
    {
      currentBackendRetryInterval := 5;
    }

    /**
     * One pass of the main update loop. The sync collaborators succeed
     * exactly when their flag is true; the returned delay is the one the
     * pass hands to its self-rescheduling timer.
     */
    method RunMainUpdateLoop(memPoolInfoOk: bool, blocksOk: bool, mempoolOk: bool, pollRateMs: int)
      returns (steps: seq<SyncStep>, delayMs: int, failureLog: Option<Severity>)
      requires Valid()
      modifies this
      ensures Valid()
      ensures steps == Attempted(SyncSteps, [memPoolInfoOk, blocksOk, mempoolOk])
      ensures Reschedule(delayMs, failureLog, currentBackendRetryInterval)
           == NextPass(old(currentBackendRetryInterval), AllOk([memPoolInfoOk, blocksOk, mempoolOk]), pollRateMs)
    {
      var failed := false;
      steps := [UpdateMemPoolInfo];
      if !memPoolInfoOk {
        failed := true;
      } else {
        steps := steps + [UpdateBlocks];
        if !blocksOk {
          failed := true;
        } else {
          steps := steps + [UpdateMempool];
          failed := !mempoolOk;
        }
      }
      if !failed {
        delayMs := pollRateMs;
        failureLog := None;
        currentBackendRetryInterval := 5;
      } else {
        failureLog := Some(if currentBackendRetryInterval > 5 then Warn else Debug);
        delayMs := 1000 * currentBackendRetryInterval;
        currentBackendRetryInterval := currentBackendRetryInterval * 2;
        currentBackendRetryInterval := Min(currentBackendRetryInterval, 60);
      }
    }
  }
}
