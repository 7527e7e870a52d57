/**
 * The process supervisor in the `Server` constructor. With
 * `SPAWN_CLUSTER_PROCS` unset (0) the process starts a single server; with
 * it set, the master forks that many workers tagged `workerId` 0..N-1 and,
 * whenever one exits, forks a replacement with the same `workerId` after
 * 10 seconds, without any limit on restarts. A forked process (not the
 * master) starts a server of its own.
 *
 * OS processes are abstract ids handed out by a counter; the restart timer
 * is a queue of pending restarts.
 */
module Cluster {

  /** Abstract stand-in for an OS process id. */
  type Pid = nat

  /** Delay in ms between a worker's exit and the fork of its replacement. */
  const RestartDelayMs := 10000

  /** What the constructor makes of this process. */
  datatype Role = SingleServer | Master | Worker

  /** A falsy process count starts a single server; otherwise the master supervises and a forked worker serves. */
  function RoleFor(spawnClusterProcs: int, isMaster: bool): (r: Role)
    ensures r == SingleServer <==> spawnClusterProcs == 0
    ensures r == Master <==> spawnClusterProcs != 0 && isMaster
  {
    if spawnClusterProcs == 0 then SingleServer
    else if isMaster then Master
    else Worker
  }

  /** The logical ids 0..n-1 (none when n is not positive). */
  function IdRange(n: int): (r: set<nat>)
    ensures forall id :: id in r <==> 0 <= id < n
    decreases n
  {
    if n <= 0 then {} else IdRange(n - 1) + {(n - 1) as nat}
  }

  /** The logical ids waiting for a restart. */
  function PendingIds(pending: seq<nat>): (r: set<nat>) {
    set i | 0 <= i < |pending| :: pending[i]
  }

  /** No alive worker shares its logical id with another. */
  ghost predicate Injective(workers: map<Pid, nat>) {
    forall p, q :: p in workers && q in workers && p != q ==> workers[p] != workers[q]
  }

  /** No logical id waits twice. */
  ghost predicate Distinct(pending: seq<nat>) {
    forall i, j :: 0 <= i < j < |pending| ==> pending[i] != pending[j]
  }

  /**
   * Every logical id 0..n-1 is carried by exactly one alive worker or by
   * exactly one pending restart, and no other id is.
   */
  ghost predicate ExactlyOnce(workers: map<Pid, nat>, pending: seq<nat>, n: int) {
    && Injective(workers)
    && Distinct(pending)
    && workers.Values !! PendingIds(pending)
    && workers.Values + PendingIds(pending) == IdRange(n)
  }

  lemma {:induction false} IdRangeSize(n: nat)
    ensures |IdRange(n)| == n
  {
    if n > 0 {
      IdRangeSize(n - 1);
    }
  }

  /** Removing a key leaves every value but possibly the removed one. */
  lemma ValuesAfterRemove(m: map<Pid, nat>, k: Pid)
    requires k in m
    ensures m.Values == (m - {k}).Values + {m[k]}
  {
    var rest := m - {k};
    forall v | v in m.Values ensures v in rest.Values + {m[k]} {
      var q :| q in m && m[q] == v;
      if q != k {
        assert rest[q] == v;
      }
    }
    forall v | v in rest.Values ensures v in m.Values {
      var q :| q in rest && rest[q] == v;
      assert m[q] == v;
    }
  }

  /** Adding a fresh key adds exactly its value. */
  lemma ValuesAfterAdd(m: map<Pid, nat>, k: Pid, v: nat)
    requires k !in m
    ensures m[k := v].Values == m.Values + {v}
  {
    var w := m[k := v];
    ValuesAfterRemove(w, k);
    assert w - {k} == m;
  }

  lemma PendingIdsAppend(pending: seq<nat>, id: nat)
    ensures PendingIds(pending + [id]) == PendingIds(pending) + {id}
  {
    var s := pending + [id];
    forall x | x in PendingIds(pending) ensures x in PendingIds(s) {
      var i :| 0 <= i < |pending| && pending[i] == x;
      assert s[i] == x;
    }
    assert s[|pending|] == id;
  }

  lemma PendingIdsTail(pending: seq<nat>)
    requires pending != []
    ensures PendingIds(pending) == PendingIds(pending[1..]) + {pending[0]}
  {
    var t := pending[1..];
    forall x | x in PendingIds(pending) ensures x in PendingIds(t) + {pending[0]} {
      var i :| 0 <= i < |pending| && pending[i] == x;
      if i > 0 {
        assert t[i - 1] == x;
      }
    }
    forall x | x in PendingIds(t) ensures x in PendingIds(pending) {
      var i :| 0 <= i < |t| && t[i] == x;
      assert pending[i + 1] == x;
    }
  }

  lemma {:induction false} InjectiveValuesSize(workers: map<Pid, nat>)
    requires Injective(workers)
    ensures |workers.Values| == |workers|
    decreases |workers|
  {
    if workers != map[] {
      var p :| p in workers;
      var rest := workers - {p};
      InjectiveValuesSize(rest);
      ValuesAfterRemove(workers, p);
      assert workers[p] !in rest.Values;
    }
  }

  lemma {:induction false} DistinctSize(pending: seq<nat>)
    requires Distinct(pending)
    ensures |PendingIds(pending)| == |pending|
  {
    if pending != [] {
      var last := |pending| - 1;
      DistinctSize(pending[..last]);
      assert pending == pending[..last] + [pending[last]];
      PendingIdsAppend(pending[..last], pending[last]);
    }
  }

  /**
   * Under the invariant, the alive workers and the pending restarts
   * together number exactly n: with no restart pending, n workers are alive.
   */
  lemma ProcessCount(workers: map<Pid, nat>, pending: seq<nat>, n: nat)
    requires ExactlyOnce(workers, pending, n)
    ensures |workers| + |pending| == n
  {
    IdRangeSize(n);
    InjectiveValuesSize(workers);
    DistinctSize(pending);
  }

  /** The master's view of its workers. */
  class ClusterMaster {
    const spawnClusterProcs: int
    const role: Role
    /** Alive workers: process id to logical id. */
    var workers: map<Pid, nat>
    /** Logical ids whose restart timer is running, in firing order. */
    var pending: seq<nat>
    /** Next fresh process id. */
    var nextPid: Pid

    ghost predicate Valid()
      reads this
    {
      && (forall p :: p in workers ==> p < nextPid)
      && (role == Master ==> ExactlyOnce(workers, pending, spawnClusterProcs))
      && (role != Master ==> workers == map[] && pending == [])
    }

    /**
     * The constructor: decides the role and, as master, forks one worker
     * per logical id 0..N-1 (none when N is negative).
     */
    constructor (spawnClusterProcs: int, isMaster: bool)
      ensures Valid()
      ensures this.spawnClusterProcs == spawnClusterProcs
      ensures role == RoleFor(spawnClusterProcs, isMaster)
      ensures pending == []
      ensures role == Master ==> workers.Values == IdRange(spawnClusterProcs)
      ensures role == Master && spawnClusterProcs >= 0 ==> |workers| == spawnClusterProcs
    {
      this.spawnClusterProcs := spawnClusterProcs;
      role := RoleFor(spawnClusterProcs, isMaster);
      workers := map[];
      pending := [];
      nextPid := 0;
      new;
      if role == Master {
        ForkAll();
      }
    }

    /** The master's start-up loop: forks workers 0..N-1, one each, in order. */
    method ForkAll()
      requires workers == map[] && pending == []
      modifies this
      ensures pending == [] && nextPid == old(nextPid) + |workers|
      ensures forall p :: p in workers ==> p < nextPid
      ensures ExactlyOnce(workers, [], spawnClusterProcs)
      ensures spawnClusterProcs >= 0 ==> |workers| == spawnClusterProcs
    {
      var i := 0;
      while i < spawnClusterProcs
        invariant 0 <= i && (spawnClusterProcs >= 0 ==> i <= spawnClusterProcs)
        invariant spawnClusterProcs < 0 ==> i == 0
        invariant pending == [] && nextPid == old(nextPid) + i
        invariant forall p :: p in workers ==> p < nextPid
        invariant ExactlyOnce(workers, [], i)
        invariant |workers| == i
      {
        ForkNext(workers, nextPid, i);
        var _ := Fork(i);
        i := i + 1;
      }
      if spawnClusterProcs < 0 {
        assert IdRange(spawnClusterProcs) == {} == IdRange(i);
      }
    }

    /** Forks a worker carrying `workerId` under a fresh process id. */
    method Fork(workerId: nat) returns (pid: Pid)
      requires forall p :: p in workers ==> p < nextPid
      modifies this
      ensures pid == old(nextPid) && pid !in old(workers)
      ensures workers == old(workers)[pid := workerId]
      ensures pending == old(pending) && nextPid == old(nextPid) + 1
      ensures forall p :: p in workers ==> p < nextPid
    {
      pid := nextPid;
      workers := workers[pid := workerId];
      nextPid := nextPid + 1;
    }

    /**
     * The `exit` handler: the worker is gone, and exactly one restart with
     * its logical id is scheduled after `restartDelayMs`; every other
     * worker is untouched.
     */
    method OnWorkerExit(pid: Pid) returns (restartDelayMs: int)
      requires Valid() && role == Master && pid in workers
      modifies this
      ensures Valid()
      ensures workers == old(workers) - {pid}
      ensures pending == old(pending) + [old(workers)[pid]]
      ensures nextPid == old(nextPid)
      ensures restartDelayMs == RestartDelayMs
    {
      var workerId := workers[pid];
      ExitPreserves(workers, pending, pid, spawnClusterProcs);
      workers := workers - {pid};
      pending := pending + [workerId];
      restartDelayMs := 10000;
    }

    /** The oldest restart timer fires: a fresh process takes over its logical id. */
    method FireRestart() returns (pid: Pid)
      requires Valid() && pending != []
      modifies this
      ensures Valid()
      ensures pid == old(nextPid) && pid !in old(workers)
      ensures workers == old(workers)[pid := old(pending)[0]]
      ensures pending == old(pending)[1..] && nextPid == old(nextPid) + 1
    {
      var workerId := pending[0];
      ForkPreserves(workers, pending[1..], nextPid, workerId, spawnClusterProcs);
      PendingIdsTail(pending);
      pending := pending[1..];
      pid := Fork(workerId);
    }
  }

  /** Removing an exited worker and queueing its id keeps every id exactly once. */
  lemma ExitPreserves(workers: map<Pid, nat>, pending: seq<nat>, pid: Pid, n: int)
    requires ExactlyOnce(workers, pending, n) && pid in workers
    ensures ExactlyOnce(workers - {pid}, pending + [workers[pid]], n)
  {
    var rest := workers - {pid};
    var id := workers[pid];
    ValuesAfterRemove(workers, pid);
    PendingIdsAppend(pending, id);
  }

  /** Forking the next logical id at start-up extends the ids 0..i-1 to 0..i. */
  lemma ForkNext(workers: map<Pid, nat>, pid: Pid, i: nat)
    requires ExactlyOnce(workers, [], i) && pid !in workers
    ensures ExactlyOnce(workers[pid := i], [], i + 1)
    ensures |workers[pid := i]| == |workers| + 1
  {
    var none: seq<nat> := [];
    assert PendingIds(none) == {};
    assert workers.Values == IdRange(i);
    assert i !in IdRange(i);
    ForkPreserves(workers, none, pid, i, i);
    var w := workers[pid := i];
    assert w.Values == IdRange(i) + {i} == IdRange(i + 1);
    assert w.Values + PendingIds(none) == IdRange(i + 1);
  }

  /** Giving a fresh process an id that is nowhere else keeps every id exactly once. */
  lemma ForkPreserves(workers: map<Pid, nat>, pending: seq<nat>, pid: Pid, id: nat, n: int)
    requires Injective(workers) && Distinct(pending) && workers.Values !! PendingIds(pending)
    requires pid !in workers && id !in workers.Values && id !in PendingIds(pending)
    ensures var w := workers[pid := id];
      && Injective(w) && Distinct(pending) && w.Values !! PendingIds(pending)
      && w.Values == workers.Values + {id}
  {
    ValuesAfterAdd(workers, pid, id);
  }
}
