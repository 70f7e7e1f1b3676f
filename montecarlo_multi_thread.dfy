/**
 * The threaded Monte Carlo coordinator: one worker per CPU, all started with
 * the same number of points; the `message` listener adds a worker's hit
 * count, and an `exit` listener estimates pi when every worker of the pool
 * has exited.
 *
 * The pool array is fixed at creation and only read afterwards.  Whether a
 * worker has exited (its thread id is negative) is `exited[position]`, set
 * when its exit is delivered.
 */
module MonteCarloMultiThread {
  import opened Sums
  import opened Events
  import opened Estimates

  /** The `workerData` a worker is started with. */
  datatype WorkerData = WorkerData(pointsPerThread: nat)

  /**
   * `os.cpus().map(...)`: one worker per CPU, every one with the identical
   * workerData {pointsPerThread}.
   */
  function CreateWorkers(cpus: nat, pointsPerThread: nat): (pool: seq<WorkerData>)
    ensures |pool| == cpus
    ensures forall k :: 0 <= k < |pool| ==> pool[k].pointsPerThread == pointsPerThread
  {
    seq(cpus, _ => WorkerData(pointsPerThread))
  }

  /** `threadPool.every(worker => worker.threadId < 0)`: has every worker exited? */
  function Every(exited: seq<bool>): (r: bool)
    ensures r <==> forall k :: 0 <= k < |exited| ==> exited[k]
  {
    if exited == [] then true else exited[0] && Every(exited[1..])
  }

  /**
   * Flags that mark exactly the exited workers stay so when one more worker
   * exits, and then all are set exactly when every worker has exited.
   */
  lemma ExitFlags(exited: seq<bool>, n: nat, exits: set<nat>, w: nat)
    requires |exited| == n && w < n
    requires forall v :: 0 <= v < n ==> (exited[v] <==> v in exits)
    ensures forall v :: 0 <= v < n ==> (exited[w := true][v] <==> v in exits + {w})
    ensures Every(exited[w := true]) <==> Range(n) <= exits + {w}
  {
    var after := exited[w := true];
    if Every(after) {
      forall v | v in Range(n) ensures v in exits + {w} {
        assert after[v];
      }
    }
    if Range(n) <= exits + {w} {
      forall v | 0 <= v < n ensures after[v] {
        assert v in Range(n);
      }
    }
  }

  class ThreadPool {
    const pointsPerThread: nat
    /** The pool array of `forEach`: never changed after creation. */
    const workers: seq<WorkerData>
    var exited: seq<bool>
    var pointsInCircle: int
    /** One entry per finalisation: the estimate printed. */
    var estimates: seq<real>

    ghost predicate Valid()
      reads this
    {
      pointsPerThread > 0 && |exited| == |workers|
    }

    /** The script's start; pointsPerThread is 1e8 in the source. */
    constructor(cpus: nat, pointsPerThread: nat)
      requires pointsPerThread > 0
      ensures Valid()
      ensures this.pointsPerThread == pointsPerThread && workers == CreateWorkers(cpus, pointsPerThread)
      ensures exited == seq(cpus, _ => false)
      ensures pointsInCircle == 0 && estimates == []
    {
      this.pointsPerThread := pointsPerThread;
      workers := CreateWorkers(cpus, pointsPerThread);
      exited := seq(cpus, _ => false);
      pointsInCircle := 0;
      estimates := [];
    }

    /** The `message` listener: add the worker's hit count. */
    method Message(incircle: int)
      requires Valid()
      modifies this`pointsInCircle
      ensures Valid()
      ensures pointsInCircle == old(pointsInCircle) + incircle
    {
      pointsInCircle := pointsInCircle + incircle;
    }

    /**
     * The `exit` listener of worker w: w is now exited; if every worker of
     * the pool has, estimate pi as 4 * pointsInCircle / (pointsPerThread * cpus).
     */
    method Exit(w: nat)
      requires Valid() && w < |workers|
      modifies this`exited, this`estimates
      ensures Valid()
      ensures exited == old(exited)[w := true]
      ensures estimates == old(estimates) +
        (if Every(exited) then [MonteCarloEstimate(pointsInCircle, pointsPerThread * |workers|)] else [])
    {
      exited := exited[w := true];
      if Every(exited) {
        var estimatedPI := MonteCarloEstimate(pointsInCircle, pointsPerThread * |workers|);
        estimates := estimates + [estimatedPI];
      }
    }
  }

  /**
   * The state of a pool after the first i events of a run: the exited flags
   * are those of the workers whose exit was delivered, the hit total is that
   * of the messages delivered (worker p's message being hitsOf(p)), and an
   * estimate has been printed, once, exactly when every worker has exited.
   */
  ghost predicate Progress(pool: ThreadPool, events: seq<ThreadEvent>, n: nat, i: nat, hitsOf: nat -> int)
    reads pool
    requires i <= |events|
  {
    && pool.Valid() && |pool.workers| == n
    && (forall w :: 0 <= w < n ==> (pool.exited[w] <==> w in Exits(events[..i])))
    && pool.pointsInCircle == SumInt(Messages(events[..i]), hitsOf)
    && (!(n > 0 && Range(n) <= Exits(events[..i])) ==> pool.estimates == [])
    && (n > 0 && Range(n) <= Exits(events[..i]) ==>
          pool.estimates == [MonteCarloEstimate(pool.pointsInCircle, pool.pointsPerThread * n)])
  }

  /**
   * The event loop delivering event i of a run to its listener; as in every
   * complete run, the event's worker is one of the pool and has not exited.
   */
  method Deliver(pool: ThreadPool, events: seq<ThreadEvent>, n: nat, i: nat, hitsOf: nat -> int)
    requires i < |events| && EventLive(events, n, i)
    requires Progress(pool, events, n, i, hitsOf)
    modifies pool
    ensures Progress(pool, events, n, i + 1, hitsOf)
  {
    Step(events, i);
    var e := events[i];
    assert e.worker in Range(n) && e.worker !in Exits(events[..i]);
    assert pool.estimates == [];
    if e.Message? {
      SumIntPush(Messages(events[..i]), e.worker, hitsOf);
      pool.Message(hitsOf(e.worker));
      assert pool.pointsInCircle == SumInt(Messages(events[..i + 1]), hitsOf);
    } else {
      ExitFlags(pool.exited, n, Exits(events[..i]), e.worker);
      pool.Exit(e.worker);
      assert Messages(events[..i + 1]) == Messages(events[..i]);
    }
  }

  /** The event loop: deliver every event of a run, in order, to its listener. */
  method DeliverAll(pool: ThreadPool, events: seq<ThreadEvent>, n: nat, hitsOf: nat -> int)
    requires LiveEvents(events, n) && Progress(pool, events, n, 0, hitsOf)
    modifies pool
    ensures Progress(pool, events, n, |events|, hitsOf)
  {
    var i := 0;
    while i < |events|
      invariant i <= |events| && Progress(pool, events, n, i, hitsOf)
    {
      Deliver(pool, events, n, i, hitsOf);
      i := i + 1;
    }
  }

  /**
   * A complete run of a fresh pool: every worker posts its hit count
   * hitsOf(p) once and exits once, in any interleaving.  Pi is then
   * estimated exactly once, on the last exit, from the integer total of
   * all hit counts whatever the arrival order, and lies in [0, 4] when
   * every count is within the points of a worker; with no CPU nothing is
   * printed.
   */
  method RunThreads(cpus: nat, pointsPerThread: nat, events: seq<ThreadEvent>, hitsOf: nat -> int)
    returns (pointsInCircle: int, estimates: seq<real>)
    requires pointsPerThread > 0 && CompleteRun(events, cpus)
    ensures pointsInCircle == SumInt(Iota(cpus), hitsOf)
    ensures cpus > 0 ==> estimates == [MonteCarloEstimate(pointsInCircle, pointsPerThread * cpus)]
    ensures cpus == 0 ==> estimates == []
    ensures cpus > 0 && (forall p: nat :: p < cpus ==> 0 <= hitsOf(p) <= pointsPerThread) ==>
      0.0 <= estimates[0] <= 4.0
  {
    var pool := new ThreadPool(cpus, pointsPerThread);
    assert events[..0] == [];
    CompleteRunIsLive(events, cpus);
    DeliverAll(pool, events, cpus, hitsOf);
    assert events[..|events|] == events;
    CompleteRunSumInt(events, cpus, hitsOf);
    pointsInCircle, estimates := pool.pointsInCircle, pool.estimates;
    if cpus > 0 && forall p: nat :: p < cpus ==> 0 <= hitsOf(p) <= pointsPerThread {
      TotalEstimateRange(cpus, pointsPerThread, hitsOf);
    }
  }
}
