/**
 * The threaded Leibniz coordinator: one worker thread per CPU, each given
 * one chunk of the series; the `message` listener adds a worker's partial
 * sum, the `exit` listener removes the worker from the pool, and the exit
 * that empties the pool estimates pi.
 *
 * A worker is identified by its position in creation order; its
 * descriptor is `workers[position]`.
 */
module LeibnizMultiThread {
  import opened Sums
  import opened Chunks
  import opened Events
  import opened Estimates
  import LeibnizSingleThread

  /** The `workerData` a worker is started with. */
  datatype WorkerData = WorkerData(currentChunkIndex: nat, chunksPerThread: nat)

  /** Removing the exited workers from all of them leaves a pool of the remaining size. */
  lemma PoolPartition(n: nat, exited: set<nat>)
    requires exited <= Range(n)
    ensures |Range(n) - exited| + |exited| == n
  {
    CardRange(n);
    assert (Range(n) - exited) + exited == Range(n);
  }

  /**
   * The creation loop: for c = 0, S, 2S, ... below S * cpus, start a worker
   * with workerData {c, S} and add it to the pool.  With a positive chunk
   * size that is exactly cpus workers, the k-th at chunk start k * S; with
   * S = 0 the loop does not run.  The starts are the chunk starts whose
   * blocks tile [0, S * cpus).
   */
  method CreateWorkers(cpus: nat, chunksPerThread: nat) returns (created: seq<WorkerData>, pool: set<nat>)
    ensures pool == Range(|created|)
    ensures |created| == |ChunkStarts(chunksPerThread, cpus)|
    ensures chunksPerThread > 0 ==> |created| == cpus
    ensures forall k :: 0 <= k < |created| ==>
      created[k] == WorkerData(ChunkStarts(chunksPerThread, cpus)[k], chunksPerThread)
    ensures forall k :: 0 <= k < |created| ==> created[k] == WorkerData(k * chunksPerThread, chunksPerThread)
  {
    var totalChunksSize := chunksPerThread * cpus;
    created, pool := [], {};
    var currentChunkIndex: nat := 0;
    ghost var starts: seq<nat> := [];
    while currentChunkIndex < totalChunksSize
      invariant |created| == |starts| <= cpus
      invariant currentChunkIndex == |created| * chunksPerThread
      invariant starts == ChunkStarts(chunksPerThread, |created|)
      invariant forall k :: 0 <= k < |created| ==> created[k] == WorkerData(starts[k], chunksPerThread)
      invariant pool == Range(|created|)
      decreases totalChunksSize - currentChunkIndex
    {
      ChunkLoopStep(|created|, cpus, chunksPerThread);
      pool := pool + {|created|};
      created := created + [WorkerData(currentChunkIndex, chunksPerThread)];
      starts := starts + [currentChunkIndex];
      currentChunkIndex := currentChunkIndex + chunksPerThread;
    }
    ChunkLoopEnd(|created|, cpus, chunksPerThread);
    if chunksPerThread > 0 {
      ChunkStartsShape(chunksPerThread, cpus);
    }
  }

  /** While a created worker has not exited, fewer than all workers have. */
  lemma NotAllExited(n: nat, exited: set<nat>, w: nat)
    requires exited <= Range(n) && w < n && w !in exited
    ensures |exited| < n
  {
    PoolPartition(n, exited);
    assert w in Range(n) - exited;
  }

  /** Once every created worker has exited, the exited workers number n. */
  lemma AllExited(n: nat, exited: set<nat>)
    requires exited <= Range(n) && Range(n) <= exited
    ensures |exited| == n
  {
    assert exited == Range(n);
    CardRange(n);
  }

  class ThreadPool {
    /** The descriptors of the workers created, in creation order. */
    const workers: seq<WorkerData>
    /** The `threadPool` Set: the workers that have not exited. */
    var threadPool: set<nat>
    var summationResult: real
    /** One entry per finalisation: the estimate printed. */
    var estimates: seq<real>
    /** The workers whose exit has been delivered. */
    ghost var exited: set<nat>

    /** The pool and the exited workers split the created workers between them. */
    ghost predicate Valid()
      reads this
    {
      && exited <= Range(|workers|)
      && threadPool == Range(|workers|) - exited
      && |threadPool| + |exited| == |workers|
    }

    /** The script's start: the workers of the creation loop, all in the pool, nothing summed yet. */
    constructor(cpus: nat, chunksPerThread: nat)
      ensures Valid()
      ensures |workers| == |ChunkStarts(chunksPerThread, cpus)|
      ensures chunksPerThread > 0 ==> |workers| == cpus
      ensures forall k :: 0 <= k < |workers| ==> workers[k] == WorkerData(k * chunksPerThread, chunksPerThread)
      ensures threadPool == Range(|workers|) && exited == {}
      ensures summationResult == 0.0 && estimates == []
    {
      var created, pool := CreateWorkers(cpus, chunksPerThread);
      PoolPartition(|created|, {});
      workers := created;
      threadPool := pool;
      summationResult := 0.0;
      estimates := [];
      exited := {};
    }

    /** The `message` listener: add the worker's partial sum. */
    method Message(chunk: real)
      requires Valid()
      modifies this`summationResult
      ensures Valid()
      ensures summationResult == old(summationResult) + chunk
    {
      summationResult := summationResult + chunk;
    }

    /**
     * The `exit` listener of worker w: remove w alone from the pool, and if
     * the pool is now empty estimate pi as four times the accumulated sum.
     */
    method Exit(w: nat)
      requires Valid() && w < |workers|
      modifies this`threadPool, this`exited, this`estimates
      ensures Valid()
      ensures threadPool == old(threadPool) - {w} && exited == old(exited) + {w}
      ensures w in old(threadPool) ==> |threadPool| == |old(threadPool)| - 1
      ensures estimates == old(estimates) + (if |threadPool| == 0 then [LeibnizEstimate(summationResult)] else [])
    {
      threadPool := threadPool - {w};
      exited := exited + {w};
      assert threadPool == Range(|workers|) - exited;
      PoolPartition(|workers|, exited);
      if |threadPool| == 0 {
        var estimatedPI := LeibnizEstimate(summationResult);
        estimates := estimates + [estimatedPI];
      }
    }
  }

  /**
   * The state of a pool after the first i events of a run: the workers that
   * exited are those whose exit was delivered, the sum is that of the
   * messages delivered (worker p's message being f(p)), and an estimate has
   * been printed, once, exactly when all n workers have exited.
   */
  ghost predicate Progress(pool: ThreadPool, events: seq<ThreadEvent>, n: nat, i: nat, f: nat -> real)
    reads pool
    requires i <= |events|
  {
    && pool.Valid() && |pool.workers| == n
    && pool.exited == Exits(events[..i])
    && pool.summationResult == SumReal(Messages(events[..i]), f)
    && (!(n > 0 && |pool.exited| == n) ==> pool.estimates == [])
    && (n > 0 && |pool.exited| == n ==> pool.estimates == [LeibnizEstimate(pool.summationResult)])
  }

  /**
   * The event loop delivering message i of a run to the `message` listener;
   * as in every complete run, its worker is one of the pool and has not
   * exited.  Worker p's message is its partial sum f(p).
   */
  method DeliverMessage(pool: ThreadPool, events: seq<ThreadEvent>, n: nat, i: nat, f: nat -> real)
    requires i < |events| && events[i].Message?
    requires EventLive(events, n, i)
    requires Progress(pool, events, n, i, f)
    modifies pool
    ensures Progress(pool, events, n, i + 1, f)
  {
    var w := events[i].worker;
    MessageStep(events, i);
    SumRealPush(Messages(events[..i]), w, f);
    NotAllExited(n, pool.exited, w);
    pool.Message(f(w));
  }

  /** The event loop delivering exit i of a run to the `exit` listener of its worker. */
  method DeliverExit(pool: ThreadPool, events: seq<ThreadEvent>, n: nat, i: nat, f: nat -> real)
    requires i < |events| && events[i].Exit?
    requires EventLive(events, n, i)
    requires Progress(pool, events, n, i, f)
    modifies pool
    ensures Progress(pool, events, n, i + 1, f)
  {
    var w := events[i].worker;
    ExitStep(events, i);
    NotAllExited(n, pool.exited, w);
    pool.Exit(w);
  }

  /** The event loop delivering event i of a run to its listener. */
  method Deliver(pool: ThreadPool, events: seq<ThreadEvent>, n: nat, i: nat, f: nat -> real)
    requires i < |events| && EventLive(events, n, i)
    requires Progress(pool, events, n, i, f)
    modifies pool
    ensures Progress(pool, events, n, i + 1, f)
  {
    if events[i].Message? {
      DeliverMessage(pool, events, n, i, f);
    } else {
      DeliverExit(pool, events, n, i, f);
    }
  }

  /** The event loop: deliver every event of a run, in order, to its listener. */
  method DeliverAll(pool: ThreadPool, events: seq<ThreadEvent>, n: nat, f: nat -> real)
    requires LiveEvents(events, n) && Progress(pool, events, n, 0, f)
    modifies pool
    ensures Progress(pool, events, n, |events|, f)
  {
    var i := 0;
    while i < |events|
      invariant i <= |events| && Progress(pool, events, n, i, f)
    {
      Deliver(pool, events, n, i, f);
      i := i + 1;
    }
  }

  /**
   * A complete run of a fresh pool: every worker p posts `kernel(p * S)`,
   * the kernel applied to its chunk start, once and exits once, in any
   * interleaving.  Pi is then estimated exactly once, on the last exit and
   * from the sum of every worker's partial sum, whatever the arrival order;
   * with no CPU there is no worker, no exit, and nothing is printed.
   */
  method RunThreads(cpus: nat, chunksPerThread: nat, events: seq<ThreadEvent>, kernel: nat -> real)
    returns (summationResult: real, estimates: seq<real>)
    requires chunksPerThread > 0 && CompleteRun(events, cpus)
    ensures summationResult == SumReal(Iota(cpus), ChunkResults(kernel, chunksPerThread))
    ensures cpus > 0 ==> estimates == [LeibnizEstimate(summationResult)]
    ensures cpus == 0 ==> estimates == []
  {
    var f := ChunkResults(kernel, chunksPerThread);
    var pool := new ThreadPool(cpus, chunksPerThread);
    assert events[..0] == [];
    CompleteRunIsLive(events, cpus);
    DeliverAll(pool, events, cpus, f);
    assert events[..|events|] == events;
    CompleteRunSumReal(events, cpus, f);
    AllExited(cpus, pool.exited);
    summationResult, estimates := pool.summationResult, pool.estimates;
  }

  /**
   * The workers run `calcSummationChunk` on their workerData, the chunk sum
   * of LeibnizSingleThread.  The threaded sum is then the sequential one:
   * the first S * cpus terms of the series, each counted once.
   */
  lemma ThreadedSumIsSequentialSum(cpus: nat, chunksPerThread: nat, kernel: nat -> real)
    requires forall c: nat :: kernel(c) == TermSum(LeibnizSingleThread.LeibnizTerm, c, chunksPerThread)
    ensures SumReal(Iota(cpus), ChunkResults(kernel, chunksPerThread))
         == TermSum(LeibnizSingleThread.LeibnizTerm, 0, chunksPerThread * cpus)
  {
    var posted := ChunkResults(kernel, chunksPerThread);
    var chunkSums := ChunkResults(ChunkSums(LeibnizSingleThread.LeibnizTerm, chunksPerThread), chunksPerThread);
    forall p: nat
      ensures posted(p) == chunkSums(p)
    {
      var c := p * chunksPerThread;
      assert posted(p) == kernel(c);
      assert chunkSums(p) == TermSum(LeibnizSingleThread.LeibnizTerm, c, chunksPerThread);
    }
    SumRealExt(Iota(cpus), posted, chunkSums);
    ChunkedSum(LeibnizSingleThread.LeibnizTerm, chunksPerThread, cpus);
  }
}
