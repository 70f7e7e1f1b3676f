# pi-calculator: the fan-out/fan-in coordinator

pi-calculator estimates pi in two ways:

- with the Leibniz series, paired into terms `2 / ((4k + 1)(4k + 3))`;
- by Monte Carlo sampling of the unit square.

It does this in three settings:

- a socket server that hands chunks of the work to a target number of clients;
- a worker-thread pool with one worker per CPU;
- a sequential baseline with the same chunk structure.

Every variant follows the same pattern:

- split the work into chunks and fan it out, one per worker;
- collect the partial results as they arrive, in any order;
- when nothing is outstanding, estimate pi once from the total.

This project models the coordinator side of all six scripts and proves what they promise:

- **Chunk tiling.** The chunk loop visits `0, S, 2S, ...` below `S * N`: N starts, the k-th is `k * S`, and the chunks tile `[0, S * N)` without overlap.
- **Dispatch gating.** Jobs go out only on the connection that makes the count equal the target. This is strict equality, so later connections never dispatch again.
- **Pending count.** It counts down to 0 exactly on the last report.
- **Pool bookkeeping.** The threaded Leibniz pool plus the exited workers always add up to all workers.
- **Order independence.** The accumulated total does not depend on arrival order.
- **One estimate.** On a complete run (for the servers, the happy path) with at least one worker, pi is estimated exactly once, as `4 * sum` or `4 * hits / samples`. With no CPU the thread pools print no estimate.
- **Monte Carlo range.** The sequential Monte Carlo estimate lies in `[0, 4]` whenever there is at least one point; with none the script prints NaN (0 / 0). The server and thread variants lie in `[0, 4]` only when every reported count is within its points, because their counts come from outside.

Module layout:

- One module per script: `LeibnizServer`, `MonteCarloServer`, `LeibnizMultiThread`, `MonteCarloMultiThread`, `LeibnizSingleThread`, `MonteCarloSingleThread`.
- Four shared modules:
  - `Sums`: sums over sequences of worker numbers, and their independence of order;
  - `Chunks`: chunk starts, tiling, chunked summation;
  - `Events`: the thread event traces;
  - `Estimates`: the two estimate formulas and the reference constant.

Modelling choices:

- **Servers.** The script-level state (`connectedClients`, `jobsPending`, the accumulator, the `clients` Set) becomes the fields of a `Server` class. Its `connection` and `data` handlers are the methods `Connect` and `Data`.
  - What a server sends is recorded in `emitted`.
  - Each estimate it prints is appended to `estimates`.
  - The `clients` Set is an insertion-ordered sequence without repeats, because a JavaScript Set iterates in insertion order.
- **Thread pools.** Each pool is a `ThreadPool` class, and the listeners are its methods `Message` and `Exit`.
  - A run of a pool is a sequence of `Message(w)` and `Exit(w)` events.
  - The worker runtime delivers exactly one message and then exactly one exit per worker, interleaved arbitrarily with the other workers. This is `Events.CompleteRun`.
- **Sequential baselines.** The loops are methods with loop invariants. The Monte Carlo `reduce` is a recursive function.
- **Numbers.** Floats are modelled as `real` and hit counts as `int`.
- **Inputs from outside.** The random draws, the per-client results and the CPU count are parameters. So are the source's constants (2 clients, 1e8 or 1e9 per chunk). The constructors of both `Server`s and of `MonteCarloMultiThread.ThreadPool` require them positive. The `LeibnizMultiThread.ThreadPool` constructor also accepts a chunk size of 0, which creates no worker.

The code has no guards, and the model keeps it that way:

- **Joins past the target** are counted and never dispatch again, because the test is strict equality.
- **Duplicate reports, and reports before dispatch,** still decrement `jobsPending`, which can go negative. The estimate fires only when it equals 0 exactly. `Server.Data` models exactly that.
- **A chunk size of 0** makes the creation loop create no worker. `LeibnizMultiThread.CreateWorkers` states that case.

## Model

| member | source | states |
|---|---|---|
| `Chunks.ChunkLoopStep` | distributed/Leibniz/server.js:35-39 | a passing loop test `c < S * N` with `c = k * S` means S > 0 and k < N, and the iteration visits start k * S next |
| `Chunks.ChunkLoopEnd` | distributed/Leibniz/server.js:35-39 | when the loop test fails after k <= N iterations, every chunk start was visited (k = N when S > 0) |
| `Chunks.ChunkStartsShape` | distributed/Leibniz/server.js:29-42 | with S > 0 the loop visits exactly N starts, the k-th being k * S, each chunk ending within `[0, S * N)` |
| `Chunks.ChunkStartsInjective` | distributed/Leibniz/server.js:80-88 | distinct chunks start at distinct indices, so distinct clients get distinct chunk indices |
| `Chunks.ChunkContaining` | distributed/Leibniz/server.js:24-42 | every index below S * N lies in exactly one chunk `[k * S, k * S + S)`, namely chunk k / S: the chunks are disjoint and cover `[0, S * N)` |
| `Chunks.TermSumSplit` | parallel/Leibniz/single_thread.js:63-68 | summing one range and then the next range equals summing their union |
| `Chunks.ChunkedSum` | parallel/Leibniz/single_thread.js:42-48 | summing the N chunk sums in chunk order equals summing term(k) over `[0, S * N)` straight: chunked summation counts every index once |
| `Sums.SumRealReorder` | parallel/Leibniz/multi_thread.js:115-117 | a real sum over a sequence of distinct workers equals the sum over any reordering of it |
| `Sums.PermutationSumReal` | distributed/Leibniz/server.js:109 | a real sum over the workers in any arrival order (a permutation of 0 .. N-1) equals the sum in worker order |
| `Sums.PermutationSumInt` | distributed/MonteCarlo/server.js:88 | an integer sum over the workers in any arrival order equals the sum in worker order |
| `Sums.SumIntBounds` | parallel/MonteCarlo/single_thread.js:53-59 | N values each in `[0, b]` add up to a total in `[0, b * N]` |
| `Events.NotYetExited` | parallel/Leibniz/multi_thread.js:78-117 | in a complete run every event comes from a worker of the pool that has not exited yet: no message after an exit, no second exit |
| `Events.CompleteRunIsLive` | parallel/Leibniz/multi_thread.js:78-117 | every event of a complete run is from a live worker |
| `Events.AllMessaged` | parallel/Leibniz/multi_thread.js:82-88 | once every worker has exited, each worker's message has arrived exactly once |
| `Events.CompleteRunMessages` | parallel/MonteCarlo/multi_thread.js:61-95 | at the end of a complete run every worker has exited and the messages are a permutation of the workers |
| `Events.CompleteRunSumReal` | parallel/Leibniz/multi_thread.js:115-117 | over a complete run the sum of the messages is the sum over all workers, whatever the arrival order |
| `Events.CompleteRunSumInt` | parallel/MonteCarlo/multi_thread.js:93-95 | over a complete run the integer sum of the messages is the sum over all workers, whatever the arrival order |
| `Estimates.MonteCarloEstimate` | distributed/MonteCarlo/server.js:98-99 | the estimate `4 * hits / samples` (also at parallel/MonteCarlo/multi_thread.js:69-70 and parallel/MonteCarlo/single_thread.js:64) lies in `[0, 4]` whenever the hit count is between 0 and the number of samples |
| `Estimates.TotalEstimateRange` | parallel/MonteCarlo/multi_thread.js:69-70 | N hit counts, each within the points of one worker, give an estimate in `[0, 4]` over `points * N` samples |
| `Estimates.AsWrittenMisreportsExactEstimate` | distributed/Leibniz/server.js:19 | with the `realPI` constant as written, an estimate equal to pi to 20 places is reported as more than 1e-7 off |
| `Estimates.DifferenceOfExactEstimate` | distributed/Leibniz/server.js:126 | with pi's digits, such an estimate is reported within 1e-20 |
| `LeibnizServer.GeneratorChunkIndex` | distributed/Leibniz/server.js:29-42 | the generator yields the chunk starts: exactly N values when S > 0, the i-th being i * S and below S * N; none when S = 0 |
| `LeibnizServer.Server.constructor` | distributed/Leibniz/server.js:14-60 | the script starts with no connection, no pending job, a zero sum and an empty client set |
| `LeibnizServer.Server.Connect` | distributed/Leibniz/server.js:65-90 | a connection adds 1 to the count and the socket to the set; only when the count equals the target exactly, every client in set order is sent the next generator index and pending jobs grow by the number of clients; otherwise nothing else changes |
| `LeibnizServer.Server.Data` | distributed/Leibniz/server.js:95-134 | a report decrements the pending count by 1, closes that socket and adds its chunk; exactly when the count becomes 0 it appends the estimate `4 * sum` |
| `LeibnizServer.JoinAll` | distributed/Leibniz/server.js:65-90 | after distinct sockets connect in order, fewer than the target sent nothing; from the target on, one dispatch to the first target clients with the first target chunk starts |
| `LeibnizServer.ConnectAll` | distributed/Leibniz/server.js:65-90 | before the target no job is sent; at and after it exactly target jobs exist, the i-th to the i-th client with index i * S, and target jobs are pending: the dispatch happens exactly once |
| `LeibnizServer.JobAt` | distributed/Leibniz/server.js:80-87 | the job sent to client p carries chunk index p * S |
| `LeibnizServer.HappyPath` | distributed/Leibniz/server.js:65-134 | when N clients connect and each reports its chunk once in any order, the sends are the N jobs then the N closes; the pending count after report j is N - 1 - j (0 first on the last); exactly one estimate, 4 times the sum over all chunks, whatever the order |
| `MonteCarloServer.Server.constructor` | distributed/MonteCarlo/server.js:18-46 | the script starts with no connection, no pending job, no hit and an empty client set |
| `MonteCarloServer.Server.Connect` | distributed/MonteCarlo/server.js:51-70 | a connection adds 1 to the count and the socket to the set; only when the count equals the target exactly, every client is sent the identical `{pointsPerClient}` and pending jobs grow by the number of clients |
| `MonteCarloServer.Server.Data` | distributed/MonteCarlo/server.js:75-114 | a report decrements the pending count by 1, closes that socket and adds its hit count; exactly when the count becomes 0 it appends `4 * hits / (pointsPerClient * target)` |
| `MonteCarloServer.JoinAll` | distributed/MonteCarlo/server.js:51-70 | after distinct sockets connect in order, fewer than the target sent nothing; from the target on, one dispatch of identical jobs to the first target clients |
| `MonteCarloServer.ConnectAll` | distributed/MonteCarlo/server.js:56-69 | before the target no job is sent; at and after it exactly target identical jobs `{pointsPerClient}` exist and target jobs are pending |
| `MonteCarloServer.HappyPath` | distributed/MonteCarlo/server.js:51-115 | when N clients connect and each reports once in any order, the pending count after report j is N - 1 - j; the total is the integer sum of all counts, whatever the order; exactly one estimate, in `[0, 4]` when every count is within its points |
| `LeibnizMultiThread.PoolPartition` | parallel/Leibniz/multi_thread.js:57-82 | the workers left in the pool and the exited workers add up to all workers |
| `LeibnizMultiThread.CreateWorkers` | parallel/Leibniz/multi_thread.js:52-62 | the creation loop adds one worker per chunk start to the pool: with S > 0 exactly cpus workers, the k-th with workerData `{k * S, S}`; none with S = 0 |
| `LeibnizMultiThread.NotAllExited` | parallel/Leibniz/multi_thread.js:82-88 | while a worker has not exited, fewer than all workers have, so the pool is not empty |
| `LeibnizMultiThread.AllExited` | parallel/Leibniz/multi_thread.js:82-88 | once every worker has exited, the exited workers number all of them, so the pool is empty |
| `LeibnizMultiThread.ThreadPool.constructor` | parallel/Leibniz/multi_thread.js:17-62 | the script starts with every created worker in the pool, none exited, a zero sum and no estimate |
| `LeibnizMultiThread.ThreadPool.Message` | parallel/Leibniz/multi_thread.js:115-117 | a message adds its chunk to the sum |
| `LeibnizMultiThread.ThreadPool.Exit` | parallel/Leibniz/multi_thread.js:78-108 | an exit removes only that worker from the pool (the size drops by one if it was there) and keeps pool plus exited equal to all workers; exactly when the pool becomes empty it appends `4 * sum` |
| `LeibnizMultiThread.DeliverMessage` | parallel/Leibniz/multi_thread.js:115-117 | delivering a message keeps the run invariant: the sum is that of the messages so far |
| `LeibnizMultiThread.DeliverExit` | parallel/Leibniz/multi_thread.js:78-92 | delivering an exit keeps the run invariant: the exited workers are the exits so far, and there is one estimate exactly when all have exited |
| `LeibnizMultiThread.Deliver` | parallel/Leibniz/multi_thread.js:67-118 | the event loop delivering one event to its listener keeps the run invariant |
| `LeibnizMultiThread.DeliverAll` | parallel/Leibniz/multi_thread.js:67-118 | delivering a whole run of live events keeps the run invariant to its end |
| `LeibnizMultiThread.RunThreads` | parallel/Leibniz/multi_thread.js:52-118 | a complete run of cpus workers, in any interleaving, leaves the sum of every worker's chunk result and exactly one estimate `4 * sum`; with no CPU, no estimate |
| `LeibnizMultiThread.ThreadedSumIsSequentialSum` | parallel/Leibniz/worker.js:15-27 | when each worker posts `calcSummationChunk` of its workerData, the threaded sum equals the sequential sum of the first S * cpus terms |
| `MonteCarloMultiThread.CreateWorkers` | parallel/MonteCarlo/multi_thread.js:35-45 | one worker per CPU, all with the identical workerData `{pointsPerThread}` |
| `MonteCarloMultiThread.Every` | parallel/MonteCarlo/multi_thread.js:65 | the check holds exactly when every worker of the pool has exited |
| `MonteCarloMultiThread.ExitFlags` | parallel/MonteCarlo/multi_thread.js:61-65 | after one more exit the flags still mark exactly the exited workers, and all are set exactly when every worker has exited |
| `MonteCarloMultiThread.ThreadPool.constructor` | parallel/MonteCarlo/multi_thread.js:19-45 | the script starts with one un-exited worker per CPU, no hit and no estimate |
| `MonteCarloMultiThread.ThreadPool.Message` | parallel/MonteCarlo/multi_thread.js:93-95 | a message adds its hit count |
| `MonteCarloMultiThread.ThreadPool.Exit` | parallel/MonteCarlo/multi_thread.js:61-85 | an exit marks only that worker exited; the pool array does not change; exactly when every worker has exited it appends `4 * hits / (pointsPerThread * cpus)` |
| `MonteCarloMultiThread.Deliver` | parallel/MonteCarlo/multi_thread.js:50-96 | delivering one event to its listener keeps the run invariant: flags are the exits so far, hits the messages so far, one estimate exactly when all have exited |
| `MonteCarloMultiThread.DeliverAll` | parallel/MonteCarlo/multi_thread.js:50-96 | delivering a whole run of live events keeps the run invariant to its end |
| `MonteCarloMultiThread.RunThreads` | parallel/MonteCarlo/multi_thread.js:35-96 | a complete run of cpus workers, in any interleaving, leaves the integer sum of all hit counts and exactly one estimate, in `[0, 4]` when every count is within its points; with no CPU, no estimate |
| `LeibnizSingleThread.DenominatorPositive` | parallel/Leibniz/single_thread.js:45-47 | `(4k + 1)(4k + 3)` is positive for every k, so no term divides by zero |
| `LeibnizSingleThread.LeibnizTerm` | parallel/Leibniz/single_thread.js:45-47 | every term of the series is positive |
| `LeibnizSingleThread.CalcSummationChunk` | parallel/Leibniz/single_thread.js:42-51 | the chunk sum adds term(c + i) once for each i in `[0, S)`; 0 when S = 0, positive otherwise |
| `LeibnizSingleThread.SingleThreadLeibniz` | parallel/Leibniz/single_thread.js:63-74 | the outer loop visits exactly the chunk starts; the sum is the straight sum of the first S * cpus terms; the estimate is 4 times it |
| `MonteCarloSingleThread.InCircle` | parallel/MonteCarlo/single_thread.js:34 | the hit test `x * x + y * y < 1`, which is `Math.sqrt(x * x + y * y) < 1` for the non-negative radicand |
| `MonteCarloSingleThread.CountHits` | parallel/MonteCarlo/single_thread.js:30-37 | the counter grows at most once per iteration, so the count is at most the number of iterations |
| `MonteCarloSingleThread.CountHitsIsCardinality` | parallel/MonteCarlo/single_thread.js:30-36 | the count is exactly the number of iterations on which the hit test holds |
| `MonteCarloSingleThread.GetInCirclePoints` | parallel/MonteCarlo/single_thread.js:27-40 | the counting loop returns the hit count of its draws, between 0 and pointsPerThread |
| `MonteCarloSingleThread.ReduceInCirclePoints` | parallel/MonteCarlo/single_thread.js:53-59 | the reduce total is at most pointsPerThread * cpus |
| `MonteCarloSingleThread.ReduceIsSumOfKernels` | parallel/MonteCarlo/single_thread.js:53-59 | the reduce starts at 0 and adds exactly one kernel result per CPU |
| `MonteCarloSingleThread.SingleThreadMonteCarlo` | parallel/MonteCarlo/single_thread.js:53-64 | the estimate is NaN (0 / 0) exactly when there are no points; otherwise it lies in `[0, 4]` |

## Left out

- **The kernels run by clients and workers** (`distributed/*/client.js`, `parallel/*/worker.js`). Their results are parameters: `kernel`, `hitsOf`, or the values passed to `Data` and `Message`. The kernels' own loops are modelled once, in the sequential baselines. `LeibnizMultiThread.ThreadedSumIsSequentialSum` connects the two for Leibniz.
- **IEEE floating point.** Sums are exact reals. Rounding, and the dependence of float sums on summation order, are not modelled.
- **Random numbers.** `Math.random` draws are a parameter.
- **The square root.** `Math.sqrt(x * x + y * y) < 1` is modelled as `x * x + y * y < 1`. The two are equivalent for the non-negative radicand.
- **Output and shutdown.** `console.time`, `console.log`, `toPrecision(60)` and `io.close()` are not modelled. The printed estimate is the appended entry of `estimates`. The printed difference from `realPI` is a separate function in `Estimates`.
- **The socket and worker runtimes.** Namespaces, handshakes and error listeners (`throw err`) are not modelled. Neither is `os.cpus()`: the CPU count is a parameter.
- **`threadId < 0`.** It is modelled as a per-worker flag that is set when that worker's exit is delivered.
- **Real concurrency.** The event loop runs one handler at a time, so a run is a sequence of handler calls in arrival order.
- **The undeclared global `i` in `calcSummationChunk`.** It is harmless in a single-threaded script and in each worker's own global scope, so it is modelled as a local variable.
- `LeibnizMultiThread.RunThreads` requires a positive chunk size (1e9 in the source) and a complete run. A complete run is the runtime's promise of one message then one exit per worker. Runs with missing or repeated events are left to `ThreadPool.Exit` and `ThreadPool.Message`, whose contracts cover any call.
- `MonteCarloMultiThread.RunThreads` requires a complete run, as above.
- `LeibnizMultiThread.Deliver`, `LeibnizMultiThread.DeliverMessage`, `LeibnizMultiThread.DeliverExit` and `LeibnizMultiThread.DeliverAll` require events from live workers, which every complete run provides.
- `MonteCarloMultiThread.Deliver` and `MonteCarloMultiThread.DeliverAll` require events from live workers too.
- `LeibnizServer.HappyPath` states only the scenario in which exactly the target number of distinct sockets connect and each reports once. Duplicate or early reports are covered only by the per-call contract of `Server.Data`.
- `MonteCarloServer.HappyPath`: the same scenario restriction applies.
- `LeibnizServer.JoinAll`, `LeibnizServer.ConnectAll`, `MonteCarloServer.JoinAll` and `MonteCarloServer.ConnectAll` assume distinct sockets. A socket that connects twice is covered by the per-call contract of `Server.Connect`.

## Findings

| source | as written | input that shows it | evidently intended | confidence | as-written member | corrected member |
|---|---|---|---|---|---|---|
| distributed/Leibniz/server.js:19 | `realPI = 3.1415924535...`, which has 4 for 6 in the 7th decimal (and differs from pi in five later places). The other five scripts repeat it. | an estimate equal to pi to 20 places is reported with a difference below -1e-7 | the `realPI` constant, against which the estimate's error is printed, holds pi's digits | high (not executed) | `Estimates.AsWrittenMisreportsExactEstimate` | `Estimates.DifferenceOfExactEstimate` |
