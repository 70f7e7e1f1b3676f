/**
 * The distributed Leibniz coordinator: a socket server that waits for a
 * target number of clients, sends each one chunk of the series, adds up
 * the partial sums the clients send back and estimates pi when no job is
 * pending.
 *
 * The module-level state of the server script (connectedClients,
 * jobsPending, summationResult, the clients Set) becomes the fields of
 * Server, and the `connection` and `data` handlers its methods.  What the
 * server sends to sockets is recorded in `emitted`, the estimates it prints
 * in `estimates`.
 */
module LeibnizServer {
  import opened Sums
  import opened Chunks
  import opened Events
  import opened Estimates

  /** A message the server emits to one client socket. */
  datatype Emit =
    | PiJob(to: SocketId, chunksPerClient: nat, currentChunkIndex: nat)
    | Close(to: SocketId)

  /**
   * `generatorChunkIndex`, drained: the indices 0, S, 2S, ... below
   * S * targetConnectedClients, so one per client, the i-th being i * S.
   */
  method GeneratorChunkIndex(chunksPerClient: nat, targetConnectedClients: nat) returns (indices: seq<nat>)
    ensures indices == ChunkStarts(chunksPerClient, targetConnectedClients)
    ensures chunksPerClient > 0 ==> |indices| == targetConnectedClients
    ensures forall i :: 0 <= i < |indices| ==>
      indices[i] == i * chunksPerClient && indices[i] < chunksPerClient * targetConnectedClients
  {
    var totalChunksSize := chunksPerClient * targetConnectedClients;
    indices := [];
    var currentChunkIndex: nat := 0;
    ghost var yielded: nat := 0;
    while currentChunkIndex < totalChunksSize
      invariant yielded <= targetConnectedClients
      invariant currentChunkIndex == yielded * chunksPerClient
      invariant indices == ChunkStarts(chunksPerClient, yielded)
      decreases totalChunksSize - currentChunkIndex
    {
      ChunkLoopStep(yielded, targetConnectedClients, chunksPerClient);
      indices := indices + [currentChunkIndex];
      currentChunkIndex := currentChunkIndex + chunksPerClient;
      yielded := yielded + 1;
    }
    ChunkLoopEnd(yielded, targetConnectedClients, chunksPerClient);
    if chunksPerClient > 0 {
      ChunkStartsShape(chunksPerClient, targetConnectedClients);
    }
  }

  /** The jobs of one dispatch: the i-th client in set order gets the i-th generated index. */
  function Jobs(clients: seq<SocketId>, chunksPerClient: nat, indices: seq<nat>): seq<Emit>
    requires |clients| <= |indices|
  {
    seq(|clients|, i requires 0 <= i < |clients| => PiJob(clients[i], chunksPerClient, indices[i]))
  }

  /** The close signals sent while the clients at positions `order` report, in that order. */
  function Closes(sockets: seq<SocketId>, order: seq<nat>): seq<Emit>
    requires forall j :: 0 <= j < |order| ==> order[j] < |sockets|
  {
    seq(|order|, j requires 0 <= j < |order| => Close(sockets[order[j]]))
  }

  lemma JobAt(sockets: seq<SocketId>, chunksPerClient: nat, rest: seq<Emit>, p: nat)
    requires chunksPerClient > 0 && p < |sockets|
    ensures |ChunkStarts(chunksPerClient, |sockets|)| == |sockets|
    ensures (Jobs(sockets, chunksPerClient, ChunkStarts(chunksPerClient, |sockets|)) + rest)[p]
         == PiJob(sockets[p], chunksPerClient, p * chunksPerClient)
  {
    ChunkStartsShape(chunksPerClient, |sockets|);
  }

  lemma ClosesSnoc(sockets: seq<SocketId>, order: seq<nat>, j: nat)
    requires j < |order| && forall k :: 0 <= k < |order| ==> order[k] < |sockets|
    ensures Closes(sockets, order[..j + 1]) == Closes(sockets, order[..j]) + [Close(sockets[order[j]])]
  {
  }

  class Server {
    const targetConnectedClients: nat
    const chunksPerClient: nat
    var connectedClients: int
    /** Clients that received a job and have not reported yet; nothing keeps it from going negative. */
    var jobsPending: int
    var summationResult: real
    /** The `clients` Set: iteration order is insertion order, and adding a present socket changes nothing. */
    var clients: seq<SocketId>
    var emitted: seq<Emit>
    /** One entry per finalisation: the estimate printed. */
    var estimates: seq<real>

    ghost predicate Valid()
      reads this
    {
      && targetConnectedClients > 0
      && chunksPerClient > 0
      && Distinct(clients)
      && |clients| <= connectedClients
    }

    /** The script's initial state; the two constants are 2 and 1e8 in the source. */
    constructor(targetConnectedClients: nat, chunksPerClient: nat)
      requires targetConnectedClients > 0 && chunksPerClient > 0
      ensures Valid()
      ensures this.targetConnectedClients == targetConnectedClients && this.chunksPerClient == chunksPerClient
      ensures connectedClients == 0 && jobsPending == 0 && summationResult == 0.0
      ensures clients == [] && emitted == [] && estimates == []
    {
      this.targetConnectedClients := targetConnectedClients;
      this.chunksPerClient := chunksPerClient;
      connectedClients := 0;
      jobsPending := 0;
      summationResult := 0.0;
      clients := [];
      emitted := [];
      estimates := [];
    }

    /**
     * The `connection` handler: count the client and add it to the set; on
     * the connection that makes the count equal to the target (strict
     * equality), send every client in set order the next generated chunk
     * index and count one pending job per client.
     */
    method Connect(socket: SocketId)
      requires Valid()
      modifies this`connectedClients, this`clients, this`emitted, this`jobsPending
      ensures Valid()
      ensures connectedClients == old(connectedClients) + 1
      ensures clients == if socket in old(clients) then old(clients) else old(clients) + [socket]
      ensures connectedClients == targetConnectedClients ==>
        && emitted == old(emitted) + Jobs(clients, chunksPerClient, ChunkStarts(chunksPerClient, targetConnectedClients))
        && jobsPending == old(jobsPending) + |clients|
      ensures connectedClients != targetConnectedClients ==>
        emitted == old(emitted) && jobsPending == old(jobsPending)
    {
      connectedClients := connectedClients + 1;
      if socket !in clients {
        clients := clients + [socket];
      }
      if connectedClients == targetConnectedClients {
        var trackChunkIndex := GeneratorChunkIndex(chunksPerClient, targetConnectedClients);
        ghost var registered := clients;
        ghost var emittedBefore, pendingBefore := emitted, jobsPending;
        var i := 0;
        while i < |clients|
          invariant clients == registered && connectedClients == targetConnectedClients
          invariant i <= |clients| <= |trackChunkIndex|
          invariant emitted == emittedBefore + Jobs(clients[..i], chunksPerClient, trackChunkIndex)
          invariant jobsPending == pendingBefore + i
        {
          assert Jobs(clients[..i + 1], chunksPerClient, trackChunkIndex)
              == Jobs(clients[..i], chunksPerClient, trackChunkIndex) + [PiJob(clients[i], chunksPerClient, trackChunkIndex[i])];
          emitted := emitted + [PiJob(clients[i], chunksPerClient, trackChunkIndex[i])];
          jobsPending := jobsPending + 1;
          i := i + 1;
        }
        assert clients[..i] == clients;
      }
    }

    /**
     * The `data` handler of one socket: one job fewer pending, close that
     * socket, add its chunk to the sum, and when no job is pending estimate
     * pi as four times the sum.
     */
    method Data(socket: SocketId, chunk: real)
      requires Valid()
      modifies this`jobsPending, this`emitted, this`summationResult, this`estimates
      ensures Valid()
      ensures jobsPending == old(jobsPending) - 1
      ensures emitted == old(emitted) + [Close(socket)]
      ensures summationResult == old(summationResult) + chunk
      ensures estimates == old(estimates) + (if jobsPending == 0 then [LeibnizEstimate(summationResult)] else [])
    {
      jobsPending := jobsPending - 1;
      emitted := emitted + [Close(socket)];
      summationResult := summationResult + chunk;
      if jobsPending == 0 {
        var estimatedPI := LeibnizEstimate(summationResult);
        estimates := estimates + [estimatedPI];
      }
    }
  }

  /** Drives the `connection` handler once per socket, in order. */
  method JoinAll(server: Server, sockets: seq<SocketId>)
    requires server.Valid() && server.connectedClients == 0 && server.clients == []
    requires server.emitted == [] && server.jobsPending == 0
    requires Distinct(sockets)
    modifies server
    ensures server.Valid()
    ensures server.connectedClients == |sockets| && server.clients == sockets
    ensures server.summationResult == old(server.summationResult) && server.estimates == old(server.estimates)
    ensures |sockets| < server.targetConnectedClients ==> server.emitted == [] && server.jobsPending == 0
    ensures |sockets| >= server.targetConnectedClients ==>
      && server.jobsPending == server.targetConnectedClients
      && server.emitted == Jobs(sockets[..server.targetConnectedClients], server.chunksPerClient,
                                ChunkStarts(server.chunksPerClient, server.targetConnectedClients))
  {
    var i := 0;
    while i < |sockets|
      invariant i <= |sockets|
      invariant server.Valid()
      invariant server.connectedClients == i && server.clients == sockets[..i]
      invariant server.summationResult == old(server.summationResult) && server.estimates == old(server.estimates)
      invariant i < server.targetConnectedClients ==> server.emitted == [] && server.jobsPending == 0
      invariant i >= server.targetConnectedClients ==>
        && server.jobsPending == server.targetConnectedClients
        && server.emitted == Jobs(sockets[..server.targetConnectedClients], server.chunksPerClient,
                                  ChunkStarts(server.chunksPerClient, server.targetConnectedClients))
    {
      assert sockets[i] !in sockets[..i];
      assert sockets[..i + 1] == sockets[..i] + [sockets[i]];
      server.Connect(sockets[i]);
      i := i + 1;
    }
    assert sockets[..i] == sockets;
  }

  /**
   * Connection gating on a fresh server, each connection a new socket:
   * fewer than the target connections send no job at all; once the target
   * is reached, exactly one dispatch has happened, to the first target
   * clients, the i-th receiving chunk index i * chunksPerClient, and later
   * connections never dispatch again.
   */
  method ConnectAll(targetConnectedClients: nat, chunksPerClient: nat, sockets: seq<SocketId>)
    returns (emitted: seq<Emit>, jobsPending: int)
    requires targetConnectedClients > 0 && chunksPerClient > 0 && Distinct(sockets)
    ensures |sockets| < targetConnectedClients ==> emitted == [] && jobsPending == 0
    ensures |sockets| >= targetConnectedClients ==>
      && jobsPending == targetConnectedClients
      && |emitted| == targetConnectedClients
      && forall i :: 0 <= i < targetConnectedClients ==>
           emitted[i] == PiJob(sockets[i], chunksPerClient, i * chunksPerClient)
  {
    var server := new Server(targetConnectedClients, chunksPerClient);
    JoinAll(server, sockets);
    emitted, jobsPending := server.emitted, server.jobsPending;
    ChunkStartsShape(chunksPerClient, targetConnectedClients);
  }

  /**
   * The happy path on a fresh server: the target number of distinct clients
   * connect, then each of them reports exactly once, in any order, the
   * partial sum `kernel(index)` of the chunk index it was sent.  The pending
   * count falls by one per report and first reaches 0 on the last one; pi is
   * estimated exactly once, as four times the sum of all chunks, which does
   * not depend on the report order.
   */
  method HappyPath(targetConnectedClients: nat, chunksPerClient: nat, sockets: seq<SocketId>,
                   order: seq<nat>, kernel: nat -> real)
    returns (emitted: seq<Emit>, pendingAfter: seq<int>, estimates: seq<real>)
    requires targetConnectedClients > 0 && chunksPerClient > 0
    requires Distinct(sockets) && |sockets| == targetConnectedClients
    requires Permutation(order, targetConnectedClients)
    ensures emitted == Jobs(sockets, chunksPerClient, ChunkStarts(chunksPerClient, targetConnectedClients))
                       + Closes(sockets, order)
    ensures |pendingAfter| == targetConnectedClients
    ensures forall j :: 0 <= j < |pendingAfter| ==> pendingAfter[j] == targetConnectedClients - 1 - j
    ensures estimates == [LeibnizEstimate(SumReal(Iota(targetConnectedClients), ChunkResults(kernel, chunksPerClient)))]
  {
    var n := targetConnectedClients;
    var server := new Server(n, chunksPerClient);
    JoinAll(server, sockets);
    assert sockets[..n] == sockets;
    ChunkStartsShape(chunksPerClient, n);
    PermutationLength(order, n);
    ghost var jobs := server.emitted;
    ghost var f := ChunkResults(kernel, chunksPerClient);
    pendingAfter := [];
    var j := 0;
    while j < |order|
      invariant j <= |order| == n
      invariant server.Valid() && server.targetConnectedClients == n && server.chunksPerClient == chunksPerClient
      invariant server.emitted == jobs + Closes(sockets, order[..j])
      invariant server.jobsPending == n - j
      invariant server.summationResult == SumReal(order[..j], f)
      invariant j < n ==> server.estimates == []
      invariant j == n ==> server.estimates == [LeibnizEstimate(server.summationResult)]
      invariant |pendingAfter| == j && forall k :: 0 <= k < j ==> pendingAfter[k] == n - 1 - k
    {
      // The client at position order[j] answers the job it was sent.
      var job := server.emitted[order[j]];
      JobAt(sockets, chunksPerClient, Closes(sockets, order[..j]), order[j]);
      ClosesSnoc(sockets, order, j);
      SumRealSnoc(order, j, f);
      server.Data(job.to, kernel(job.currentChunkIndex));
      pendingAfter := pendingAfter + [server.jobsPending];
      j := j + 1;
    }
    assert order[..j] == order;
    PermutationSumReal(order, n, f);
    emitted, estimates := server.emitted, server.estimates;
  }
}
