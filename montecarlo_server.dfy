/**
 * The distributed Monte Carlo coordinator: a socket server that waits for a
 * target number of clients, sends each one the same sampling job, adds up
 * the hit counts the clients send back and estimates pi from the ratio of
 * hits to samples when no job is pending.
 *
 * As in LeibnizServer, the script's module-level state becomes the fields of
 * Server and its `connection` and `data` handlers its methods.
 */
module MonteCarloServer {
  import opened Sums
  import opened Events
  import opened Estimates

  /** A message the server emits to one client socket. */
  datatype Emit =
    | PiJob(to: SocketId, pointsPerClient: nat)
    | Close(to: SocketId)

  /** The jobs of one dispatch: every client, in set order, gets the identical payload. */
  function Jobs(clients: seq<SocketId>, pointsPerClient: nat): seq<Emit>
  {
    seq(|clients|, i requires 0 <= i < |clients| => PiJob(clients[i], pointsPerClient))
  }

  /** The close signals sent while the clients at positions `order` report, in that order. */
  function Closes(sockets: seq<SocketId>, order: seq<nat>): seq<Emit>
    requires forall j :: 0 <= j < |order| ==> order[j] < |sockets|
  {
    seq(|order|, j requires 0 <= j < |order| => Close(sockets[order[j]]))
  }

  lemma ClosesSnoc(sockets: seq<SocketId>, order: seq<nat>, j: nat)
    requires j < |order| && forall k :: 0 <= k < |order| ==> order[k] < |sockets|
    ensures Closes(sockets, order[..j + 1]) == Closes(sockets, order[..j]) + [Close(sockets[order[j]])]
  {
  }

  class Server {
    const targetConnectedClients: nat
    const pointsPerClient: nat
    var connectedClients: int
    /** Clients that received a job and have not reported yet; nothing keeps it from going negative. */
    var jobsPending: int
    var pointsInCircle: int
    /** The `clients` Set: iteration order is insertion order, and adding a present socket changes nothing. */
    var clients: seq<SocketId>
    var emitted: seq<Emit>
    /** One entry per finalisation: the estimate printed. */
    var estimates: seq<real>

    ghost predicate Valid()
      reads this
    {
      && targetConnectedClients > 0
      && pointsPerClient > 0
      && Distinct(clients)
      && |clients| <= connectedClients
    }

    /** The script's initial state; the two constants are 2 and 1e8 in the source. */
    constructor(targetConnectedClients: nat, pointsPerClient: nat)
      requires targetConnectedClients > 0 && pointsPerClient > 0
      ensures Valid()
      ensures this.targetConnectedClients == targetConnectedClients && this.pointsPerClient == pointsPerClient
      ensures connectedClients == 0 && jobsPending == 0 && pointsInCircle == 0
      ensures clients == [] && emitted == [] && estimates == []
    {
      this.targetConnectedClients := targetConnectedClients;
      this.pointsPerClient := pointsPerClient;
      connectedClients := 0;
      jobsPending := 0;
      pointsInCircle := 0;
      clients := [];
      emitted := [];
      estimates := [];
    }

    /**
     * The `connection` handler: count the client and add it to the set; on
     * the connection that makes the count equal to the target (strict
     * equality), send every client in set order the job `{pointsPerClient}`
     * and count one pending job per client.
     */
    method Connect(socket: SocketId)
      requires Valid()
      modifies this`connectedClients, this`clients, this`emitted, this`jobsPending
      ensures Valid()
      ensures connectedClients == old(connectedClients) + 1
      ensures clients == if socket in old(clients) then old(clients) else old(clients) + [socket]
      ensures connectedClients == targetConnectedClients ==>
        emitted == old(emitted) + Jobs(clients, pointsPerClient) && jobsPending == old(jobsPending) + |clients|
      ensures connectedClients != targetConnectedClients ==>
        emitted == old(emitted) && jobsPending == old(jobsPending)
    {
      connectedClients := connectedClients + 1;
      if socket !in clients {
        clients := clients + [socket];
      }
      if connectedClients == targetConnectedClients {
        ghost var registered := clients;
        ghost var emittedBefore, pendingBefore := emitted, jobsPending;
        var i := 0;
        while i < |clients|
          invariant clients == registered && connectedClients == targetConnectedClients
          invariant i <= |clients|
          invariant emitted == emittedBefore + Jobs(clients[..i], pointsPerClient)
          invariant jobsPending == pendingBefore + i
        {
          assert Jobs(clients[..i + 1], pointsPerClient) == Jobs(clients[..i], pointsPerClient) + [PiJob(clients[i], pointsPerClient)];
          emitted := emitted + [PiJob(clients[i], pointsPerClient)];
          jobsPending := jobsPending + 1;
          i := i + 1;
        }
        assert clients[..i] == clients;
      }
    }

    /**
     * The `data` handler of one socket: one job fewer pending, close that
     * socket, add its hit count, and when no job is pending estimate pi as
     * 4 * pointsInCircle / (pointsPerClient * targetConnectedClients).
     */
    method Data(socket: SocketId, incircle: int)
      requires Valid()
      modifies this`jobsPending, this`emitted, this`pointsInCircle, this`estimates
      ensures Valid()
      ensures jobsPending == old(jobsPending) - 1
      ensures emitted == old(emitted) + [Close(socket)]
      ensures pointsInCircle == old(pointsInCircle) + incircle
      ensures estimates == old(estimates) +
        (if jobsPending == 0 then [MonteCarloEstimate(pointsInCircle, pointsPerClient * targetConnectedClients)] else [])
    {
      jobsPending := jobsPending - 1;
      emitted := emitted + [Close(socket)];
      pointsInCircle := pointsInCircle + incircle;
      if jobsPending == 0 {
        var estimatedPI := MonteCarloEstimate(pointsInCircle, pointsPerClient * targetConnectedClients);
        estimates := estimates + [estimatedPI];
      }
    }
  }

  /** Drives the `connection` handler once per socket, in order. */
  method JoinAll(server: Server, sockets: seq<SocketId>)
    requires server.Valid() && server.connectedClients == 0 && server.clients == []
    requires server.emitted == [] && server.jobsPending == 0
    requires Distinct(sockets)
    modifies server
    ensures server.Valid()
    ensures server.connectedClients == |sockets| && server.clients == sockets
    ensures server.pointsInCircle == old(server.pointsInCircle) && server.estimates == old(server.estimates)
    ensures |sockets| < server.targetConnectedClients ==> server.emitted == [] && server.jobsPending == 0
    ensures |sockets| >= server.targetConnectedClients ==>
      && server.jobsPending == server.targetConnectedClients
      && server.emitted == Jobs(sockets[..server.targetConnectedClients], server.pointsPerClient)
  {
    var i := 0;
    while i < |sockets|
      invariant i <= |sockets|
      invariant server.Valid()
      invariant server.connectedClients == i && server.clients == sockets[..i]
      invariant server.pointsInCircle == old(server.pointsInCircle) && server.estimates == old(server.estimates)
      invariant i < server.targetConnectedClients ==> server.emitted == [] && server.jobsPending == 0
      invariant i >= server.targetConnectedClients ==>
        && server.jobsPending == server.targetConnectedClients
        && server.emitted == Jobs(sockets[..server.targetConnectedClients], server.pointsPerClient)
    {
      assert sockets[i] !in sockets[..i];
      assert sockets[..i + 1] == sockets[..i] + [sockets[i]];
      server.Connect(sockets[i]);
      i := i + 1;
    }
    assert sockets[..i] == sockets;
  }

  /**
   * Connection gating on a fresh server, each connection a new socket:
   * fewer than the target connections send no job; once the target is
   * reached exactly the first target clients each hold one identical job
   * `{pointsPerClient}` and target jobs are pending.
   */
  method ConnectAll(targetConnectedClients: nat, pointsPerClient: nat, sockets: seq<SocketId>)
    returns (emitted: seq<Emit>, jobsPending: int)
    requires targetConnectedClients > 0 && pointsPerClient > 0 && Distinct(sockets)
    ensures |sockets| < targetConnectedClients ==> emitted == [] && jobsPending == 0
    ensures |sockets| >= targetConnectedClients ==>
      && jobsPending == targetConnectedClients
      && |emitted| == targetConnectedClients
      && forall i :: 0 <= i < targetConnectedClients ==> emitted[i] == PiJob(sockets[i], pointsPerClient)
  {
    var server := new Server(targetConnectedClients, pointsPerClient);
    JoinAll(server, sockets);
    emitted, jobsPending := server.emitted, server.jobsPending;
  }

  /**
   * The happy path on a fresh server: the target number of distinct clients
   * connect, then each reports exactly once, in any order, its hit count
   * `hitsOf(p)` (p its join position).  The pending count falls by one per
   * report and first reaches 0 on the last; pi is estimated exactly once,
   * from the integer total of all hit counts, which does not depend on the
   * report order, and lies in [0, 4] when every count is within the samples.
   */
  method HappyPath(targetConnectedClients: nat, pointsPerClient: nat, sockets: seq<SocketId>,
                   order: seq<nat>, hitsOf: nat -> int)
    returns (emitted: seq<Emit>, pendingAfter: seq<int>, pointsInCircle: int, estimates: seq<real>)
    requires targetConnectedClients > 0 && pointsPerClient > 0
    requires Distinct(sockets) && |sockets| == targetConnectedClients
    requires Permutation(order, targetConnectedClients)
    ensures emitted == Jobs(sockets, pointsPerClient) + Closes(sockets, order)
    ensures |pendingAfter| == targetConnectedClients
    ensures forall j :: 0 <= j < |pendingAfter| ==> pendingAfter[j] == targetConnectedClients - 1 - j
    ensures pointsInCircle == SumInt(Iota(targetConnectedClients), hitsOf)
    ensures estimates == [MonteCarloEstimate(pointsInCircle, pointsPerClient * targetConnectedClients)]
    ensures (forall p: nat :: p < targetConnectedClients ==> 0 <= hitsOf(p) <= pointsPerClient) ==>
      0.0 <= estimates[0] <= 4.0
  {
    var n := targetConnectedClients;
    var server := new Server(n, pointsPerClient);
    JoinAll(server, sockets);
    assert sockets[..n] == sockets;
    PermutationLength(order, n);
    ghost var jobs := server.emitted;
    pendingAfter := [];
    var j := 0;
    while j < |order|
      invariant j <= |order| == n
      invariant server.Valid() && server.targetConnectedClients == n && server.pointsPerClient == pointsPerClient
      invariant server.emitted == jobs + Closes(sockets, order[..j])
      invariant server.jobsPending == n - j
      invariant server.pointsInCircle == SumInt(order[..j], hitsOf)
      invariant j < n ==> server.estimates == []
      invariant j == n ==> server.estimates == [MonteCarloEstimate(server.pointsInCircle, pointsPerClient * n)]
      invariant |pendingAfter| == j && forall k :: 0 <= k < j ==> pendingAfter[k] == n - 1 - k
    {
      ClosesSnoc(sockets, order, j);
      SumIntSnoc(order, j, hitsOf);
      server.Data(sockets[order[j]], hitsOf(order[j]));
      pendingAfter := pendingAfter + [server.jobsPending];
      j := j + 1;
    }
    assert order[..j] == order;
    PermutationSumInt(order, n, hitsOf);
    emitted, pointsInCircle, estimates := server.emitted, server.pointsInCircle, server.estimates;
    if forall p: nat :: p < n ==> 0 <= hitsOf(p) <= pointsPerClient {
      TotalEstimateRange(n, pointsPerClient, hitsOf);
    }
  }
}
