/**
 * Events that drive the coordinators.  Every handler runs to completion
 * before the next event is delivered (the event loop of the coordinating
 * process), so a run is a sequence of events in arrival order.
 */
module Events {
  import opened Sums

  /** A client connection (socket) of the distributed coordinators. */
  type SocketId = nat

  /** What a worker thread delivers to its coordinator: its result message, and its exit. */
  datatype ThreadEvent = Message(worker: nat) | Exit(worker: nat)

  /** The workers whose result message is in `events`, in arrival order. */
  function Messages(events: seq<ThreadEvent>): seq<nat>
  {
    if events == [] then []
    else
      var last := events[|events| - 1];
      Messages(events[..|events| - 1]) + (if last.Message? then [last.worker] else [])
  }

  /** The workers whose exit is in `events`. */
  function Exits(events: seq<ThreadEvent>): set<nat>
  {
    if events == [] then {}
    else
      var last := events[|events| - 1];
      Exits(events[..|events| - 1]) + (if last.Exit? then {last.worker} else {})
  }

  /**
   * A run of n workers as the worker runtime delivers it: each worker 0 .. n-1
   * posts exactly one result message and exits exactly once, its message
   * arriving before its exit; arrival order across workers is arbitrary.
   */
  ghost predicate CompleteRun(events: seq<ThreadEvent>, n: nat)
  {
    && (forall i :: 0 <= i < |events| ==> events[i].worker < n)
    && (forall i, j :: 0 <= i < j < |events| ==> events[i] != events[j])
    && (forall w: nat :: w < n ==> w in Exits(events))
    && (forall i :: 0 <= i < |events| ==> ExitAfterMessage(events, i))
  }

  /** If event i is an exit, the message of its worker came earlier. */
  ghost predicate ExitAfterMessage(events: seq<ThreadEvent>, i: nat)
    requires i < |events|
  {
    events[i].Exit? ==> events[i].worker in Messages(events[..i])
  }

  lemma {:induction false} MessagesMembership(events: seq<ThreadEvent>, w: nat)
    ensures w in Messages(events) <==> Message(w) in events
  {
    if events != [] {
      var prefix := events[..|events| - 1];
      MessagesMembership(prefix, w);
      assert events == prefix + [events[|events| - 1]];
    }
  }

  lemma {:induction false} ExitsMembership(events: seq<ThreadEvent>, w: nat)
    ensures w in Exits(events) <==> Exit(w) in events
  {
    if events != [] {
      var prefix := events[..|events| - 1];
      ExitsMembership(prefix, w);
      assert events == prefix + [events[|events| - 1]];
    }
  }

  /** Delivering event i extends the message list and the exit set by that event alone. */
  lemma Step(events: seq<ThreadEvent>, i: nat)
    requires i < |events|
    ensures Messages(events[..i + 1]) == Messages(events[..i]) + (if events[i].Message? then [events[i].worker] else [])
    ensures Exits(events[..i + 1]) == Exits(events[..i]) + (if events[i].Exit? then {events[i].worker} else {})
  {
    assert events[..i + 1][..i] == events[..i];
  }

  /** A message adds its worker to the message list and leaves the exits as they are. */
  lemma MessageStep(events: seq<ThreadEvent>, i: nat)
    requires i < |events| && events[i].Message?
    ensures Messages(events[..i + 1]) == Messages(events[..i]) + [events[i].worker]
    ensures Exits(events[..i + 1]) == Exits(events[..i])
  {
    Step(events, i);
  }

  /** An exit adds its worker to the exits and leaves the message list as it is. */
  lemma ExitStep(events: seq<ThreadEvent>, i: nat)
    requires i < |events| && events[i].Exit?
    ensures Messages(events[..i + 1]) == Messages(events[..i])
    ensures Exits(events[..i + 1]) == Exits(events[..i]) + {events[i].worker}
  {
    Step(events, i);
  }

  /**
   * In a complete run no event comes after the exit of its worker: an exit
   * is never a second one, and a message always precedes the exit.
   */
  lemma NotYetExited(events: seq<ThreadEvent>, n: nat, i: nat)
    requires CompleteRun(events, n) && i < |events|
    ensures events[i].worker < n && events[i].worker !in Exits(events[..i])
  {
    var w := events[i].worker;
    ExitsMembership(events[..i], w);
    if events[i].Message? {
      assert w in Exits(events);
      ExitsMembership(events, w);
      var j :| 0 <= j < |events| && events[j] == Exit(w);
      assert ExitAfterMessage(events, j);
      MessagesMembership(events[..j], w);
      var k :| 0 <= k < j && events[..j][k] == Message(w);
      assert events[k] == events[i];
      assert forall m :: 0 <= m < i ==> events[..i][m] != events[j];
    } else {
      assert forall m :: 0 <= m < i ==> events[..i][m] != events[i];
    }
  }

  /** Event i comes from a worker below n that has not exited before it. */
  ghost predicate EventLive(events: seq<ThreadEvent>, n: nat, i: nat)
    requires i < |events|
  {
    events[i].worker < n && events[i].worker !in Exits(events[..i])
  }

  /** Every event of the run comes from a live worker. */
  ghost predicate LiveEvents(events: seq<ThreadEvent>, n: nat)
  {
    forall i :: 0 <= i < |events| ==> EventLive(events, n, i)
  }

  lemma CompleteRunIsLive(events: seq<ThreadEvent>, n: nat)
    requires CompleteRun(events, n)
    ensures LiveEvents(events, n)
  {
    forall i | 0 <= i < |events|
      ensures EventLive(events, n, i)
    {
      NotYetExited(events, n, i);
    }
  }

  /** In a complete run, the messages seen up to any point come from distinct workers below n. */
  lemma {:induction false} MessagesDistinct(events: seq<ThreadEvent>, n: nat, i: nat)
    requires CompleteRun(events, n) && i <= |events|
    ensures Distinct(Messages(events[..i]))
    ensures forall j :: 0 <= j < |Messages(events[..i])| ==> Messages(events[..i])[j] < n
  {
    if i > 0 {
      MessagesDistinct(events, n, i - 1);
      Step(events, i - 1);
      var e := events[i - 1];
      if e.Message? {
        MessagesMembership(events[..i - 1], e.worker);
      }
    }
  }

  /**
   * Once every worker has exited, every worker's message has arrived: the
   * messages so far are a permutation of the n workers.
   */
  lemma AllMessaged(events: seq<ThreadEvent>, n: nat, i: nat)
    requires CompleteRun(events, n) && i <= |events|
    requires Range(n) <= Exits(events[..i])
    ensures Permutation(Messages(events[..i]), n)
  {
    MessagesDistinct(events, n, i);
    forall w: nat | w < n
      ensures w in Messages(events[..i])
    {
      assert w in Exits(events[..i]);
      ExitsMembership(events[..i], w);
      var j :| 0 <= j < i && events[..i][j] == Exit(w);
      assert events[j] == Exit(w);
      assert ExitAfterMessage(events, j);
      MessagesMembership(events[..j], w);
      var k :| 0 <= k < j && events[..j][k] == Message(w);
      assert events[..i][k] == Message(w);
      MessagesMembership(events[..i], w);
    }
  }

  /**
   * At the end of a complete run every worker has exited and the messages
   * delivered are exactly one per worker.
   */
  lemma CompleteRunMessages(events: seq<ThreadEvent>, n: nat)
    requires CompleteRun(events, n)
    ensures Range(n) <= Exits(events)
    ensures Permutation(Messages(events), n)
  {
    assert events[..|events|] == events;
    AllMessaged(events, n, |events|);
  }

  /** Summed over the messages of a complete run, a per-worker value gives its sum over all workers. */
  lemma CompleteRunSumReal(events: seq<ThreadEvent>, n: nat, f: nat -> real)
    requires CompleteRun(events, n)
    ensures Range(n) <= Exits(events)
    ensures SumReal(Messages(events), f) == SumReal(Iota(n), f)
  {
    CompleteRunMessages(events, n);
    PermutationSumReal(Messages(events), n, f);
  }

  lemma CompleteRunSumInt(events: seq<ThreadEvent>, n: nat, f: nat -> int)
    requires CompleteRun(events, n)
    ensures Range(n) <= Exits(events)
    ensures SumInt(Messages(events), f) == SumInt(Iota(n), f)
  {
    CompleteRunMessages(events, n);
    PermutationSumInt(Messages(events), n, f);
  }
}
