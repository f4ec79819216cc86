/** The two replay drivers of net_sim.py and what they compute. */
module Simulation {
  import opened Requests
  import opened ServerModel
  import opened RoundRobin
  import opened Servers

  /** The value `simulateOneServer` returns for `requests`. */
  function OneServerAverage(requests: seq<Request>): real {
    var s := Replay(Initial, requests);
    Ratio(s.totalWaitTime, s.processedRequests)
  }

  /** The value `simulateManyServers` returns for `requests` and `n` servers. */
  function ManyServersAverage(requests: seq<Request>, n: nat): real
    requires n >= 1
  {
    var states := LaneStates(requests, n);
    Ratio(TotalWait(states), TotalProcessed(states))
  }

  /** Single-server replay: for each request, raise the clock to its
      arrival, enqueue it and serve one request; then average. */
  method SimulateOneServer(requests: seq<Request>) returns (average: real)
    ensures average == OneServerAverage(requests)
  {
    var server := new Server();
    for i := 0 to |requests|
      invariant server.State() == Replay(Initial, requests[..i])
      invariant server.queue == []
    {
      var request := requests[i];
      assert requests[..i + 1] == requests[..i] + [request];
      ReplaySnoc(Initial, requests[..i], request);
      server.currentTime := Max(server.currentTime, request.timestamp);
      server.AddRequest(request);
      assert server.queue == [request];
      server.ProcessNextRequest();
    }
    assert requests[..|requests|] == requests;
    average := server.GetAverageWaitTime();
  }

  /** Round-robin replay over `numServers` servers: `numServers` new
      servers, the routing loop, then the pooled average. */
  method SimulateManyServers(requests: seq<Request>, numServers: int) returns (average: real)
    requires numServers >= 1
    ensures average == ManyServersAverage(requests, numServers)
  {
    var servers := NewServers(numServers);
    ReplayRoundRobin(servers, requests, numServers);
    average := PooledAverage(servers);
  }

  /** The routing loop: request `index` goes to server `index mod n`, which
      gets the same three steps as in the single-server replay. Afterwards
      every server holds the state its lane of the input leads to. */
  method ReplayRoundRobin(servers: seq<Server>, requests: seq<Request>, n: nat)
    requires n >= 1 && |servers| == n
    requires forall a, b :: 0 <= a < b < n ==> servers[a] != servers[b]
    requires forall k :: 0 <= k < n ==> servers[k].State() == Initial
    modifies set k | 0 <= k < n :: servers[k]
    ensures Snapshot(servers) == LaneStates(requests, n)
  {
    ghost var expected := LaneStates([], n);
    for index := 0 to |requests|
      invariant expected == LaneStates(requests[..index], n)
      invariant forall k :: 0 <= k < n ==> servers[k].State() == expected[k]
    {
      var request := requests[index];
      var server := servers[index % n];
      assert requests[..index + 1] == requests[..index] + [request];
      LaneStatesSnoc(requests[..index], request, n);
      server.currentTime := Max(server.currentTime, request.timestamp);
      server.AddRequest(request);
      server.ProcessNextRequest();
      expected := expected[index % n := Arrive(expected[index % n], request)];
    }
    assert requests[..|requests|] == requests;
    SnapshotOfLanes(servers, requests, n);
  }

  lemma SnapshotOfLanes(servers: seq<Server>, requests: seq<Request>, n: nat)
    requires n >= 1 && |servers| == n
    requires forall k :: 0 <= k < n ==> servers[k].State() == Replay(Initial, Lane(requests, n, k))
    ensures Snapshot(servers) == LaneStates(requests, n)
  {
  }

  /** `n` distinct new servers, all in the initial state. */
  method NewServers(n: nat) returns (servers: seq<Server>)
    ensures |servers| == n
    ensures forall k :: 0 <= k < n ==> fresh(servers[k])
    ensures forall k :: 0 <= k < n ==> servers[k].State() == Initial
    ensures forall a, b :: 0 <= a < b < n ==> servers[a] != servers[b]
  {
    servers := [];
    while |servers| < n
      invariant |servers| <= n
      invariant forall k :: 0 <= k < |servers| ==> fresh(servers[k])
      invariant forall k :: 0 <= k < |servers| ==> servers[k].State() == Initial
      invariant forall a, b :: 0 <= a < b < |servers| ==> servers[a] != servers[b]
    {
      var server := new Server();
      servers := servers + [server];
    }
  }

  /** The pooled average over `servers`: summed wait totals over summed
      counts, or zero when no server processed anything. */
  method PooledAverage(servers: seq<Server>) returns (average: real)
    ensures TotalProcessed(Snapshot(servers)) == 0 ==> average == 0.0
    ensures TotalProcessed(Snapshot(servers)) > 0 ==>
      average * TotalProcessed(Snapshot(servers)) as real == TotalWait(Snapshot(servers)) as real
    ensures average == Ratio(TotalWait(Snapshot(servers)), TotalProcessed(Snapshot(servers)))
  {
    var states := Snapshot(servers);
    var totalWaitTime := TotalWait(states);
    var totalRequests := TotalProcessed(states);
    if totalRequests > 0 {
      average := totalWaitTime as real / totalRequests as real;
    } else {
      average := 0.0;
    }
  }

  /** At the start of the run every server is in the initial state. */
  lemma LaneStatesOfEmpty(n: nat, k: nat)
    requires n >= 1 && k < n
    ensures LaneStates([], n)[k] == Initial
  {
  }

  // ---------------------------------------------------------------------
  // Properties of the drivers' results

  /** The single-server average is the mean wait over all requests: every
      request is counted, so the divisor is the input length; zero on empty
      input; never negative. */
  lemma OneServerAverageMeaning(requests: seq<Request>)
    ensures Replay(Initial, requests).processedRequests == |requests|
    ensures OneServerAverage(requests) == Ratio(Replay(Initial, requests).totalWaitTime, |requests|)
    ensures requests == [] ==> OneServerAverage(requests) == 0.0
    ensures OneServerAverage(requests) >= 0.0
  {
    InitialReplayWaitNonNegative(requests);
  }

  /** The multi-server average pools all servers: nothing is processed
      exactly when the input is empty, for every `n >= 1`; the average is
      the summed wait totals over the number of requests, zero on empty
      input and never negative. */
  lemma ManyServersAverageMeaning(requests: seq<Request>, n: nat)
    requires n >= 1
    ensures TotalProcessed(LaneStates(requests, n)) == 0 <==> requests == []
    ensures ManyServersAverage(requests, n) == Ratio(TotalWait(LaneStates(requests, n)), |requests|)
    ensures requests == [] ==> ManyServersAverage(requests, n) == 0.0
    ensures ManyServersAverage(requests, n) >= 0.0
  {
    RoundRobinConservation(requests, n);
  }

  /** With one server, the round-robin driver computes what the
      single-server driver computes. */
  lemma OneServerIsRoundRobinOfOne(requests: seq<Request>)
    ensures LaneStates(requests, 1) == [Replay(Initial, requests)]
    ensures ManyServersAverage(requests, 1) == OneServerAverage(requests)
  {
    LaneOfOneServer(requests);
    var states := LaneStates(requests, 1);
    var s := Replay(Initial, requests);
    assert states[0] == s;
    assert states == [s];
    assert states[..0] == [];
    assert TotalWait(states) == s.totalWaitTime;
    assert TotalProcessed(states) == s.processedRequests;
  }

  // ---------------------------------------------------------------------
  // Worked scenarios

  /** One server fed (0, 5), (2, 3), (10, 1): the clock goes 0, 5, 8, 11,
      the waits are 0, 3 and 0, and the average is 1. */
  lemma ScenarioOneServer()
    ensures Replay(Initial, [Request(0, "a", 5), Request(2, "b", 3), Request(10, "c", 1)])
      == ServerState([], 11, 3, 3)
    ensures OneServerAverage([Request(0, "a", 5), Request(2, "b", 3), Request(10, "c", 1)]) == 1.0
  {
    var rs := [Request(0, "a", 5), Request(2, "b", 3), Request(10, "c", 1)];
    assert rs[..2][..1] == rs[..1] && rs[..1][..0] == [];
    assert Replay(Initial, rs[..1]) == ServerState([], 5, 0, 1);
    assert Replay(Initial, rs[..2]) == ServerState([], 8, 3, 2);
  }

  /** The four requests of the two-server scenario. */
  function ScenarioTwoServersInput(): seq<Request> {
    [Request(0, "a", 4), Request(1, "b", 4), Request(2, "c", 4), Request(3, "d", 4)]
  }

  /** Two servers, arrivals 0, 1, 2, 3: server 0 gets requests 0 and 2,
      server 1 gets requests 1 and 3. */
  lemma ScenarioTwoServersRouting()
    ensures Lane(ScenarioTwoServersInput(), 2, 0) == [Request(0, "a", 4), Request(2, "c", 4)]
    ensures Lane(ScenarioTwoServersInput(), 2, 1) == [Request(1, "b", 4), Request(3, "d", 4)]
  {
    var rs := ScenarioTwoServersInput();
    assert rs[..4] == rs && rs[..3][..2] == rs[..2] && rs[..2][..1] == rs[..1] && rs[..1][..0] == [];
    assert Lane(rs[..1], 2, 0) == [rs[0]] && Lane(rs[..1], 2, 1) == [];
    assert Lane(rs[..2], 2, 0) == [rs[0]] && Lane(rs[..2], 2, 1) == [rs[1]];
    assert Lane(rs[..3], 2, 0) == [rs[0], rs[2]] && Lane(rs[..3], 2, 1) == [rs[1]];
  }

  /** Each request needs 4: server 0 waits 0 then 2 and is free at 8,
      server 1 waits 0 then 2 and is free at 9, so the pooled average is
      4 / 4. */
  lemma ScenarioTwoServers()
    ensures LaneStates(ScenarioTwoServersInput(), 2) == [ServerState([], 8, 2, 2), ServerState([], 9, 2, 2)]
    ensures ManyServersAverage(ScenarioTwoServersInput(), 2) == 1.0
  {
    ScenarioTwoServersRouting();
    var l0, l1 := [Request(0, "a", 4), Request(2, "c", 4)], [Request(1, "b", 4), Request(3, "d", 4)];
    assert l0[..1][..0] == [] && l1[..1][..0] == [];
    assert Replay(Initial, l0[..1]) == ServerState([], 4, 0, 1);
    assert Replay(Initial, l0) == ServerState([], 8, 2, 2);
    assert Replay(Initial, l1[..1]) == ServerState([], 5, 0, 1);
    assert Replay(Initial, l1) == ServerState([], 9, 2, 2);
    var states := LaneStates(ScenarioTwoServersInput(), 2);
    assert states[0] == ServerState([], 8, 2, 2) && states[1] == ServerState([], 9, 2, 2);
    assert states == [ServerState([], 8, 2, 2), ServerState([], 9, 2, 2)];
    assert states[..1] == [states[0]] && states[..1][..0] == [];
    assert TotalWait(states[..1]) == 2 && TotalProcessed(states[..1]) == 2;
    assert TotalWait(states) == 4 && TotalProcessed(states) == 4;
  }
}
