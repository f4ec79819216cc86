/** The mutable server of net_sim.py: a class whose four fields the methods
    update in place, each method proved to follow `ServerModel`. */
module Servers {
  import opened Requests
  import opened ServerModel

  class Server {
    var queue: seq<Request>
    var currentTime: int
    var totalWaitTime: int
    var processedRequests: nat

    /** The abstract value of this server. */
    function State(): ServerState
      reads this
    {
      ServerState(queue, currentTime, totalWaitTime, processedRequests)
    }

    /** A new server: empty queue, clock, wait total and count all zero. */
    constructor ()
      ensures State() == Initial
    {
      queue := [];
      currentTime := 0;
      totalWaitTime := 0;
      processedRequests := 0;
    }

    /** Appends `request` at the back of the queue and touches nothing else. */
    method AddRequest(request: Request)
      modifies this
      ensures queue == old(queue) + [request]
      ensures currentTime == old(currentTime)
      ensures totalWaitTime == old(totalWaitTime)
      ensures processedRequests == old(processedRequests)
      ensures State() == Enqueue(old(State()), request)
    {
      queue := queue + [request];
    }

    /** With an empty queue, does nothing. Otherwise removes the oldest
        request, records its wait `currentTime - timestamp`, counts it and
        keeps the server busy for its processing time. */
    method ProcessNextRequest()
      modifies this
      ensures old(queue) == [] ==> State() == old(State())
      ensures old(queue) != [] ==>
        && queue == old(queue)[1..]
        && |queue| == |old(queue)| - 1
        && totalWaitTime == old(totalWaitTime) + (old(currentTime) - old(queue)[0].timestamp)
        && processedRequests == old(processedRequests) + 1
        && currentTime == old(currentTime) + old(queue)[0].processingTime
      ensures State() == ProcessNext(old(State()))
    {
      if queue != [] {
        var request := queue[0];
        queue := queue[1..];
        var waitTime := currentTime - request.timestamp;
        totalWaitTime := totalWaitTime + waitTime;
        processedRequests := processedRequests + 1;
        currentTime := currentTime + request.processingTime;
      }
    }

    /** The mean recorded wait, or zero before any request was processed. */
    method GetAverageWaitTime() returns (average: real)
      ensures processedRequests == 0 ==> average == 0.0
      ensures processedRequests != 0 ==> average * processedRequests as real == totalWaitTime as real
      ensures average == Ratio(totalWaitTime, processedRequests)
    {
      if processedRequests == 0 {
        return 0.0;
      }
      average := totalWaitTime as real / processedRequests as real;
    }
  }

  /** The abstract values of a list of servers, in order. */
  function Snapshot(servers: seq<Server>): (states: seq<ServerState>)
    reads servers
    ensures |states| == |servers|
    ensures forall k :: 0 <= k < |servers| ==> states[k] == servers[k].State()
  {
    if servers == [] then []
    else Snapshot(servers[..|servers| - 1]) + [servers[|servers| - 1].State()]
  }
}
