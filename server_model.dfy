/** The abstract state machine of one server lane, as values. The class
    `Servers.Server` is proved to follow these functions step by step. */
module ServerModel {
  import opened Requests

  /** A snapshot of a server: its FIFO queue (front is oldest), its clock
      (the time at which it is next free), the sum of the waits it has
      recorded and the number of requests it has completed. */
  datatype ServerState = ServerState(
    queue: seq<Request>,
    currentTime: int,
    totalWaitTime: int,
    processedRequests: nat)

  /** A freshly constructed server. */
  const Initial := ServerState([], 0, 0, 0)

  function Max(a: int, b: int): int {
    if a < b then b else a
  }

  /** The driver's clock step: never rewind, jump forward to the arrival. */
  function AdvanceClock(s: ServerState, t: int): ServerState {
    s.(currentTime := Max(s.currentTime, t))
  }

  /** Put a request at the back of the queue. */
  function Enqueue(s: ServerState, r: Request): ServerState {
    s.(queue := s.queue + [r])
  }

  /** Serve the oldest queued request, if there is one. */
  function ProcessNext(s: ServerState): ServerState {
    if s.queue == [] then s
    else
      var r := s.queue[0];
      ServerState(
        s.queue[1..],
        s.currentTime + r.processingTime,
        s.totalWaitTime + (s.currentTime - r.timestamp),
        s.processedRequests + 1)
  }

  /** What both drivers do with one request routed to a server: advance the
      clock to the arrival, enqueue, then serve one request. */
  function Arrive(s: ServerState, r: Request): ServerState {
    ProcessNext(Enqueue(AdvanceClock(s, r.timestamp), r))
  }

  /** Feed the requests `rs`, in order, to a server that starts in state `s`. */
  function Replay(s: ServerState, rs: seq<Request>): ServerState
    decreases |rs|
  {
    if rs == [] then s
    else Arrive(Replay(s, rs[..|rs| - 1]), rs[|rs| - 1])
  }

  /** The mean of `total` over `count` items, or zero when there are none. */
  function Ratio(total: int, count: nat): (r: real)
    ensures count == 0 ==> r == 0.0
    ensures count > 0 ==> r * count as real == total as real
    ensures total >= 0 ==> r >= 0.0
  {
    if count == 0 then 0.0 else total as real / count as real
  }

  // ---------------------------------------------------------------------
  // Single operations

  /** FIFO: a request enqueued behind a non-empty queue does not overtake
      it; serving the head and then enqueueing gives the same state. */
  lemma EnqueueDoesNotOvertake(s: ServerState, r: Request)
    requires s.queue != []
    ensures ProcessNext(Enqueue(s, r)) == Enqueue(ProcessNext(s), r)
  {
    assert (s.queue + [r])[1..] == s.queue[1..] + [r];
  }

  /** Serving from an empty queue is a no-op; serving from a non-empty one
      removes exactly one request, the oldest. */
  lemma ProcessNextShrinksByOne(s: ServerState)
    ensures s.queue == [] ==> ProcessNext(s) == s
    ensures s.queue != [] ==>
      [s.queue[0]] + ProcessNext(s).queue == s.queue &&
      ProcessNext(s).processedRequests == s.processedRequests + 1
  {
  }

  /** One arrival at an idle server (empty queue): the request is served at
      once, its wait is `max(clock, timestamp) - timestamp`, which is never
      negative, the count grows by one, the queue is empty again, and the
      clock ends `processingTime` after the later of clock and arrival. */
  lemma ArriveAtIdle(s: ServerState, r: Request)
    requires s.queue == []
    ensures |Enqueue(AdvanceClock(s, r.timestamp), r).queue| == 1
    ensures Arrive(s, r).queue == []
    ensures Arrive(s, r).processedRequests == s.processedRequests + 1
    ensures Arrive(s, r).totalWaitTime - s.totalWaitTime == Max(s.currentTime, r.timestamp) - r.timestamp >= 0
    ensures Arrive(s, r).currentTime == Max(s.currentTime, r.timestamp) + r.processingTime
  {
  }

  // ---------------------------------------------------------------------
  // Whole runs on one lane

  /** Replaying one more request is one more arrival. */
  lemma ReplaySnoc(s: ServerState, rs: seq<Request>, r: Request)
    ensures Replay(s, rs + [r]) == Arrive(Replay(s, rs), r)
  {
    assert (rs + [r])[..|rs + [r]| - 1] == rs;
  }

  /** Replaying from an idle server: the queue is empty after every request,
      every request is counted exactly once, and the wait total never
      decreases. */
  lemma {:induction false} ReplayFromIdle(s: ServerState, rs: seq<Request>)
    requires s.queue == []
    ensures Replay(s, rs).queue == []
    ensures Replay(s, rs).processedRequests == s.processedRequests + |rs|
    ensures Replay(s, rs).totalWaitTime >= s.totalWaitTime
    decreases |rs|
  {
    if rs != [] {
      var front := rs[..|rs| - 1];
      ReplayFromIdle(s, front);
      ArriveAtIdle(Replay(s, front), rs[|rs| - 1]);
    }
  }

  /** The queue never holds more than one request: just before the serve
      step for request `i` it holds exactly that request. */
  lemma QueueDepthAtMostOne(rs: seq<Request>, i: nat)
    requires i < |rs|
    ensures Enqueue(AdvanceClock(Replay(Initial, rs[..i]), rs[i].timestamp), rs[i]).queue == [rs[i]]
  {
    ReplayFromIdle(Initial, rs[..i]);
  }

  /** Over a run from an idle server, the clock, the wait total and the
      count only grow from one prefix to a longer one (the clock assuming
      non-negative processing times, the other two unconditionally). */
  lemma {:induction false} ReplayPrefixMonotone(s: ServerState, rs: seq<Request>, i: nat, j: nat)
    requires s.queue == []
    requires i <= j <= |rs|
    ensures Replay(s, rs[..i]).totalWaitTime <= Replay(s, rs[..j]).totalWaitTime
    ensures Replay(s, rs[..i]).processedRequests <= Replay(s, rs[..j]).processedRequests
    ensures NonNegativeProcessing(rs) ==> Replay(s, rs[..i]).currentTime <= Replay(s, rs[..j]).currentTime
    decreases j - i
  {
    if i < j {
      ReplayPrefixMonotone(s, rs, i, j - 1);
      assert rs[..j] == rs[..j - 1] + [rs[j - 1]];
      ReplaySnoc(s, rs[..j - 1], rs[j - 1]);
      ReplayFromIdle(s, rs[..j - 1]);
      ArriveAtIdle(Replay(s, rs[..j - 1]), rs[j - 1]);
    }
  }

  /** Starting from the initial server, the total wait is never negative. */
  lemma InitialReplayWaitNonNegative(rs: seq<Request>)
    ensures Replay(Initial, rs).totalWaitTime >= 0
    ensures Replay(Initial, rs).processedRequests == |rs|
  {
    ReplayFromIdle(Initial, rs);
  }

  // ---------------------------------------------------------------------
  // A closed form for the clock

  /** The sum of the processing times of `rs`. */
  function TotalProcessing(rs: seq<Request>): int {
    if rs == [] then 0 else rs[0].processingTime + TotalProcessing(rs[1..])
  }

  /** The latest, over the requests `rs[j]`, of "arrived at `rs[j].timestamp`
      and then busy with `rs[j..]` without a break". */
  function PeakFinish(rs: seq<Request>): int
    requires rs != []
  {
    var here := rs[0].timestamp + TotalProcessing(rs);
    if |rs| == 1 then here else Max(here, PeakFinish(rs[1..]))
  }

  lemma {:induction false} TotalProcessingSnoc(rs: seq<Request>, r: Request)
    ensures TotalProcessing(rs + [r]) == TotalProcessing(rs) + r.processingTime
  {
    if rs != [] {
      assert (rs + [r])[1..] == rs[1..] + [r];
      TotalProcessingSnoc(rs[1..], r);
    }
  }

  lemma {:induction false} PeakFinishSnoc(rs: seq<Request>, r: Request)
    requires rs != []
    ensures PeakFinish(rs + [r]) == Max(PeakFinish(rs), r.timestamp) + r.processingTime
  {
    TotalProcessingSnoc(rs, r);
    assert (rs + [r])[1..] == rs[1..] + [r];
    if |rs| > 1 {
      PeakFinishSnoc(rs[1..], r);
    } else {
      assert rs[1..] + [r] == [r];
    }
  }

  /** The clock after a run from an idle server is the later of: busy from
      the start clock without a break, or busy without a break since some
      request's arrival. So the server is free no earlier than any arrival
      plus the processing that follows it. */
  lemma {:induction false} ClockClosedForm(s: ServerState, rs: seq<Request>)
    requires s.queue == []
    requires rs != []
    ensures Replay(s, rs).currentTime == Max(s.currentTime + TotalProcessing(rs), PeakFinish(rs))
    decreases |rs|
  {
    var front, r := rs[..|rs| - 1], rs[|rs| - 1];
    assert rs == front + [r];
    ReplaySnoc(s, front, r);
    TotalProcessingSnoc(front, r);
    ReplayFromIdle(s, front);
    ArriveAtIdle(Replay(s, front), r);
    if front == [] {
      assert rs == [r];
    } else {
      ClockClosedForm(s, front);
      PeakFinishSnoc(front, r);
    }
  }

  /** When a fresh server that has run `rs` is next free, in closed form. */
  function FreeAt(rs: seq<Request>): int {
    if rs == [] then 0 else Max(TotalProcessing(rs), PeakFinish(rs))
  }

  /** Sum of the waits of the first `m` requests of `rs` on a fresh server,
      request `j` starting at the later of its arrival and `FreeAt(rs[..j])`. */
  function WaitUpTo(rs: seq<Request>, m: nat): int
    requires m <= |rs|
  {
    if m == 0 then 0
    else WaitUpTo(rs, m - 1) + (Max(FreeAt(rs[..m - 1]), rs[m - 1].timestamp) - rs[m - 1].timestamp)
  }

  /** The wait total of a run is the sum over its requests of
      "start of processing minus arrival", with the start times taken from
      the closed form rather than from the run itself. */
  lemma {:induction false} WaitClosedForm(rs: seq<Request>, m: nat)
    requires m <= |rs|
    ensures Replay(Initial, rs[..m]).currentTime == FreeAt(rs[..m])
    ensures Replay(Initial, rs[..m]).totalWaitTime == WaitUpTo(rs, m)
  {
    if m == 0 {
      assert rs[..0] == [];
    } else {
      WaitClosedForm(rs, m - 1);
      ClockClosedForm(Initial, rs[..m]);
      var front := rs[..m - 1];
      assert rs[..m] == front + [rs[m - 1]];
      ReplaySnoc(Initial, front, rs[m - 1]);
      ReplayFromIdle(Initial, front);
      ArriveAtIdle(Replay(Initial, front), rs[m - 1]);
    }
  }
}
