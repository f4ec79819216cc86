/** Round-robin distribution: request `i` of the input goes to server
    `i mod n`. `Lane` gives the requests one server receives; `LaneStates`
    the servers' final states; `TotalWait` and `TotalProcessed` the sums the
    multi-server driver divides. */
module RoundRobin {
  import opened Requests
  import opened ServerModel

  /** The requests of `rs` whose input index is `k` modulo `n`, in input
      order: the work of server `k` out of `n`. */
  function Lane(rs: seq<Request>, n: nat, k: nat): seq<Request>
    requires n >= 1
    decreases |rs|
  {
    if rs == [] then []
    else
      var i := |rs| - 1;
      Lane(rs[..i], n, k) + (if i % n == k then [rs[i]] else [])
  }

  /** The final state of every server after the run; entry `k` is server `k`. */
  function LaneStates(rs: seq<Request>, n: nat): (states: seq<ServerState>)
    requires n >= 1
  {
    seq(n, k requires 0 <= k < n => Replay(Initial, Lane(rs, n, k)))
  }

  /** Sum of the wait totals of `states`. */
  function TotalWait(states: seq<ServerState>): int {
    if states == [] then 0
    else TotalWait(states[..|states| - 1]) + states[|states| - 1].totalWaitTime
  }

  /** Sum of the processed counts of `states`. */
  function TotalProcessed(states: seq<ServerState>): nat {
    if states == [] then 0
    else TotalProcessed(states[..|states| - 1]) + states[|states| - 1].processedRequests
  }

  // ---------------------------------------------------------------------
  // Arithmetic of the routing index

  lemma MulMono(a: int, b: int, n: int)
    requires a <= b && n >= 0
    ensures a * n <= b * n
  {
    assert b * n - a * n == (b - a) * n;
  }

  /** Euclidean division by `n` has a unique quotient and remainder. */
  lemma DivModUnique(x: int, n: int, q: int, k: int)
    requires n >= 1 && 0 <= k < n
    requires x == q * n + k
    ensures x / n == q && x % n == k
  {
    var q', k' := x / n, x % n;
    assert x == q' * n + k';
    if q' < q {
      MulMono(q' + 1, q, n);
    } else if q < q' {
      MulMono(q + 1, q', n);
    }
  }

  lemma DivModSplit(x: int, n: int)
    requires n >= 1
    ensures x == (x / n) * n + x % n && 0 <= x % n < n
  {
  }

  /** An index below the input length that is slot `q` of a lane whose
      next slot `m * n + k` is past the input end has `q < m`. */
  lemma SlotInsideLane(i: int, q: int, m: int, n: int, k: int, len: int)
    requires n >= 1
    requires i == q * n + k && i < len <= m * n + k
    ensures q < m
  {
    if m <= q {
      MulMono(m, q, n);
    }
  }

  /** If lane `k` holds `m` requests and index `i` is the next one, then `i`
      is routed to lane `k` exactly when it is the lane's next slot
      `m * n + k`; otherwise that slot still lies beyond `i`. */
  lemma LaneIndexStep(i: int, m: int, n: int, k: int)
    requires n >= 1 && 0 <= k < n && m >= 0 && i >= 0
    requires m == 0 || (m - 1) * n + k < i
    requires i <= m * n + k
    ensures i % n == k ==> i == m * n + k && i + 1 <= (m + 1) * n + k
    ensures i % n != k ==> i + 1 <= m * n + k
  {
    var p := m * n;
    assert (m + 1) * n == p + n;
    assert (m - 1) * n == p - n;
    if i == p + k {
      DivModUnique(i, n, m, k);
    } else if i % n == k {
      var q := i / n;
      assert i == q * n + k;
      if q < m {
        MulMono(q, m - 1, n);
      } else {
        MulMono(m + 1, q, n);
      }
    }
  }

  // ---------------------------------------------------------------------
  // The shape of a lane

  /** One more request extends the lane of its index and no other. */
  lemma LaneSnoc(rs: seq<Request>, r: Request, n: nat, k: nat)
    requires n >= 1
    ensures Lane(rs + [r], n, k) == Lane(rs, n, k) + (if |rs| % n == k then [r] else [])
  {
    assert (rs + [r])[..|rs|] == rs;
  }

  /** One more request changes the state of the server it is routed to,
      by one arrival, and of no other server. */
  lemma LaneStateSnoc(rs: seq<Request>, r: Request, n: nat, k: nat)
    requires 1 <= n && k < n
    ensures LaneStates(rs + [r], n)[k] ==
      if k == |rs| % n then Arrive(LaneStates(rs, n)[k], r) else LaneStates(rs, n)[k]
  {
    var lane := Lane(rs, n, k);
    LaneSnoc(rs, r, n, k);
    assert LaneStates(rs + [r], n)[k] == Replay(Initial, Lane(rs + [r], n, k));
    assert LaneStates(rs, n)[k] == Replay(Initial, lane);
    if k == |rs| % n {
      assert Lane(rs + [r], n, k) == lane + [r];
      ReplaySnoc(Initial, lane, r);
    } else {
      assert Lane(rs + [r], n, k) == lane + [];
      assert lane + [] == lane;
    }
  }

  /** The same for the whole vector of server states. */
  lemma LaneStatesSnoc(rs: seq<Request>, r: Request, n: nat)
    requires n >= 1
    ensures LaneStates(rs + [r], n) ==
      LaneStates(rs, n)[|rs| % n := Arrive(LaneStates(rs, n)[|rs| % n], r)]
  {
    var before := LaneStates(rs, n);
    var updated := before[|rs| % n := Arrive(before[|rs| % n], r)];
    forall k | 0 <= k < n
      ensures LaneStates(rs + [r], n)[k] == updated[k]
    {
      LaneStateSnoc(rs, r, n, k);
    }
  }

  /** Lane `k` is exactly `rs[k], rs[n + k], rs[2n + k], ...`: its entry `j`
      is the request at input index `j * n + k` (so a server only ever sees
      indices congruent to `k`, and sees them in input order), and it stops
      only when the next such index is past the end of the input. */
  lemma {:induction false} LaneShape(rs: seq<Request>, n: nat, k: nat)
    requires n >= 1 && k < n
    ensures forall j :: 0 <= j < |Lane(rs, n, k)| ==>
      j * n + k < |rs| && Lane(rs, n, k)[j] == rs[j * n + k]
    ensures |rs| <= |Lane(rs, n, k)| * n + k
    decreases |rs|
  {
    if rs != [] {
      var i := |rs| - 1;
      var front := rs[..i];
      LaneShape(front, n, k);
      var m := |Lane(front, n, k)|;
      LaneIndexStep(i, m, n, k);
    }
  }

  /** Entry `j` of lane `k` is the request at input index `j * n + k`. */
  lemma LaneEntry(rs: seq<Request>, n: nat, k: nat, j: nat)
    requires n >= 1 && k < n && j < |Lane(rs, n, k)|
    ensures j * n + k < |rs| && Lane(rs, n, k)[j] == rs[j * n + k]
  {
    LaneShape(rs, n, k);
  }

  /** Lane `k` runs up to the end of the input. */
  lemma LaneReachesEnd(rs: seq<Request>, n: nat, k: nat)
    requires n >= 1 && k < n
    ensures |rs| <= |Lane(rs, n, k)| * n + k
  {
    LaneShape(rs, n, k);
  }

  /** The request at index `q * n + k` is entry `q` of lane `k`. */
  lemma RoutedToSlot(rs: seq<Request>, n: nat, i: nat, q: nat, k: nat)
    requires n >= 1 && k < n && i < |rs|
    requires i == q * n + k
    ensures q < |Lane(rs, n, k)| && Lane(rs, n, k)[q] == rs[i]
  {
    var m := |Lane(rs, n, k)|;
    LaneReachesEnd(rs, n, k);
    SlotInsideLane(i, q, m, n, k, |rs|);
    LaneEntry(rs, n, k, q);
  }

  /** The routing law: the request at input index `i` is entry `i / n` of
      the lane of server `i mod n`. */
  lemma RoutedToLane(rs: seq<Request>, n: nat, i: nat)
    requires n >= 1 && i < |rs|
    ensures i / n < |Lane(rs, n, i % n)|
    ensures Lane(rs, n, i % n)[i / n] == rs[i]
  {
    DivModSplit(i, n);
    RoutedToSlot(rs, n, i, i / n, i % n);
  }

  /** What a server has received part-way through the run is a prefix of
      what it receives over the whole run. */
  lemma {:induction false} LanePrefix(rs: seq<Request>, n: nat, k: nat, i: nat)
    requires n >= 1 && i <= |rs|
    ensures |Lane(rs[..i], n, k)| <= |Lane(rs, n, k)|
    ensures Lane(rs[..i], n, k) == Lane(rs, n, k)[..|Lane(rs[..i], n, k)|]
    decreases |rs|
  {
    if i < |rs| {
      var front := rs[..|rs| - 1];
      assert rs[..i] == front[..i];
      LanePrefix(front, n, k, i);
    } else {
      assert rs[..i] == rs;
    }
  }

  /** With a single server, its lane is the whole input. */
  lemma {:induction false} LaneOfOneServer(rs: seq<Request>)
    ensures Lane(rs, 1, 0) == rs
    decreases |rs|
  {
    if rs != [] {
      var i := |rs| - 1;
      LaneOfOneServer(rs[..i]);
      assert rs[..i] + [rs[i]] == rs;
    }
  }

  // ---------------------------------------------------------------------
  // Conservation

  /** Sum of the lane lengths of servers `0 .. m-1`. */
  function LaneLengths(rs: seq<Request>, n: nat, m: nat): nat
    requires n >= 1
  {
    if m == 0 then 0 else LaneLengths(rs, n, m - 1) + |Lane(rs, n, m - 1)|
  }

  lemma {:induction false} LaneLengthsOfEmpty(n: nat, m: nat)
    requires n >= 1
    ensures LaneLengths([], n, m) == 0
  {
    if m > 0 {
      LaneLengthsOfEmpty(n, m - 1);
    }
  }

  lemma {:induction false} LaneLengthsSnoc(rs: seq<Request>, r: Request, n: nat, m: nat)
    requires n >= 1
    ensures LaneLengths(rs + [r], n, m) == LaneLengths(rs, n, m) + (if |rs| % n < m then 1 else 0)
  {
    if m > 0 {
      LaneLengthsSnoc(rs, r, n, m - 1);
      LaneSnoc(rs, r, n, m - 1);
    }
  }

  /** Every request lands in exactly one lane: the lane lengths add up to
      the input length. */
  lemma {:induction false} LanesPartitionInput(rs: seq<Request>, n: nat)
    requires n >= 1
    ensures LaneLengths(rs, n, n) == |rs|
    decreases |rs|
  {
    if rs != [] {
      var i := |rs| - 1;
      LanesPartitionInput(rs[..i], n);
      assert rs[..i] + [rs[i]] == rs;
      assert |rs[..i]| % n < n;
      LaneLengthsSnoc(rs[..i], rs[i], n, n);
    } else {
      LaneLengthsOfEmpty(n, n);
    }
  }

  lemma {:induction false} TotalsOfLaneStatesPrefix(rs: seq<Request>, n: nat, m: nat)
    requires 1 <= n && m <= n
    ensures TotalProcessed(LaneStates(rs, n)[..m]) == LaneLengths(rs, n, m)
    ensures TotalWait(LaneStates(rs, n)[..m]) >= 0
  {
    var states := LaneStates(rs, n);
    if m > 0 {
      TotalsOfLaneStatesPrefix(rs, n, m - 1);
      var prefix, last := states[..m], states[m - 1];
      assert prefix[..m - 1] == states[..m - 1];
      assert prefix[m - 1] == last;
      assert last == Replay(Initial, Lane(rs, n, m - 1));
      InitialReplayWaitNonNegative(Lane(rs, n, m - 1));
      assert TotalProcessed(prefix) == TotalProcessed(states[..m - 1]) + last.processedRequests;
      assert TotalWait(prefix) == TotalWait(states[..m - 1]) + last.totalWaitTime;
    }
  }

  /** Count conservation over all servers: their processed counts add up to
      the number of requests, and their wait totals are never negative. */
  lemma RoundRobinConservation(rs: seq<Request>, n: nat)
    requires n >= 1
    ensures TotalProcessed(LaneStates(rs, n)) == |rs|
    ensures TotalWait(LaneStates(rs, n)) >= 0
  {
    TotalsOfLaneStatesPrefix(rs, n, n);
    LanesPartitionInput(rs, n);
    assert LaneStates(rs, n)[..n] == LaneStates(rs, n);
  }

  /** At the end of the run (and, applied to a prefix, at the end of every
      iteration) every server's queue is empty. */
  lemma LanesEndIdle(rs: seq<Request>, n: nat, k: nat)
    requires 1 <= n && k < n
    ensures LaneStates(rs, n)[k].queue == []
    ensures LaneStates(rs, n)[k].processedRequests == |Lane(rs, n, k)|
  {
    ReplayFromIdle(Initial, Lane(rs, n, k));
  }

  /** A lane only holds requests of the input. */
  lemma {:induction false} LaneKeepsNonNegative(rs: seq<Request>, n: nat, k: nat)
    requires n >= 1
    requires NonNegativeProcessing(rs)
    ensures NonNegativeProcessing(Lane(rs, n, k))
    decreases |rs|
  {
    if rs != [] {
      LaneKeepsNonNegative(rs[..|rs| - 1], n, k);
    }
  }

  /** Over the whole run, each server's clock (with non-negative processing
      times), wait total and count never decrease from one iteration to a
      later one. */
  lemma ServerNeverRewinds(rs: seq<Request>, n: nat, k: nat, i: nat, j: nat)
    requires 1 <= n && k < n
    requires i <= j <= |rs|
    ensures LaneStates(rs[..i], n)[k].totalWaitTime <= LaneStates(rs[..j], n)[k].totalWaitTime
    ensures LaneStates(rs[..i], n)[k].processedRequests <= LaneStates(rs[..j], n)[k].processedRequests
    ensures NonNegativeProcessing(rs) ==>
      LaneStates(rs[..i], n)[k].currentTime <= LaneStates(rs[..j], n)[k].currentTime
  {
    var upto := rs[..j];
    assert upto[..i] == rs[..i];
    LanePrefix(upto, n, k, i);
    var whole := Lane(upto, n, k);
    var part := |Lane(rs[..i], n, k)|;
    ReplayPrefixMonotone(Initial, whole, part, |whole|);
    assert whole[..|whole|] == whole;
    if NonNegativeProcessing(rs) {
      LaneKeepsNonNegative(upto, n, k);
    }
  }
}
