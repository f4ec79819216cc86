# Network request queue simulator — Dafny model

`net_sim.py` replays a log of requests against one server or against a
pool of servers. Every request has an arrival timestamp, a resource name and
a processing time. Each server holds a FIFO queue, a clock, the total wait it
has accumulated and a count of the requests it has processed. The replay loop
does three things per request: it moves the server's clock forward to the
arrival time if the clock is behind, enqueues the request, and processes one
request. Processing dequeues the head of the queue, adds
`clock - timestamp` to the wait total, bumps the count and advances the
clock by the processing time. The single-server driver returns that server's
average wait. The many-server driver routes request `i` to server
`i mod N` and returns the pooled average, which is the sum of the waits
divided by the sum of the counts, or 0 when nothing was processed.

The model has five modules:

- `Requests` (`requests.dfy`): the `Request` record.
- `ServerModel` (`server_model.dfy`): the value form of one server's state,
  `ServerState`. It defines the pure step functions `AdvanceClock`,
  `Enqueue` and `ProcessNext`, and their composition `Arrive`, which is one
  loop iteration. `Replay` folds `Arrive` over a request sequence. The
  module also proves the facts about whole runs: the closed forms of the
  clock and the wait total, monotonicity, queue depth and non-negativity.
- `Servers` (`server.dfy`): the `Server` class. Its methods update its
  fields in place, and each method is proved to move `State()` exactly as
  the matching step function says.
- `RoundRobin` (`round_robin.dfy`): `Lane(rs, n, k)`, the subsequence of
  requests at positions `≡ k (mod n)`, and `LaneStates`, the state every
  server should end in. It holds the routing law, the per-lane order and
  count conservation.
- `Simulation` (`simulation.dfy`): the two drivers as methods with loops.
  Each is proved to return the specification function `OneServerAverage`
  or `ManyServersAverage`. The module also has the meaning of those
  averages, the equivalence of `N = 1` and the single-server driver, and
  two concrete scenarios.

Ways the model differs from the source in form:

- The many-server driver `simulateManyServers` is split into three methods:
  `NewServers` builds the pool (line 26), `ReplayRoundRobin` runs the loop
  (lines 36-40) and `PooledAverage` does the aggregation (lines 42-44).
  `SimulateManyServers` calls them in that order.
- `processedRequests` is a `nat`, so the source's `== 0` guard
  (line 73) and `> 0` guard (line 44) select the same case.
- Averages are exact real quotients. `Ratio` specifies them:
  `r * count == total` when `count > 0`, and 0 otherwise.
- `Request.resource` is a `string`, is carried along and is never read,
  exactly as in the source.

## Model

| member | source | states |
|---|---|---|
| Servers.Server.constructor | net_sim.py:55-59 | a new server has an empty queue, clock 0, wait total 0 and count 0 |
| Servers.Server.AddRequest | net_sim.py:61-62 | the request is appended at the tail of the queue and no other field changes |
| Servers.Server.ProcessNextRequest | net_sim.py:64-70 | on an empty queue nothing changes; otherwise the head is removed, the wait total grows by clock minus the head's timestamp, the count grows by one and the clock advances by the head's processing time |
| Servers.Server.GetAverageWaitTime | net_sim.py:72-75 | returns 0 when nothing was processed, and otherwise the quotient whose product with the count is the wait total; the server is not modified |
| Servers.Snapshot | net_sim.py:26 | the list of servers read as a list of states, one per server and in the same order |
| ServerModel.Ratio | net_sim.py:44 | the division-or-zero: zero for count 0, the exact quotient otherwise, and never negative for a non-negative total |
| ServerModel.EnqueueDoesNotOvertake | net_sim.py:61-70 | FIFO: on a non-empty queue, enqueueing then processing equals processing then enqueueing, so a new arrival never overtakes a waiting request |
| ServerModel.ProcessNextShrinksByOne | net_sim.py:64-70 | processing is a no-op on an empty queue; on a non-empty one it removes exactly the head and accounts for it |
| ServerModel.ArriveAtIdle | net_sim.py:17-20 | from an idle server, one iteration holds one queued request at most, leaves the queue empty, counts one more request, adds the wait `max(clock, ts) - ts`, which is never negative, and sets the clock to `max(clock, ts) + processing time` |
| ServerModel.ReplaySnoc | net_sim.py:17-20 | replaying a log extended by one request is one more loop iteration on the replayed state |
| ServerModel.ReplayFromIdle | net_sim.py:17-20 | from an idle server a replay leaves the queue empty, counts exactly one processed request per input request and never lowers the wait total |
| ServerModel.QueueDepthAtMostOne | net_sim.py:18-19 | at every enqueue of the single-server loop the queue holds exactly the request just added |
| ServerModel.ReplayPrefixMonotone | net_sim.py:17-20 | along the replay the wait total and the count never decrease, and the clock never goes backwards when processing times are non-negative |
| ServerModel.InitialReplayWaitNonNegative | net_sim.py:17-22 | from a fresh server the wait total is non-negative and the count equals the number of requests |
| ServerModel.TotalProcessingSnoc | net_sim.py:70 | the summed processing time of a log extended by a request grows by that request's processing time |
| ServerModel.PeakFinishSnoc | net_sim.py:18-20 | the latest "arrival plus work after it" bound of an extended log follows the clock recurrence `max(prev, ts) + pt` |
| ServerModel.ClockClosedForm | net_sim.py:18-20 | from an idle server the final clock is the larger of the starting clock plus all the work and, over each request, its arrival plus the work from it to the end |
| ServerModel.WaitClosedForm | net_sim.py:17-20 | from a fresh server, after any prefix, the clock is the closed-form free time and the wait total is the sum over requests of the time each one spent waiting for the server to become free |
| RoundRobin.LaneSnoc | net_sim.py:36-37 | one more request extends exactly the lane `len mod n` and no other |
| RoundRobin.LaneStateSnoc | net_sim.py:36-40 | one more request performs one iteration on server `len mod n` and leaves every other server as it was |
| RoundRobin.LaneStatesSnoc | net_sim.py:36-40 | the vector of server states after one more request is the old vector with slot `len mod n` advanced by one iteration |
| RoundRobin.LaneShape | net_sim.py:36-37 | entry `j` of lane `k` is input request `j * n + k`, and the lane reaches the end of the input |
| RoundRobin.LaneEntry | net_sim.py:36-37 | entry `j` of lane `k` is input request `j * n + k` |
| RoundRobin.LaneReachesEnd | net_sim.py:36-37 | lane `k` covers every position `≡ k (mod n)` of the input |
| RoundRobin.RoutedToSlot | net_sim.py:37 | request `q * n + k` is entry `q` of lane `k` |
| RoundRobin.RoutedToLane | net_sim.py:37 | the round-robin law: request `i` is entry `i / n` of the lane of server `i mod n` |
| RoundRobin.LanePrefix | net_sim.py:36-40 | each server sees its requests in input order: the lane of a prefix of the input is a prefix of the lane |
| RoundRobin.LaneOfOneServer | net_sim.py:37 | with one server the only lane is the whole input |
| RoundRobin.LaneLengthsOfEmpty | net_sim.py:26 | with no requests every lane is empty |
| RoundRobin.LaneLengthsSnoc | net_sim.py:36-37 | one more request adds one element to the first `m` lanes exactly when its index mod `n` is below `m` |
| RoundRobin.LanesPartitionInput | net_sim.py:36-37 | the lengths of all lanes add up to the input length, so every request goes to exactly one server |
| RoundRobin.TotalsOfLaneStatesPrefix | net_sim.py:42-43 | the pooled count of the first `m` servers equals the total length of their lanes, and their pooled wait is non-negative |
| RoundRobin.RoundRobinConservation | net_sim.py:42-43 | count conservation: the pooled count equals the number of requests and the pooled wait is non-negative |
| RoundRobin.LanesEndIdle | net_sim.py:36-40 | every server ends with an empty queue, having processed exactly its lane |
| RoundRobin.LaneKeepsNonNegative | net_sim.py:36-37 | routing preserves non-negative processing times |
| RoundRobin.ServerNeverRewinds | net_sim.py:36-40 | per server the wait total and the count never decrease along the replay, and the clock never goes backwards when processing times are non-negative |
| Simulation.SimulateOneServer | net_sim.py:6-22 | the single-server loop returns the average wait of the replay of the whole log from a fresh server |
| Simulation.ReplayRoundRobin | net_sim.py:36-40 | after the loop, server `k` is in the state of the replay of its lane from a fresh server, for every `k` |
| Simulation.SnapshotOfLanes | net_sim.py:36-40 | servers that each hold the replay of their lane together make up `LaneStates` |
| Simulation.NewServers | net_sim.py:26 | builds `n` distinct fresh servers, all of them in the initial state |
| Simulation.PooledAverage | net_sim.py:42-44 | returns 0 when the pooled count is 0, and otherwise the quotient whose product with the pooled count is the pooled wait |
| Simulation.SimulateManyServers | net_sim.py:25-44 | the many-server driver returns the pooled average of the round-robin specification |
| Simulation.LaneStatesOfEmpty | net_sim.py:26 | with no requests every server stays in the initial state |
| Simulation.OneServerAverageMeaning | net_sim.py:17-22 | the single-server result is the wait total divided by the number of requests; it is 0 for an empty log and never negative |
| Simulation.ManyServersAverageMeaning | net_sim.py:42-44 | the pooled count is 0 exactly when the log is empty; the result is the pooled wait divided by the number of requests, 0 for an empty log and never negative |
| Simulation.OneServerIsRoundRobinOfOne | net_sim.py:17-22 | with `N = 1` the many-server specification keeps one server in the single-server state and gives the same average |
| Simulation.ScenarioOneServer | net_sim.py:17-22 | the log (0,5),(2,3),(10,1) leaves the server idle at clock 11 with wait total 3 and count 3, an average of 1 |
| Simulation.ScenarioTwoServersRouting | net_sim.py:36-37 | with two servers, requests 0 and 2 go to server 0 and requests 1 and 3 go to server 1 |
| Simulation.ScenarioTwoServers | net_sim.py:36-44 | four requests of work 4 arriving at 0..3 on two servers end at clocks 8 and 9 with wait 2 each, a pooled average of 1 |

## Left out

- Reading the CSV file, and the path where a missing file prints an error and returns `None` (net_sim.py:9-15, 28-34): file I/O is outside the model, and the drivers take the parsed request sequence as a parameter.
- `int()` parsing of the timestamp and processing-time fields (net_sim.py:49, 51), including the exception on a malformed field: requests carry integers already.
- `main`, argument parsing and the printed report with two-decimal rounding (net_sim.py:78-96): command-line I/O. The choice between the two drivers on `--servers == 1` is covered by `Simulation.OneServerIsRoundRobinOfOne` only.
- Floating-point division: averages are exact real quotients, so float rounding is not modelled.
- The thread safety of `queue.Queue`: the source uses it from a single thread, and the model uses a sequence.
- Simulation.SimulateManyServers: requires `numServers >= 1`. With 0 servers the source raises on `index % 0` once a request is present, and with a negative count it builds no servers and fails on indexing; those error paths are not modelled.
- ServerModel.ReplayPrefixMonotone, RoundRobin.ServerNeverRewinds: clock monotonicity is stated only under non-negative processing times, because a negative processing time from the log winds the clock back in the source as well.
