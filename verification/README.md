# DCOps verification

DCOps watches data centres: agents consume telemetry and predictions from an event bus,
decide, act, verify and record. This project models the parts of it that are state
machines, encodings or algorithms, and proves what holds of them on every input, every run
or every interleaving.

| file | what it is about |
|---|---|
| `Window.dfy`, `Sentinel.dfy` | Per-device rings with lazy eviction; the Sentinel's dirty-set hand-off and its publish dedupe. |
| `Correlator.dfy` | The cross-site correlator: sliding windows, per-target cooldown stamps, and the separate fan-out. |
| `LeastSquares.dfy` | The least-squares line, written once in the planner and once in Sentinel's features. |
| `Placement.dfy` | What the optimizer asks CP-SAT, what an answer means, and the moves it extracts. |
| `Devices.dfy`, `SeedGraph.dfy` | The hall/rack/device tree and its compilation to an ordered MATCH/MERGE program, with an interpreter for that program. |
| `Dcgm.dfy` | The DCGM exposition: the mock's printer, the line grammar, the poller and the topology's ids. |
| `Router.dfy` | The LLM budget: check, await, charge, and a reset each day. |
| `Policy.dfy`, `ClosedLoop.dfy` | Policy verdicts; the loop from recommendation to action, delayed verification and revert. |
| `Writer.dfy`, `AuditSink.dfy` | Two delivery protocols: the telemetry batch writer and the audit sink. |
| `CacheKey.dfy` | The bytes that the vision agent hashes into its cache key. |
| `Text.dfy`, `Wrappers.dfy` | Decimal numbers, splitting of ids, options. |

How the models are built:

- An object that the source updates in place is a class with the same fields, and its
  methods are proved against a step function on values (`Next`, `Record`, `Exec`). Facts
  about whole runs are lemmas over sequences of those steps. The classes of `Router`,
  `Writer` and `Window` also carry ghost histories to which their fields are tied.
- What a step does is also stated without naming the step: over runs, read off the sequence
  of steps, by counting places, or in plain numbers and literal names.
- An `async` function is cut at its awaits; each piece is one atomic step, and a run is any
  sequence of enabled steps. What another party decides (an insert that returns, a failed
  put, a publish that raises, a new day) is a parameter of the step.
- Clocks are parameters; a run gives them in non-decreasing order. Timestamps, prices,
  temperatures and KPI values are `real`.
- Seconds are measured on the clock that the source uses: wall time in the windows,
  monotonic time in the dedupe map.

Where the code and its documentation disagree, the model follows the code:

- `apps/control_plane/policy_engine.py:21-23` and line 190 say that the first verdict other
  than APPROVED wins. The code returns the most conservative one, wherever it stands. The two
  agree exactly when no policy in scope asks for a human before the first one that denies
  (`Policy.FirstObjectionWinsIff`); `Policy.HumanThenFreezeIsDenied` is an input where they
  differ.
- `apps/audit/sink.py:3-6` says that an entry whose put failed will be retried by the
  consumer group. The loop only ever reads new entries (`>`). In every run such an entry is
  never acknowledged unless somebody has it redelivered later
  (`AuditSink.FailedPutIsFinalUnlessRedelivered`; `AuditSink.SomeRunStrands` is a run that
  ends so), and after a redelivery it can always be acknowledged
  (`AuditSink.RedeliveryCanAcknowledge`).
- `apps/audit/sink.py:8-9` says that a re-delivery overwrites with identical content. That
  holds without hash collisions, on the same day. In general a put adds an object exactly
  when no object of that day holds the payload (`AuditSink.PutAddsObjectIff`), so a retry on
  another day stores a second one (`AuditSink.RetryOnAnotherDayStoresTwice`).
- `apps/agents/optimizer/solver.py:163` speaks of post-move temperature stress. The code
  minimises a sum of per-placement costs over the *current* inlet temperatures.

Properties that do not hold unconditionally, with the exact condition:

- A read equals the age filter exactly when the stale events come first
  (`Window.EvictionIsAgeFilterIff`); a late event behind a young one is returned although it
  is too old (`Window.LateEventStays`).
- Where no constraint binds, the optimizer clears the incident rack if and only if every
  workload has another rack that is not dearer by the penalty or more
  (`Placement.IncidentClearedIff`); `Placement.HotWorkloadStays` is a problem in which it
  does not. `Placement.OptimalIsLexicographic` gives a bound that is enough under any
  constraints.
- Every move starts where its workload is, and each workload moves at most once, if and only
  if no id occurs twice among the workloads that change rack
  (`Placement.ReplayGivesAssignment`, `Placement.MovesAtMostOnceIff`); a workload that is
  listed twice moves twice (`Placement.RepeatedIdMovesTwice`).
- The correlator's fan-out is exactly its ready list if and only if the sites other than the
  origin are listed without repetition or there is no cooldown
  (`Correlator.ReachablePublishesReadyIff`); a site that is listed twice gets two candidates
  for one decision (`Correlator.RepeatedSiteSentTwice`).
- An unchanged metric counts as a regression if and only if its value is negative, given a
  positive threshold (`ClosedLoop.UnchangedRegressesIff`).
- Once no insert is in flight, the writer has handed over every event exactly once and in
  order if and only if no consume or firing tick overlapped an insert
  (`Writer.ExactlyOnceIffNoOverlap`); `Writer.OverlapLosesAnEvent` is a run that loses one.
- The audit sink keeps every acknowledged payload on every run if and only if no two
  payloads in the stream collide (`AuditSink.FaithfulIffNoCollisions`).
- `_hall_rack` recovers hall and rack if and only if the site id has no dash
  (`Dcgm.HallRackRecoveredIff`).
- Two different requests can feed the same bytes to the hash if and only if one context
  goes on with a NUL byte where the other one ends (`CacheKey.CollisionIff`); for contexts
  that do, `CacheKey.AnyPrefixCompletes` constructs the images.
- An action is reverted at most once unless its event is delivered again after its
  verification has ended (`ClosedLoop.RevertedAtMostOnce`). The agents themselves do not
  prevent it: with such a delivery there is a run from the start with two reverts
  (`ClosedLoop.LateRedeliveryRevertsAgain`), and after any run whether a further revert is
  possible is exactly whether the bus may still deliver such an event
  (`ClosedLoop.RevertedAgainIff`). The bus of `apps/agents/shared/event_bus.py:102-120` is
  Redis pub/sub, which delivers a message once; the guarantee rests on that.
- Spend on calls that were not downgraded passes the budget by at most the cost of the calls
  in flight (`Router.OverrunBounded`), and comes as close to that bound as one likes
  (`Router.BoundApproached`). Spend with downgraded calls has no bound
  (`Router.TotalUnbounded`).

## Model

| member | source | states |
|---|---|---|
| Window.ReadIsFunctionOfHistory | apps/agents/sentinel/window.py:60-82 | On every interleaving of adds and reads under a non-decreasing clock, a read returns the last maxlen events of the whole history without their stale or unparsable prefix: earlier evictions never change a later answer |
| Window.ExpectedStartsAt | apps/agents/sentinel/window.py:66-82 | That function, place by place: the history from the first event that is among the last maxlen and not older than the cutoff; every event left out is one too many, too old, or has no timestamp that parses |
| Window.HeldCovers | apps/agents/sentinel/window.py:60-78 | In every reachable state the ring is the last maxlen events of the history minus a prefix that is stale for any later clock |
| Window.DropStaleOfCovering | apps/agents/sentinel/window.py:66-78 | A ring that only lacks a stale prefix answers like the full one |
| Window.EvictionIsAgeFilterIff | apps/agents/sentinel/window.py:66-78 | Eviction from the left equals filtering by age if and only if no young event precedes a stale or unparsable one |
| Window.LateEventStays | apps/agents/sentinel/window.py:70-78 | A run whose read returns an event that is too old, because a young one stands before it |
| Window.InOrderReadIsAgeFilter | apps/agents/sentinel/window.py:66-82 | With timestamps that parse and do not go back, a read is exactly the age filter of the last maxlen events, on every run |
| Window.LastExpected | apps/agents/sentinel/window.py:80-82 | A non-empty read ends with the newest event ever added |
| Window.DeviceWindow.constructor | apps/agents/sentinel/window.py:53-61 | A new window is an empty ring with the given bounds and an empty history |
| Window.DeviceWindow.Add | apps/agents/sentinel/window.py:63-64 | The history grows by the event and the ring keeps its newest maxlen, with the invariant that ties ring to history |
| Window.DeviceWindow.EvictStale | apps/agents/sentinel/window.py:66-78 | The in-place loop removes exactly the stale prefix and leaves the history alone |
| Window.DeviceWindow.Recent | apps/agents/sentinel/window.py:80-82 | The answer is a function of the history, the bounds and the clock only |
| Window.DeviceWindow.RecentForMetric | apps/agents/sentinel/window.py:84-85 | The same function of the history, restricted to one metric |
| Window.FilterMetric | apps/agents/sentinel/window.py:84-85 | Keeps the events of one metric in order |
| Window.OfMetricKeepsOrder | apps/agents/sentinel/window.py:84-85 | One more event is appended to the answer exactly if it has the metric |
| Window.ProjectAppend | apps/agents/sentinel/window.py:109-118 | An event added to the stream goes to the end of its own device's share and leaves every other share as it is |
| Window.WindowStore.constructor | apps/agents/sentinel/window.py:100-107 | A new store has no windows and an empty stream |
| Window.WindowStore.WindowOf | apps/agents/sentinel/window.py:113-116 | Looks a window up or creates an empty one, sharing no window between devices |
| Window.WindowStore.AddTo | apps/agents/sentinel/window.py:117 | Changes the ring of the event's device and no other |
| Window.WindowStore.Ingest | apps/agents/sentinel/window.py:109-118 | Keeps the store equal to one window per device over that device's projection of the global stream; an event without a string id changes nothing |
| Window.WindowStore.Recent | apps/agents/sentinel/window.py:80-82 | A device's answer is the expected read of its projection of the whole stream; there is no window exactly for ids without one, and their projection is empty |
| Sentinel.EveryRunIsSafe | apps/agents/sentinel/main.py:109-153 | After every run: news is queued, rings match the stream, stamps record publications, and publications of one (device, kind) are the dedupe window apart |
| Sentinel.NewsStaysQueued | apps/agents/sentinel/main.py:109-131 | Every step keeps: a device with an event newer than its last visit is dirty, in the batch in hand, or in a batch lost to an exception |
| Sentinel.NothingDroppedWithoutRaise | apps/agents/sentinel/main.py:118-131 | On a run where no step raises, such a device is dirty or in the batch in hand |
| Sentinel.RingsStayMatched | apps/agents/sentinel/main.py:109-142 | Every step keeps each ring equal, up to stale events, to its device's projection of the stream |
| Sentinel.ScoredOnExpectedEvents | apps/agents/sentinel/main.py:194-196 | A device is scored on the expected read of its projection, and the id that the publisher takes from the last event is that device's own |
| Sentinel.VisitPublishesIff | apps/agents/sentinel/main.py:133-151 | In every run a visit publishes if and only if the expected read of the device is not empty, there is a verdict, and no publication of that device and kind was marked less than the dedupe window ago; it then publishes exactly that device, kind and time |
| Sentinel.OnlyVisitsPublish | apps/agents/sentinel/main.py:147-150 | No other step publishes |
| Sentinel.FreshEventIsPublished | apps/agents/sentinel/main.py:118-151 | A run in which a fresh event with a verdict is published and the loop goes back to sleep |
| Sentinel.DirtyIsNewSinceWake | apps/agents/sentinel/main.py:109-127 | In every run the dirty set is exactly the devices with an event since the latest wake-up, and a wake-up takes all of it |
| Sentinel.UnvisitedNewsIsQueued | apps/agents/sentinel/main.py:109-131 | In every run a device with an event that no visit has followed is dirty, in the batch in hand, or was in a batch lost to an exception since |
| Sentinel.EventDuringPublishIsNews | apps/agents/sentinel/main.py:109-114 | Events arrive also while a publish is awaited, and make their device dirty again |
| Sentinel.BatchEnds | apps/agents/sentinel/main.py:118-131 | A batch ends with the loop asleep; an exception loses the unvisited rest of it and nothing else |
| Sentinel.PublicationsStaySpaced | apps/agents/sentinel/main.py:147-150 | Every step keeps two publications of one (device, kind) at least the dedupe window apart, although the stamp is written after the publish returns |
| Sentinel.SentinelAgent.constructor | apps/agents/sentinel/main.py:72-79 | A new agent is the initial state of the machine |
| Sentinel.SentinelAgent.HandleEvent | apps/agents/sentinel/main.py:109-114 | Implements the machine's step for one telemetry event |
| Sentinel.SentinelAgent.TakeBatch | apps/agents/sentinel/main.py:122-127 | Hands over the whole dirty set and leaves an empty one |
| Sentinel.SentinelAgent.VisitDevice | apps/agents/sentinel/main.py:136-149 | Implements the machine's step for one device of the batch, with at most one publication |
| Sentinel.SentinelAgent.ReadWindow | apps/agents/sentinel/main.py:137-142 | Reads one window, evicting there and nowhere else |
| Sentinel.SentinelAgent.MarkPublished | apps/agents/sentinel/main.py:228-229 | Implements the machine's step after a publish has returned |
| Correlator.MarkAllOrNone | apps/control_plane/cross_site_correlator.py:88-101 | From a common stamp, either no target is ready and no stamp changes, or all targets of the pair end with the stamp of now and all other stamps stay |
| Correlator.ReadyIsFanOutIff | apps/control_plane/cross_site_correlator.py:90-116 | When a positive cooldown is over, the ready list is the fan-out list exactly when no target is listed twice or already stamped |
| Correlator.ReadyWithoutCooldown | apps/control_plane/cross_site_correlator.py:90-98 | Without a cooldown every target is ready each time it is listed |
| Correlator.PublishesExactlyReadyIff | apps/control_plane/cross_site_correlator.py:165-187 | In an all-or-none state a propagation sends to exactly the ready targets if and only if the targets are distinct or there is no cooldown |
| Correlator.ReachablePublishesReadyIff | apps/control_plane/cross_site_correlator.py:165-187 | The same in every state reached from a new correlator by predictions in time order |
| Correlator.RepeatedSiteSentTwice | apps/control_plane/cross_site_correlator.py:90-116 | For every threshold and cooldown, a trace after which a site that is listed twice is ready once and is published to twice |
| Correlator.StampsAlwaysAgree | apps/control_plane/cross_site_correlator.py:88-101 | In every reachable state all targets of an (origin, kind) hold the same stamp: the time that pair last propagated |
| Correlator.BucketIsWindow | apps/control_plane/cross_site_correlator.py:80-83 | In every reachable state a bucket holds the qualifying predictions of its (site, kind) within one window of the latest of them, in arrival order |
| Correlator.NewBucketIsWindow | apps/control_plane/cross_site_correlator.py:80-86 | The bucket that a prediction is judged by is exactly the qualifying predictions since now minus the window |
| Correlator.PropagatesIff | apps/control_plane/cross_site_correlator.py:67-116 | A prediction propagates if and only if it qualifies, the count over the whole trace within the window reaches the threshold, some other site exists, and the cooldown since the last propagation is over |
| Correlator.PropagatesIffCounted | apps/control_plane/cross_site_correlator.py:67-116 | The same in numbers: site, kind and a probability of at least the floor; as many such predictions of that site and kind within the window as the threshold; another site; and the cooldown passed since every earlier propagation of the pair, or since time 0 |
| Correlator.PropagationsSpaced | apps/control_plane/cross_site_correlator.py:93-96 | Two propagations of one (origin, kind) are at least the cooldown apart |
| Correlator.CrossSiteCorrelator.constructor | apps/control_plane/cross_site_correlator.py:61-65 | A new correlator has no hits and no stamps |
| Correlator.CrossSiteCorrelator.RecordPrediction | apps/control_plane/cross_site_correlator.py:67-116 | Implements the step on values; returns origin, kind and the sample of the judged bucket exactly when some target is ready |
| Correlator.SampleDevices | apps/control_plane/cross_site_correlator.py:97 | The first five of the bucket's non-empty device ids, sorted and without repetition |
| Correlator.SampleMeans | apps/control_plane/cross_site_correlator.py:97 | At most five ids, each the non-empty id of a hit, strictly ascending; an id is left out only if there are five and it comes after them |
| Correlator.SampleIsUnique | apps/control_plane/cross_site_correlator.py:97 | A bucket has only one such sample |
| Correlator.CrossSiteCorrelator.MarkReady | apps/control_plane/cross_site_correlator.py:88-98 | The loop over targets finds the ready ones and stamps those and no others |
| Correlator.CrossSiteCorrelator.HitCount | apps/control_plane/cross_site_correlator.py:123-124 | The number of hits in the bucket, 0 for an unknown pair |
| Correlator.Purge | apps/control_plane/cross_site_correlator.py:118-121 | The popleft loop removes the old prefix |
| Correlator.Publish | apps/control_plane/cross_site_correlator.py:174-186 | Sends to every other site in order and never to the origin |
| LeastSquares.FitMinimises | apps/agents/planner/forecaster.py:163-181 | No line has a smaller sum of squared residuals than the fitted one, also for one sample and when all x coincide |
| LeastSquares.FitIsUnique | apps/agents/planner/forecaster.py:173-178 | When the x do not all coincide, the fitted line is the only minimiser |
| LeastSquares.FlatWhenOpen | apps/agents/planner/forecaster.py:168-177 | For a single sample, or when all x coincide, the line is flat, through the sample or the mean; Sentinel has no slope for a single sample and zero otherwise |
| LeastSquares.ErrorAboveFit | apps/agents/planner/forecaster.py:173-179 | The error of any line is the fitted line's error plus the spread of x times the squared slope difference plus n times the squared height difference at the mean |
| LeastSquares.ResidualsSumToZero | apps/agents/planner/forecaster.py:178-179 | The residuals of the fitted line cancel |
| LeastSquares.LinearHistoryRecovered | apps/agents/planner/forecaster.py:163-178 | Samples on a line, not all at one x, give back that line |
| LeastSquares.LinearHistoryContinued | apps/agents/planner/forecaster.py:183-197 | A linear history is continued by the forecast on its own line in absolute time, although the fit works with offsets from the first sample, and its envelope has no width |
| LeastSquares.NoSpreadIff | apps/agents/planner/forecaster.py:179-181 | The envelope has no width if and only if all samples lie on the fitted line |
| LeastSquares.VarianceMeans | apps/agents/planner/forecaster.py:180 | The variance is the squared error over n - 2, or over 1 for two and three samples, and 0 for one |
| LeastSquares.StdIsUnique | apps/agents/planner/forecaster.py:180-181 | The residual standard deviation is determined by the samples |
| LeastSquares.SentinelSlopeIsPlannerSlope | apps/agents/sentinel/features.py:84-96 | On the same samples, with any origin of time, Sentinel's slope is 60 times the planner's |
| LeastSquares.SlopeOfPermutation | apps/agents/sentinel/features.py:84-96 | Neither fit depends on the order of the samples |
| LeastSquares.Project | apps/agents/planner/forecaster.py:183-197 | One point for each day of the horizon, 86400 seconds apart, on the fitted line, with the residual standard deviation below and above; none for an empty history |
| Placement.OptimalIsLexicographic | apps/agents/optimizer/solver.py:163-177 | While base costs can differ by less than the penalty, an optimal assignment leaves the fewest possible workloads on the incident rack among all feasible ones, and has least base cost among those |
| Placement.IncidentClearedIff | apps/agents/optimizer/solver.py:169-177 | Where no constraint binds, every optimal assignment clears the incident rack if and only if each workload has another rack whose base cost is not higher by the penalty or more |
| Placement.HotWorkloadStays | apps/agents/optimizer/solver.py:169-177 | A problem whose optimum stays on the incident rack although the other rack has room |
| Placement.CostSplits | apps/agents/optimizer/solver.py:169-177 | The objective is the base cost plus the penalty times the number of workloads on the incident rack |
| Placement.FeasibleMeans | apps/agents/optimizer/solver.py:110-161 | By counting: an assignment meets the constraints if and only if equal ids share a rack, the whole milliwatts and whole watts on each rack are within its truncated limits, and no rack holds more of a redundancy group of n > 1 than n over the number of racks rounded up |
| Placement.CostMeans | apps/agents/optimizer/solver.py:169-177 | The objective is the sum of heat load times squared inlet temperature, rounded for each workload, and a million for each workload on the incident rack |
| Placement.TruncBounds | apps/agents/optimizer/solver.py:124-138 | Truncation goes toward zero and loses less than one unit |
| Placement.Round | apps/agents/optimizer/solver.py:173 | Python's rounding: nearest integer, halves to the even one |
| Placement.RealLimitsRespected | apps/agents/optimizer/solver.py:122-140 | An assignment that the scaled integer constraints accept exceeds a rack's real power capacity by less than one milliwatt for each placed workload, and its heat headroom by less than one watt for each, whatever the sign of the loads |
| Placement.CapIsLeast | apps/agents/optimizer/solver.py:153-161 | Some spread of n members over the racks meets a uniform cap if and only if the cap is at least the one the code computes |
| Placement.RealLoadsAddUp | apps/agents/optimizer/solver.py:120-140 | Loads summed over racks equal the workloads' total: nothing is lost or counted twice |
| Placement.ReplayGivesAssignment | apps/agents/optimizer/solver.py:193-206 | Replaying the moves on the current placement puts every workload on its assigned rack and changes nothing else; each move starts where its workload is if and only if no id occurs twice among the workloads that change rack |
| Placement.MovesAreChanges | apps/agents/optimizer/solver.py:193-206 | A move is emitted exactly for a workload whose rack changes, with its own ids and loads |
| Placement.MovesAtMostOnceIff | apps/agents/optimizer/solver.py:193-206 | No workload id is moved twice, if and only if no id occurs twice among the workloads that change rack |
| Placement.RepeatedIdMovesTwice | apps/agents/optimizer/solver.py:193-206 | A workload that is listed twice is moved twice |
| Placement.ImpactIsChange | apps/agents/optimizer/solver.py:217-225 | The impact estimate is the load and number of the workloads that change rack, read off the assignment |
| Placement.Eligible | apps/agents/optimizer/solver.py:93-97 | A rack takes part exactly when it has both positive power capacity and positive headroom |
| Placement.EligibleKeepsOrder | apps/agents/optimizer/solver.py:93-97 | Filtering goes rack by rack: order and repetitions are kept |
| Placement.Solve | apps/agents/optimizer/solver.py:77-214 | Every status with its output: missing library, nothing to do, no eligible rack, no solution or an invalid model, and the moves and objective of an assignment within the limits; an optimal one is at most as costly as any other within the limits, and infeasible means that there is none |
| Placement.ExtractMoves | apps/agents/optimizer/solver.py:193-206 | The nested loop that reads the variables back computes the moves of the assignment |
| Placement.Search | apps/agents/optimizer/solver.py:179-183 | An exhaustive search for the least-cost feasible completion of a partial assignment, proved optimal |
| Placement.AnswerExists | apps/agents/optimizer/solver.py:179-191 | The contract assumed of CP-SAT can always be met, by an optimal answer or by a proof that there is none |
| Devices.IdsAreDistinct | apps/simulator/devices.py:23-124 | Different places of a site never get the same id, whatever the site id is |
| Devices.TreeDevicesAre | apps/simulator/devices.py:23-124 | The devices of the built tree are exactly those of its places: one CRAC for each hall, one switch and two PDUs for each rack, ten servers, and the GPUs drawn |
| Devices.DeviceAtMeans | apps/simulator/devices.py:29-118 | What stands at each place: id, kind, model, vendor, rack, the servers that PDU A powers and PDU B does not, and the server of a GPU |
| Devices.HallsInOrder | apps/simulator/devices.py:28-48 | The halls of the tree are those of the site in order |
| Devices.RacksInOrder | apps/simulator/devices.py:52-54 | The racks of a hall are in order |
| Devices.GpusInOrder | apps/simulator/devices.py:105-118 | The GPUs of a server are in the order in which their models are drawn |
| Devices.BuiltDevicesAreDistinct | apps/simulator/devices.py:23-124 | In every tree that is built, devices with the same id are the same device |
| Devices.SplitId | apps/simulator/devices.py:29-107 | Splitting a device id at dashes gives the parts of the site id and then one part for each level |
| Devices.BuiltHallsAreWellFormed | apps/simulator/devices.py:23-124 | Every built tree belongs to its site and every reference in a rack (powered ids, parent servers) is to a device of the same rack, for all random draws |
| Devices.BuildHalls | apps/simulator/devices.py:23-124 | The nested loops build the tree of the site |
| Devices.BuildRack | apps/simulator/devices.py:52-118 | The server loop builds a rack in which only PDU A powers the servers |
| Devices.BuildGpus | apps/simulator/devices.py:105-118 | The GPU loop hangs each GPU on its server |
| SeedGraph.PlanMeansTree | scripts/seed_graph.py:130-186 | From any starting graph, the plan of a well-formed tree adds exactly the nodes that the tree contains and exactly the containment, COOLS, COOLED_BY, POWERED_BY and DEPENDS_ON edges that it describes |
| SeedGraph.SeededEdges | scripts/seed_graph.py:56-184 | Place by place, from any graph: seeding a built site adds exactly the edges of each hall to the site, of each CRAC to its hall, of each rack to its hall and its CRAC, of each device to its rack, of each server to PDU A and to the switch of its rack, and of each GPU to its server |
| SeedGraph.SeededProperties | scripts/seed_graph.py:47-97 | Place by place: region and timezone on the site, capacity_kw on each hall, row and column on each rack, and type, model and vendor on each device, over what was there |
| SeedGraph.MissingNodeIsSilent | scripts/seed_graph.py:100-122 | A link with a missing end does nothing, and a new node whose MATCH finds nothing is created without its edge |
| SeedGraph.PlanIsGrounded | scripts/seed_graph.py:130-186 | Every node that a statement must MATCH was created by an earlier statement or by its own MERGE |
| SeedGraph.SeedingIsExactAndIdempotent | scripts/seed_graph.py:130-186 | For every tree the generator can build, seeding is exact and seeding again changes nothing, properties included |
| SeedGraph.SeedingAllSites | scripts/seed_graph.py:189-231 | The same for all sites in sequence |
| SeedGraph.SeededNodesCarryTheirOwn | scripts/seed_graph.py:47-97 | Seeding a built tree leaves on each site, hall, rack and device node exactly its own properties, written over what the starting graph had there |
| SeedGraph.DeviceNodesCarryTheirOwn | scripts/seed_graph.py:76-97 | The node of every place of the tree carries the type, model and vendor of the device at that place |
| SeedGraph.NodesCarryTheirOwn | scripts/seed_graph.py:47-97 | The same for every well-formed tree in which no node stands for two things with different properties |
| SeedGraph.BuiltTreeIsUnambiguous | apps/simulator/devices.py:23-124 | Every tree that is built is such a tree |
| SeedGraph.RunOfGrounded | scripts/seed_graph.py:222-228 | On a grounded plan every statement takes effect: nodes, edges and properties are the sums of what the statements say |
| SeedGraph.GroundedPlanIsIdempotent | scripts/seed_graph.py:222-228 | A grounded plan run twice leaves the graph of one run |
| SeedGraph.PlanMentions | scripts/seed_graph.py:130-186 | The plan mentions an edge if and only if the tree describes it |
| SeedGraph.PlanCreates | scripts/seed_graph.py:130-186 | The plan creates a node if and only if the tree contains it |
| SeedGraph.LinkTooEarlyIsLost | scripts/seed_graph.py:108-114 | A link placed before its ends exist is silently lost, which is why the order matters |
| SeedGraph.PlanForSite | scripts/seed_graph.py:130-186 | The imperative builder emits the plan |
| SeedGraph.StatementsForHall | scripts/seed_graph.py:139-147 | One hall's statements: the hall, its CRACs, then its racks |
| SeedGraph.RackLoop | scripts/seed_graph.py:146-184 | The loop over racks |
| SeedGraph.StatementsForRack | scripts/seed_graph.py:147-184 | One rack's statements: the rack, all its devices, then the edges |
| SeedGraph.DeviceLoop | scripts/seed_graph.py:149-165 | Emits every device in order and sorts the devices by kind |
| SeedGraph.EdgeStatements | scripts/seed_graph.py:167-184 | The four edge loops |
| SeedGraph.Loop | scripts/seed_graph.py:143-144 | An extending loop emits each element's statements in order |
| Dcgm.ExpositionRoundTrip | apps/mocks/main.py:248-296 | Polling what the mock prints gives every reading, in order, with its metric, GPU id and exact fixed-point value, and nothing else |
| Dcgm.ReadingsInOrder | apps/mocks/main.py:248-296 | In numbers: first all temperatures and then all powers in hundredths, all utilisations in tenths, XID counts of zero, and all used memory, each for the GPUs in order and none of them critical |
| Dcgm.PrintedLines | apps/mocks/main.py:258-294 | The printed lines of the five families, with their labels |
| Dcgm.FixedShape | apps/mocks/main.py:258-280 | A printed number has a sign if negative, no leading zeros, and exactly the digits after the point that are asked for |
| Dcgm.NumeralReads | apps/ingestion/normalizers/dcgm.py:47 | Every number in the written form of the value group reads as its digits over the power of ten of its fraction, times or over that of its exponent |
| Dcgm.ValueIsNumeral | apps/ingestion/normalizers/dcgm.py:47 | The values of the grammar are exactly those numbers |
| Dcgm.MatchedLineGives | apps/ingestion/normalizers/dcgm.py:84-118 | A line that matches gives an event if its name is one of the five and one of the labels gpu, UUID and device is not empty, the first of them naming the GPU; only a positive XID count is critical |
| Dcgm.UnmatchedLineGivesNothing | apps/ingestion/normalizers/dcgm.py:88-90 | A line that does not match gives nothing |
| Dcgm.MetricNames | apps/ingestion/normalizers/dcgm.py:27-33 | The five metric names and what they stand for |
| Dcgm.NameCharacters | apps/ingestion/normalizers/dcgm.py:44-49 | The characters of metric and label names |
| Dcgm.LabelListRead | apps/ingestion/normalizers/dcgm.py:71-72 | Any list of labels with proper names and values without quotes reads back, in order |
| Dcgm.GetIsLast | apps/ingestion/normalizers/dcgm.py:72 | Of equal label names the last one wins |
| Dcgm.GetMissing | apps/ingestion/normalizers/dcgm.py:96 | A missing label is empty |
| Dcgm.StripMeans | apps/ingestion/normalizers/dcgm.py:85 | Stripping takes off white space on both sides, and all of it |
| Dcgm.SplitLinesMeans | apps/ingestion/normalizers/dcgm.py:84 | A line ends at any break character |
| Dcgm.ReturnNewlineIsOneBreak | apps/ingestion/normalizers/dcgm.py:84 | A carriage return and its newline are one break |
| Dcgm.LastLine | apps/ingestion/normalizers/dcgm.py:84 | A break at the very end starts no further line |
| Dcgm.HallRackMeans | apps/ingestion/normalizers/dcgm.py:64-68 | For any id with four or more parts and the right initials: its first two parts are the hall and its first three the rack |
| Dcgm.HallKnownMeans | apps/ingestion/normalizers/dcgm.py:64-68 | Only such ids have a known hall |
| Dcgm.TopologyRoundTrip | apps/mocks/topology.py:56-122 | For the GPUs of the topology builder and a site id without a dash, every polled event carries the hall and rack where the builder put that GPU |
| Dcgm.HallRackRecoveredIff | apps/ingestion/normalizers/dcgm.py:64-68 | The hall and rack of a GPU are recovered from its id if and only if the site id has no dash |
| Dcgm.MatcherIsGrammar | apps/ingestion/normalizers/dcgm.py:43-48 | The matcher returns a name, labels and value if and only if the line has that layout in the line grammar, so the match is unique |
| Dcgm.FixedRoundTrip | apps/mocks/main.py:258-271 | A fixed-point number as printed is in the value grammar and reads back as itself, for all integers and numbers of decimals |
| Dcgm.SampleRead | apps/ingestion/normalizers/dcgm.py:84-118 | A printed sample line reads back as its event |
| Dcgm.CommentSkipped | apps/ingestion/normalizers/dcgm.py:85-87 | A line that starts with # yields no event |
| Dcgm.SplitLinesOfBody | apps/mocks/main.py:296 | Splitting the joined body gives back the printed lines |
| Dcgm.GpuIdRead | apps/ingestion/normalizers/dcgm.py:95-98 | The labels as printed are found again and yield the GPU id |
| Dcgm.GpuIdsArePlain | apps/mocks/topology.py:69-121 | The topology's GPU ids end no label, label group or line if the site id does not |
| Dcgm.Poll | apps/ingestion/normalizers/dcgm.py:84-118 | The loop yields the events of the lines, in order |
| Dcgm.DcgmMetrics | apps/mocks/main.py:248-296 | The handler prints the five families, each a header and one line for each GPU |
| Dcgm.SampleLines | apps/mocks/main.py:258-271 | One loop over the GPUs prints one family |
| Dcgm.BuildTopologyGpus | apps/mocks/topology.py:55-122 | The nested loops list each GPU of a dense server once, in order of hall, rack, server and GPU, with the id of its place |
| Router.SpendIsSumOfRecords | apps/agents/shared/llm_router.py:199-321 | On every interleaving spend equals the sum of the costs recorded since the last reset |
| Router.LedgerReadOffSteps | apps/agents/shared/llm_router.py:199-321 | From a new router, read off the steps alone: the spend is the cost of the calls that finished since the first check of the day of the latest check, the undowngraded part likewise, and each call in flight is what its day's spend made it |
| Router.SinceMeans | apps/agents/shared/llm_router.py:199-204 | From that place on all checks are of one day, and the check before it is of another: two checks of the same day have no reset between them |
| Router.DowngradedIff | apps/agents/shared/llm_router.py:262-294 | A call is downgraded to the fast tier if and only if the backend is paid and that sum for its day has reached the budget |
| Router.OverrunBoundedPerDay | apps/agents/shared/llm_router.py:249-315 | Since the first check of a day, undowngraded calls cost at most the budget and k times c |
| Router.FailureIsFree | apps/agents/shared/llm_router.py:254-256 | A call in flight may fail at any time, and is then not charged |
| Router.PriceList | apps/agents/shared/llm_router.py:99-102 | The prices of both tiers for a million tokens, and nothing on an unpaid backend |
| Router.OverrunBounded | apps/agents/shared/llm_router.py:249-315 | With at most k calls in flight that were not downgraded, none dearer than c, what such calls charge in a day stays at most the budget plus k times c, on every interleaving and across resets |
| Router.BoundApproached | apps/agents/shared/llm_router.py:249-315 | For every price c of a call, every k and every gap there is a budget and a run within those limits that charges budget plus k times c minus the gap |
| Router.TotalUnbounded | apps/agents/shared/llm_router.py:268-294 | On the paid backend, with any budget and one call at a time, total spend passes every amount: downgraded calls go on being charged |
| Router.InitHasReserve | apps/agents/shared/llm_router.py:174-193 | A new router meets the premises of the bound |
| Router.VerdictSurvives | apps/agents/shared/llm_router.py:249-294 | A call that starts with spend at or over budget on the paid backend runs on the fast tier marked downgraded, any other on the requested tier, whatever happens while it is in flight |
| Router.FlightStays | apps/agents/shared/llm_router.py:254-259 | Other calls and resets never change a call in flight |
| Router.DowngradeNeverCostsMore | apps/agents/shared/llm_router.py:206-211 | The fast tier never costs more for the same tokens |
| Router.LLMRouter.constructor | apps/agents/shared/llm_router.py:174-193 | A new router has spent nothing today |
| Router.LLMRouter.BeginCall | apps/agents/shared/llm_router.py:249-254 | Reset and check happen in one step, which fixes tier and downgrade mark |
| Router.LLMRouter.FinishCall | apps/agents/shared/llm_router.py:296-315 | The charge and its one record go to the ledger since the last reset; after midnight that is the old day's until the next call begins |
| Policy.VerdictMeans | apps/control_plane/policy_engine.py:182-222 | Denied if and only if some policy in scope denies; approved if and only if none objects and the recommendation does not flag itself |
| Policy.ApprovedIff | apps/control_plane/policy_engine.py:64-222 | Approved if and only if there is no self-flag and, for every policy of the site: the targets are within the cap, no freeze is on, the local hour is outside the blackout of the kind, and no custom rule that holds says otherwise |
| Policy.DeniedIff | apps/control_plane/policy_engine.py:72-145 | Denied if and only if some policy of the site is a freeze that is on, a blackout of the kind at the local hour, or a custom rule that holds and denies |
| Policy.AppliedKeepsOrder | apps/control_plane/policy_engine.py:199-208 | The applied policies are those of the site, in order |
| Policy.FirstObjectionWinsIff | apps/control_plane/policy_engine.py:190-192 | The decision is that of the first policy that objects, as documented, if and only if no policy in scope asks for a human before the first one that denies |
| Policy.HumanThenFreezeIsDenied | apps/control_plane/policy_engine.py:214-221 | Where they differ: a blast-radius objection before a change freeze is denied, not held for a human |
| Policy.MorePoliciesNeverMorePermissive | apps/control_plane/policy_engine.py:190-192 | Adding policies never gives a more permissive decision |
| Policy.OrderIrrelevant | apps/control_plane/policy_engine.py:190-192 | The decision depends on the set of policies only |
| Policy.BlackoutIsCyclic | apps/control_plane/policy_engine.py:78-87 | The blackout test is membership of a half-open interval on the 24-hour circle, for every integer offset and all hours |
| Policy.BlackoutOfAnyHours | apps/control_plane/policy_engine.py:83-87 | The test for any configured hours: inside from start to end, or outside from end to start |
| Policy.FirstGiving | apps/control_plane/policy_engine.py:209-212 | The reason is that of the first policy in scope with the verdict |
| Policy.PolicyEngine.Evaluate | apps/control_plane/policy_engine.py:182-222 | The decision is the maximum verdict, the reason names the first policy that gave it or the self-flag, and the applied list is the policies in scope |
| Policy.PolicyEngine.Scan | apps/control_plane/policy_engine.py:194-212 | The loop finds the applied ids, the first denial and the first request for a human |
| ClosedLoop.LoopIsSafe | apps/agents/executor/main.py:57-116 | After every run, with handlers and verifications that may raise: each handler call was approved, each revert follows a successful call of that action with the same non-empty pre-action KPIs and has a measured regression, and the in-flight set is the ids of the pending verifications |
| ClosedLoop.HandlerCallsPassEveryPolicy | apps/agents/executor/main.py:62-79 | Behind every handler call in every run: no self-flag, and each policy in scope is respected (size, freeze, blackout hours) |
| ClosedLoop.StepKeepsTruth | apps/agents/executor/main.py:83-109 | Every step keeps: a published success tells of a handler call that succeeded with those KPIs |
| ClosedLoop.RevertsIffRegressed | apps/agents/rollback/main.py:114-135 | A verification calls revert, with exactly the regressed metrics, if and only if some metric measured before and after has regressed; otherwise the action leaves the in-flight set |
| ClosedLoop.RevertsIffWorse | apps/agents/rollback/main.py:56-135 | In numbers: a verification calls revert if and only if fan.rpm, net.port.up or psu.efficiency.percent fell below 0.9 of its value, or another metric measured both times rose above 1.1 of it; it reports exactly those metrics with both values |
| ClosedLoop.WorseStaysRegressed | apps/agents/rollback/main.py:56-61 | A value that is worse than a regressed one, lower or higher as the metric goes, is regressed too |
| ClosedLoop.RaisingEnds | apps/agents/rollback/main.py:107-112 | A verification that raises, or whose revert has returned, is over without a further effect |
| ClosedLoop.PublishedAre | apps/agents/executor/main.py:93-107 | The events on the bus are exactly those whose publish succeeded |
| ClosedLoop.RevertedAtMostOnce | apps/agents/rollback/main.py:98-112 | Without a delivery after its verification ended, an action is reverted at most once, early redeliveries included |
| ClosedLoop.LateRedeliveryRevertsAgain | apps/agents/rollback/main.py:98-112 | Every approved recommendation with KPIs has a run from the start, with such a delivery, in which its action is reverted twice |
| ClosedLoop.RevertedAgainIff | apps/agents/rollback/main.py:85-112 | After any run in which a verification has ended, for whatever the bus may still deliver: the action can be reverted again if and only if a published successful event of it with KPIs may be delivered |
| ClosedLoop.UnchangedRegressesIff | apps/agents/rollback/main.py:56-61 | An unchanged value regresses exactly when it is negative (for a positive threshold), for metrics of both directions |
| ClosedLoop.HandlerCalledOnce | apps/agents/executor/main.py:89-91 | In every run an action id is used for at most one handler call, whatever raises |
| ClosedLoop.ExecutorAgent.Handle | apps/agents/executor/main.py:57-88 | Acts if and only if the verdict is approved and the kind is one of the two with a handler, asks a human exactly on that verdict, and a denial names a policy that denied |
| ClosedLoop.RollbackAgent.constructor | apps/agents/rollback/main.py:69-73 | A new agent has nothing in flight |
| ClosedLoop.RollbackAgent.HandleExecuted | apps/agents/rollback/main.py:85-103 | Implements the loop's delivery step |
| ClosedLoop.RollbackAgent.VerifyAction | apps/agents/rollback/main.py:107-135 | Implements the loop's verification step; the revert it logs reports exactly the metrics that got worse by a tenth, in the direction of each |
| ClosedLoop.RollbackAgent.Finish | apps/agents/rollback/main.py:107-112 | The verification leaves the in-flight set, after a return as after an exception |
| ClosedLoop.FindRegressions | apps/agents/rollback/main.py:117-123 | The loop over the KPIs, in any order, finds exactly the metrics that got worse by a tenth, in the direction of each, with both values |
| Writer.QuietEventsSurvive | apps/ingestion/main.py:83-110 | On every interleaving an event consumed while no insert is in flight is in the pending batch or in a batch handed to the insert |
| Writer.ExactlyOnceIffNoOverlap | apps/ingestion/main.py:83-110 | Once no insert is in flight, the batches handed over followed by the pending one are the consumed sequence, in order and exactly once, if and only if no consume or flush overlapped an insert |
| Writer.TickHandsOverIff | apps/ingestion/main.py:105-110 | In every run a tick hands over the whole pending batch if and only if one interval or more has passed since the latest insert completed, or since the start; an earlier tick does nothing |
| Writer.DueTickLeavesNothing | apps/ingestion/main.py:105-110 | In a run without overlaps, after such a tick with no insert in flight before, everything ever consumed has been handed over in order |
| Writer.ConsumeHandsOverIff | apps/ingestion/main.py:95-103 | A consumed event joins the batch, which is handed over in full if and only if it has reached the flush size |
| Writer.LastFlushIsLastDone | apps/ingestion/main.py:92-93 | The time of the last flush is that of the latest completed insert, or of the start |
| Writer.DoneClears | apps/ingestion/main.py:90-93 | A completed insert clears what is pending and hands over nothing |
| Writer.OverlapRepeatsAnEvent | apps/ingestion/main.py:86-110 | A run with one overlap that hands an event over twice |
| Writer.OverlapLosesAnEvent | apps/ingestion/main.py:86-110 | A run with one overlap that ends with no insert in flight and with an event that was never handed over and is no longer pending |
| Writer.RunIsCleanOrHurt | apps/ingestion/main.py:86-110 | A run without overlap is exact at every moment; one with an overlap has lost or repeated an event, or will when the pending insert returns |
| Writer.OverlapHurts | apps/ingestion/main.py:90-93 | The first overlap always leaves lasting damage |
| Writer.BatchWriter.constructor | apps/ingestion/main.py:83-84 | A new writer has an empty batch |
| Writer.BatchWriter.ConsumeEvent | apps/ingestion/main.py:95-103 | Implements the consume step up to its insert |
| Writer.BatchWriter.TickOnce | apps/ingestion/main.py:105-110 | Implements the tick up to its insert |
| Writer.BatchWriter.FinishFlush | apps/ingestion/main.py:90-93 | Implements what follows an insert, which clears whatever the batch has become |
| AuditSink.NothingIsLost | apps/audit/sink.py:57-124 | Under failed puts, crashes and redeliveries, without collisions: every delivered entry is pending or acknowledged and never both, each acknowledged non-empty one is stored exactly, and no object ever changes content |
| AuditSink.FaithfulIffNoCollisions | apps/audit/sink.py:39-42 | Every run keeps the payload of every acknowledged entry if and only if no two payloads of the stream share a digest |
| AuditSink.CollisionLosesAnEntry | apps/audit/sink.py:39-42 | A collision on one day lets the second entry overwrite the acknowledged first |
| AuditSink.StoreOnlyGrows | apps/audit/sink.py:76-82 | Every step keeps every object with its content |
| AuditSink.FailedPutIsFinalUnlessRedelivered | apps/audit/sink.py:83-109 | In every run, after a failed put the entry is pending, in nobody's hand and never acknowledged, unless a later redelivery contains it |
| AuditSink.SomeRunStrands | apps/audit/sink.py:83-109 | For every non-empty entry of every stream, a run from the start that ends so |
| AuditSink.RedeliveryCanAcknowledge | apps/audit/sink.py:3-6 | Every run that ends with a redelivery of an entry can go on so that the entry is acknowledged |
| AuditSink.CrashStrandsPending | apps/audit/sink.py:90-124 | A crash at any time strands every pending entry and stores nothing |
| AuditSink.AlwaysInHand | apps/audit/sink.py:118-124 | In every run what is left of a batch is distinct and pending, and so is the entry in hand |
| AuditSink.PutAddsObjectIff | apps/audit/sink.py:8-9 | In every run without collisions, a put that stores adds an object if no object of that day holds the payload, and otherwise changes nothing |
| AuditSink.RetryOnAnotherDayStoresTwice | apps/audit/sink.py:39-42 | A run in which a retry on another day stores the same payload a second time |
| AuditSink.StrandedUnlessRedelivered | apps/audit/sink.py:101-109 | An entry that is pending and in nobody's hand stays so on every run that does not redeliver it |
| AuditSink.Sink.constructor | apps/audit/sink.py:57-64 | A sink starts with nothing delivered or stored |
| AuditSink.Sink.ProcessEntry | apps/audit/sink.py:57-87 | Returns true exactly when it acknowledged, and ends where the machine's steps lead, also when a failed put has stored the object |
| CacheKey.EncodingRoundTrip | apps/agents/vision/main.py:246-263 | The hashed bytes decode to the context and the raw images they came from |
| CacheKey.UniquelyDecodable | apps/agents/vision/main.py:246-263 | For contexts without a NUL, equal hashed bytes mean equal context and equal raw images |
| CacheKey.CollisionIff | apps/agents/vision/main.py:252-262 | Different requests with these two contexts can have equal hashed bytes if and only if the longer context begins with the shorter one and a NUL |
| CacheKey.AnyPrefixCompletes | apps/agents/vision/main.py:254-262 | Every byte string can be put before the frames of some images so that the whole is again the frames of some images |
| CacheKey.EncodingsEqualIff | apps/agents/vision/main.py:252-262 | For given images: the encodings are equal if and only if the requests are, or the rest of the longer context completes the frames |
| CacheKey.NulContextCollides | apps/agents/vision/main.py:252-253 | One such pair |
| CacheKey.FramesRoundTrip | apps/agents/vision/main.py:254-262 | Length-prefixed images decode to themselves |
| CacheKey.BigEndianRoundTrip | apps/agents/vision/main.py:261 | A length that fits its field reads back as itself |
| CacheKey.CacheKeyBytes | apps/agents/vision/main.py:246-263 | The loop feeds the digest the encoding, and fails exactly when some image is too long for its length field |
| CacheKey.RawAppend | apps/agents/vision/main.py:254-260 | The images of a request are taken entry by entry, in order |
| CacheKey.RawOfOne | apps/agents/vision/main.py:255-260 | What is no text is skipped, valid Base64 is decoded, other text stands for its own bytes |
| Text.DecimalRoundTrip | apps/simulator/devices.py:29 | A printed number reads back as itself |
| Text.Decimal2RoundTrip | apps/simulator/devices.py:53 | So does a zero-padded one |
| Text.DecimalIsShort | apps/simulator/devices.py:29 | A printed number has no leading zeros |
| Text.Decimal2Pads | apps/simulator/devices.py:53 | Padding puts one zero before a single digit and nothing else |
| Text.SplitSegment | apps/ingestion/normalizers/dcgm.py:65 | A dash and a dash-free segment add one part |

## Left out

- Rounding of floats: values and times are reals; only explicit truncation, rounding and fixed-point printing are modelled.
- Placement.Solve: CP-SAT is an oracle that answers honestly about the constraints; the time limit only shows as a FEASIBLE or UNKNOWN status. Workloads with the same id share their rack, as they share variables in the source; repeated rack ids are not modelled, and the notes are left out.
- Placement.IncidentClearedIff: no constraint binding means, with two racks or more, that workload ids are distinct.
- Placement.OptimalIsLexicographic: needs base costs that differ by less than the penalty in total, as the big-M idea does; without the premise it fails, and Placement.IncidentClearedIff says exactly when for problems in which no constraint binds. With binding constraints the premise is sufficient only.
- LeastSquares.Project: the square root is not computed; the residual standard deviation is an input that is required to be the root of the variance. Time zones and the Prophet path are not modelled.
- LeastSquares.LinearHistoryRecovered: the collection of numeric samples in `features.py` and its other features are easy loops.
- Correlator.ReachablePublishesReadyIff: the site list does not change during a run.
- Correlator.CrossSiteCorrelator.RecordPrediction: the fields of the published candidate and the persisted Redis list are left out.
- Sentinel.SentinelAgent.VisitDevice: the rules and the model are an oracle for the decision. Their further reads of the same window cannot be seen by anyone, by Window.ReadIsFunctionOfHistory. The body of the published event, apart from its device id, is left out.
- Sentinel.NothingDroppedWithoutRaise: cancellation at shutdown is not modelled; an exception in the middle of a batch is, and loses the rest of that batch.
- Window.WindowStore.Ingest: `total_events`, `device_ids` and the lengths are left out; events are records of four fields.
- Router.LLMRouter.BeginCall: the alert about an exceeded budget and its once-a-day flag are left out, and so is the await for it, which changes neither tier nor spend. Retries, escalation and voting are callers.
- Policy.PolicyEngine.Evaluate: a custom rule is an uninterpreted outcome (true, false or error); YAML loading and the wording of reasons are left out.
- ClosedLoop.LoopIsSafe: KPI snapshots and the results of handlers are inputs; action ids are fresh, as random UUIDs are. Shutdown and the persisted lists are left out.
- ClosedLoop.RevertsIffWorse: for the default threshold of a tenth, which the environment can change.
- ClosedLoop.RollbackAgent.VerifyAction: the revert call's own success is not modelled, only that it was attempted.
- Writer.ExactlyOnceIffNoOverlap: an insert always returns. A raising insert ends the writer in the source, and its shutdown flush is not modelled.
- AuditSink.Sink.ProcessEntry: the calls of one entry run to their end in the method; crashes between them are steps of the machine. Object metadata and the creation of the consumer group are left out.
- AuditSink.FaithfulIffNoCollisions: the digest is any function from payloads to integers.
- CacheKey.CacheKeyBytes: Base64 and UTF-8 decoding are given with each image; the final hash is left out.
- Dcgm.Poll: the site id, the unit and the metadata of the event are left out.
- Dcgm.ExpositionRoundTrip: ids are not empty, and ids and models contain no quote, closing brace or line break; readings are integers of the printed precision; a negative value that prints as `-0.00` is not produced. The HTTP fetch is left out.
- Dcgm.MatcherIsGrammar: digits are ASCII; Python's `\d` also takes other decimal digits.
- Dcgm.BuildTopologyGpus: lists the GPUs only; the topology's other devices are not polled. Which servers are dense is a parameter, since the source derives it from a hash.
- Devices.BuildRack: ratings and loads of the devices are left out, here and in Devices.BuildGpus.
- Devices.BuildHalls: fields that the seed plan does not read (ratings, loads) are left out; the random generator is a function of the place.
- SeedGraph.PlanMeansTree: the interpreter stands for Cypher's MATCH, MERGE and SET on nodes that are unique by label and id, as the schema's constraints promise; the driver and the schema file are left out.
- Redis, Neo4j, TimescaleDB, MinIO, HTTP, the dashboard, the API routes, the prompts, the physics and the failure injector are not part of this model.
