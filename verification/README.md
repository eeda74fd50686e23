# A verified model of the distributed ML inference platform's stateful core

The project models four parts of the platform and proves properties of all their
runs or inputs.

* **Scheduler.** `Scheduler.dfy` is the job protocol between submitters, the
  in-memory queue and the dispatcher, as a machine whose steps are the atomic
  actions of the Go code. Submitters, the dispatcher and cancellation interleave
  in any way. `SchedulerSafety.dfy` proves what every run keeps,
  `SchedulerProgress.dfy` what drains, what blocks and what stays stuck.
  `MemoryQueue.dfy`, `Dispatcher.dfy` and `Gateway.dfy` hold the code itself as
  classes and methods; each method is proved to take exactly the stated steps of
  the machine, so the results about runs apply to it.
* **Model registry.** `ModelRegistry.dfy` has the two tables and the
  transactions, with an abort at any statement; `RegistryRuns.dfy` the REST
  guards and what every run of requests keeps; `RollbackLaws.dfy` what a rollback
  restores, once and repeatedly; `Traffic.dfy` the traffic totals;
  `Promotion.dfy` the retrain-and-promote script as a client.
* **Router.** `Selector.dfy` is the routing policy over worker descriptions;
  `RouterPool.dfy` the worker objects, the heartbeat registry, the selection loops
  and the two halves of Predict. Every method keeps the objects equal to what the
  event history says about them, so its contract speaks about whole histories.
* **Drift.** `Psi.dfy` is the population stability index over real numbers and a
  logarithm of which only its sign, and once its value at reciprocals, is used.

`Bags.dfy` (sums over sequences) and `Decimal.dfy` (decimal text, the two `itoa`
routines) and `Wrappers.dfy` (an option type) serve the others.

## Findings

* Rollback's comment says "most recently archived"
  (`services/model-deployer-go/internal/registry/registry.go:85`), but the query
  orders by registration time, which no statement changes. `NotMostRecentlyArchived`
  is a family of runs on which the two differ; `DeployThenRollback` gives the exact
  condition under which a rollback undoes a deploy, and `RepeatedRollback` shows
  that repeated rollbacks alternate between two versions for ever.
* Registering a candidate under the serving version's name withdraws that version,
  so the promotion gate finds no production and promotes unconditionally; and a
  negative threshold lets a worse candidate through under any name.
  `GateHoldsExactly` says when a pipeline run keeps production accuracy.
* The dispatcher is the only consumer of the channel it requeues to, and nothing
  consumes results. Accepted jobs need not complete beyond 1024 arrivals, and that
  bound is exact (`CompletionBound`): with 1025, `SelfDeadlock` reaches an end in
  which the dispatcher waits for room in its own channel, and `WedgedForever` shows
  it never leaves such a state uncancelled. `ThroughputCeiling` bounds an
  uncancelled dispatcher on the in-memory backend to 1025 processed jobs.
* The load term of the routing score is always zero: no path ever counts a request
  as in flight.
* The drift index with `b` bins is blind to every upward change exactly if the
  sorted reference still equals its minimum at position ceil((b-1)(n-1)/b)
  (`BlindExactly`).
* The queue's `itoa` writes only a sign for the smallest 64-bit integer.

## Model

| member | source | states |
|---|---|---|
| SchedulerSafety.Reachable | services/scheduler-go/internal/worker/dispatcher.go:68-145 | the whole invariant holds after every run of every length and interleaving |
| SchedulerSafety.JobConservation | services/scheduler-go/internal/worker/dispatcher.go:79-145 | after every run an accepted job is exactly once in jobs channel, handler, results, dead letters or lost list; nothing is lost before cancellation |
| SchedulerSafety.StepMoves | shared/pkg/queue/memory.go:37-74 | each step changes a job's number of places only by a submitter's send, and its unsent copies only by stamping, sending or giving up |
| SchedulerSafety.BoundedAttempts | services/scheduler-go/internal/worker/dispatcher.go:83-124 | at most max(1, MaxAttempts) Predict calls per job and backoff * r(r+1)/2 slept after r retries; a dead letter used exactly its budget, all failed, and carries the count from before its last increment |
| SchedulerSafety.FirstDeliveryOnly | shared/pkg/queue/memory.go:57-64 | every queued message has delivery count 1 and the redelivery branch never fires |
| SchedulerSafety.CounterLaws | services/scheduler-go/internal/worker/dispatcher.go:104-128 | failed = retried + dead-lettered, the dead-letter list has that length, and between calls processed + failed is the number of Predict calls |
| SchedulerSafety.DistinctIds | shared/pkg/queue/memory.go:37-44 | all message IDs handed out in a run differ, across topics, and no two messages carry the same one |
| SchedulerProgress.FuelFalls | services/scheduler-go/internal/worker/dispatcher.go:108-123 | every step but a submission or a cancellation lowers a bound built from the calls still allowed |
| SchedulerProgress.Drains | services/scheduler-go/internal/worker/dispatcher.go:68-145 | without new submissions a run is bounded and makes at most as many Predict calls as live jobs still allow; where it ends uncancelled, with submitters perhaps still waiting for room but no other step possible, every accepted job has a result or a dead letter, once, if and only if the dispatcher is not waiting on a full channel |
| SchedulerProgress.CallsStep | services/scheduler-go/internal/worker/dispatcher.go:83-123 | delivering a job lowers the sum of max(1, MaxAttempts) - attempt over live jobs by exactly one, and no step but a submission raises it |
| SchedulerProgress.CallsBound | services/scheduler-go/internal/worker/dispatcher.go:83-123 | in a run without submissions the Predict calls made come out of that sum |
| SchedulerProgress.CompletionBound | shared/pkg/queue/memory.go:26-67 | every run with at most n arrivals that ends uncancelled with nothing left to do completes all accepted jobs, if and only if n is at most 1024 |
| SchedulerProgress.CompletedUnlessWedged | shared/pkg/queue/memory.go:43-67 | at such an end everything accepted is completed if and only if no send of the dispatcher waits |
| SchedulerProgress.StuckShape | shared/pkg/queue/memory.go:43-67 | whatever submitters do, the dispatcher has no step of its own if and only if it waits to send to a full channel, has stopped, or idles uncancelled on an empty channel |
| SchedulerProgress.BlockingNeedsLoad | shared/pkg/queue/memory.go:31-48 | a requeue waits only with 1025 live messages, a result only with 1024 unread ones |
| SchedulerProgress.WedgedForever | shared/pkg/queue/memory.go:43-48 | a dispatcher waiting on a full channel stays so and finishes nothing in any run without cancellation |
| SchedulerProgress.ThroughputCeiling | services/scheduler-go/internal/worker/dispatcher.go:126-143 | an uncancelled dispatcher processes at most 1025 jobs, as nothing consumes results |
| SchedulerProgress.SelfDeadlock | services/scheduler-go/internal/worker/dispatcher.go:118-123 | a run with 1025 arrivals after which nothing can happen: the only consumer waits for room in its own channel and an accepted job is left incomplete |
| MemoryQueue.Memory.ChanFor | shared/pkg/queue/memory.go:26-35 | the channel exists afterwards and no topic's contents change |
| MemoryQueue.Memory.NextNumber | shared/pkg/queue/memory.go:38-41 | takes the next number and returns its decimal text |
| MemoryQueue.Memory.Offer | shared/pkg/queue/memory.go:43-48 | sends, gives up or waits as the select allows; other topics are untouched |
| MemoryQueue.Memory.Receive | shared/pkg/queue/memory.go:52-57 | takes the oldest message of the topic, if any |
| MemoryQueue.Memory.Redeliver | shared/pkg/queue/memory.go:58-64 | puts the message back with its count raised if there is room, else drops it |
| MemoryQueue.Memory.DeadLetter | shared/pkg/queue/memory.go:69-74 | appends the payload to that topic's dead letters and never fails |
| Dispatcher.EnqueueRun | shared/pkg/queue/memory.go:37-49 | taking a number and one select are a run of the protocol with the stated end |
| Dispatcher.Dispatcher.Handle | services/scheduler-go/internal/worker/dispatcher.go:79-145 | takes exactly the protocol steps of its branch, keeps code and protocol state equal, and comes back unless its send waits |
| Dispatcher.Dispatcher.HandleFailure | services/scheduler-go/internal/worker/dispatcher.go:102-124 | a failed call takes exactly the steps of dead-lettering or of requeueing |
| Dispatcher.Dispatcher.HandleSuccess | services/scheduler-go/internal/worker/dispatcher.go:126-144 | an answered call takes exactly the steps of publishing the result |
| Dispatcher.HandleRun | services/scheduler-go/internal/worker/dispatcher.go:102-144 | the handler's steps are a run of the protocol: the reply, then those of its Enqueue if there is one |
| Dispatcher.HandleEffect | services/scheduler-go/internal/worker/dispatcher.go:102-144 | the handler's steps use the router's answer once: answered, the job leaves its result; failed, it comes back with its attempt raised, or is dead-lettered as it came |
| Dispatcher.Dispatcher.Process | services/scheduler-go/internal/worker/dispatcher.go:69-76 | a job is handled with the router's answer for it, a message that does not decode leaves nothing behind |
| Dispatcher.Dispatcher.ConsumeOnce | shared/pkg/queue/memory.go:53-65 | one loop iteration takes the head and does with it what the router's answer says: counters, result, requeued job or dead letter; it ends the loop only by stopping, idling on an empty channel or waiting on a full one |
| Dispatcher.Dispatcher.Consume | services/scheduler-go/internal/worker/dispatcher.go:68-77 | the loop is a run of the dispatcher's own steps and keeps the protocol's invariant; the answers it acts on are, in order, those given for the rounds that asked the router, one for each Predict call; it uses up the answers unless the dispatcher is stuck |
| Gateway.SubmitJob | services/gateway-go/internal/handler/http.go:132-163 | rejects exactly requests without model or features; the caller is told 202 exactly if the job entered the queue, where it then is last, with the request's fields, attempt 0 and 3 attempts allowed |
| Gateway.SubmissionKeepsInv | services/gateway-go/internal/handler/http.go:143-160 | however a submission goes it keeps the protocol's invariant |
| Decimal.Itoa | shared/pkg/queue/memory.go:90-110 | the decimal text of every 64-bit integer but the smallest, within 20 bytes; a lone sign for the smallest |
| Decimal.FillDigits | shared/pkg/queue/memory.go:98-104 | the digit loop writes the digits at the buffer's end and never reaches index 0 |
| Decimal.ItoaPrepend | services/router-go/cmd/router/main.go:95-105 | the same text for non-negative numbers, nothing for negative ones |
| Decimal.ParseOfText | shared/pkg/queue/memory.go:90-110 | reading the text back gives the number |
| Decimal.TextInjective | shared/pkg/queue/memory.go:90-110 | different numbers have different texts |
| Decimal.DigitsShortest | shared/pkg/queue/memory.go:98-104 | the text has digits only and no leading zero but for zero itself |
| Decimal.DigitsUnique | shared/pkg/queue/memory.go:98-104 | it is the only such text that reads as the number |
| ModelRegistry.Registry.Register | services/model-deployer-go/internal/registry/registry.go:31-46 | writes the whole row, in staging by default, but a conflicting row keeps its registration time; nothing else changes |
| ModelRegistry.Registry.Deploy | services/model-deployer-go/internal/registry/registry.go:51-83 | commits demotion, promotion and event together, moving stage and traffic only; any failure, and a missing version found after the demotion, leaves both tables as they were |
| ModelRegistry.Registry.Rollback | services/model-deployer-go/internal/registry/registry.go:87-124 | restores a newest-registered archived version, moving stage and traffic only, or changes nothing |
| ModelRegistry.Registry.SetTraffic | services/model-deployer-go/internal/registry/registry.go:128-139 | changes the share of one row and nothing else about it, or nothing if the row is missing |
| ModelRegistry.Registry.Production | services/model-deployer-go/internal/registry/registry.go:142-147 | returns a production row of the model exactly if there is one |
| ModelRegistry.NewestArchivedExists | services/model-deployer-go/internal/registry/registry.go:95-99 | the rollback query finds a row whenever some version is archived |
| RegistryRuns.Handle | services/model-deployer-go/internal/handler/http.go:30-157 | each handler answers as its guards and transaction say; a guard's rejection ignores pending faults, and a server error changes nothing |
| RegistryRuns.RegistrySafety | services/model-deployer-go/internal/registry/registry.go:31-139 | after any run of requests a model has at most one production version, its last deployment event names it, and traffic is in 0..100 |
| RegistryRuns.OtherModelsUntouched | services/model-deployer-go/internal/registry/registry.go:31-139 | requests for other models leave a model's rows and deployment history alone in any run |
| RegistryRuns.RegistrationTimeFixed | services/model-deployer-go/internal/db/schema.sql:9 | no run changes a row's registration time or removes a row |
| RegistryRuns.ArtifactFixed | services/model-deployer-go/internal/registry/registry.go:58-116 | in any run only a registration of the same version changes what is stored about its artifact |
| RegistryRuns.RegisteredAsSent | services/model-deployer-go/internal/handler/http.go:40-51 | an accepted registration is stored as sent, in staging and without traffic, with fp32 for a missing precision |
| RegistryRuns.RegistrationAccepted | services/model-deployer-go/internal/handler/http.go:36-39 | a registration is accepted exactly with a model name, a version and a path |
| RegistryRuns.ReRegisteringWithdraws | services/model-deployer-go/internal/registry/registry.go:36-44 | registering the serving version again leaves the model without production |
| RollbackLaws.DeployThenRollback | services/model-deployer-go/internal/registry/registry.go:58-116 | after deploying v over p a rollback can restore p exactly if no other archived version is newer, and must exactly if p is strictly newest |
| RollbackLaws.RollbackStep | services/model-deployer-go/internal/registry/registry.go:95-116 | the next rollback can only restore the newest released version that is not serving, and keeps the released set |
| RollbackLaws.RepeatedRollback | services/model-deployer-go/internal/registry/registry.go:87-124 | consecutive rollbacks always succeed, keep the released set and alternate between its two newest versions |
| RollbackLaws.ThirdNeverRestored | services/model-deployer-go/internal/registry/registry.go:87-124 | no number of consecutive rollbacks reaches a third-newest version |
| RollbackLaws.TopTwoExists | services/model-deployer-go/internal/db/schema.sql:9 | distinct registration times and two released versions determine the two newest |
| RollbackLaws.NotMostRecentlyArchived | services/model-deployer-go/internal/registry/registry.go:85-99 | runs after which the version archived last is not the one a rollback restores |
| Traffic.TrafficAfterRelease | services/model-deployer-go/internal/registry/registry.go:58-116 | after a deploy or rollback the total is 100 plus the earlier traffic of every row that is neither the new nor a previous production version |
| Traffic.TrafficAfterSplit | services/model-deployer-go/internal/registry/registry.go:128-131 | a traffic request changes the total by what it changes on one row |
| Traffic.TotalWithoutCanaries | services/model-deployer-go/internal/registry/registry.go:58-116 | in runs without traffic requests the total is 100 with a production version and 0 without |
| Promotion.Execute | ml/pipelines/retrain_and_promote.py:74-106 | the script's registry effects and exit, in its order: register, look up, perhaps deploy |
| Promotion.SameNameIsUnconditional | ml/pipelines/retrain_and_promote.py:82-93 | a candidate with a recorded accuracy named like the serving version is always promoted, whatever the threshold |
| Promotion.OtherNameIsGated | ml/pipelines/retrain_and_promote.py:87-106 | any other such candidate is promoted exactly if its accuracy less the serving one is at least the threshold, of either sign; otherwise the serving version stays and the candidate is left in staging |
| Promotion.UnmeasuredCandidate | ml/pipelines/retrain_and_promote.py:84-88 | without a recorded accuracy the run raises, yet a candidate named like the serving version has already withdrawn it |
| Promotion.NothingToCompare | ml/pipelines/retrain_and_promote.py:52-57 | a measured candidate is promoted unconditionally if nothing is serving or the serving version has no recorded accuracy; on null metrics the script raises |
| Promotion.CandidateOnRecord | ml/pipelines/retrain_and_promote.py:60-84 | whatever the verdict, the candidate is on record under its path, as fp32, with the reported metrics |
| Promotion.GateHoldsExactly | ml/pipelines/retrain_and_promote.py:82-106 | for every threshold and every reported metrics a run keeps production accuracy if and only if the registration is refused, the candidate is at least as accurate, or it has another name and misses the threshold |
| Promotion.AccuracyRises | ml/pipelines/retrain_and_promote.py:74-106 | over any series of runs with new names and no negative threshold accuracy rises by at least the thresholds of the promotions that happened |
| Promotion.PromotionGate | ml/pipelines/retrain_and_promote.py:98-102 | k promotions at one non-negative threshold raise accuracy by at least k times it |
| Selector.BestIsUnique | services/router-go/internal/routing/selector.go:47-58 | at most one worker is eligible with least score and ID, so iteration order cannot matter |
| Selector.GpuPreferenceBounded | services/router-go/internal/routing/selector.go:44-58 | the critical choice costs at most 25 more than the normal one, and more only with a GPU the normal choice lacks |
| Selector.PrecisionMonotone | services/router-go/internal/routing/selector.go:30-38 | a higher precision demand never makes a worker appear and never lowers the winning score |
| Selector.PrecisionOrder | services/router-go/internal/routing/selector.go:12-17 | int4 < int8 < fp16 < fp32, and unknown or missing precisions rank with int4 |
| Selector.EligibleMeaning | services/router-go/internal/routing/selector.go:30-38 | eligible exactly are workers listing the model whose precision meets the demand: fp32 only by fp32, fp16 by fp16 and fp32, int8 by these and int8 |
| Selector.BestWeighs | services/router-go/internal/routing/selector.go:23-57 | the best worker is at most level with any other in latency plus 15 per request in flight less 25 for a GPU on critical priority, and precedes it by ID if level |
| Selector.IdLessMeaning | services/router-go/internal/routing/registry.go:67 | IDs compare at their first difference, a proper prefix first |
| Selector.IdLessTotal | services/router-go/internal/routing/registry.go:67 | IDs are totally ordered by the sort's comparison |
| RouterPool.SupportsModel | services/router-go/internal/routing/selector.go:62-69 | whether the model is in the worker's list |
| RouterPool.Filter | services/router-go/internal/routing/selector.go:30-39 | lists exactly the eligible workers, in order |
| RouterPool.Cheapest | services/router-go/internal/routing/selector.go:47-58 | the first worker of least score |
| RouterPool.Select | services/router-go/internal/routing/selector.go:29-60 | fails exactly if nobody is eligible, else returns the first of the cheapest eligible workers |
| RouterPool.SortById | services/router-go/internal/routing/registry.go:67 | the same workers in ascending ID order |
| RouterPool.KnownMeansRegistered | services/router-go/internal/routing/registry.go:37-53 | a worker is known exactly if it registered; heartbeats alone never make one known |
| RouterPool.KnownMeaning | services/router-go/internal/routing/registry.go:37-53 | a known worker's heartbeat time, latency and load are those of the latest event about it |
| RouterPool.PlainMeaning | services/router-go/internal/handler/grpc.go:115-173 | with registrations as RegisterWorker makes them and heartbeats as Predict makes them, a worker's latency is the last finished Predict's since its latest registration, or 0, and its load is 0 |
| RouterPool.LivenessMeaning | services/router-go/internal/routing/registry.go:56-66 | with a monotone clock a worker is live exactly if it registered and some event about it is later than now minus staleAfter |
| RouterPool.Registry.Register | services/router-go/internal/routing/registry.go:37-42 | the ID points to a new object holding the given description and endpoint, and the registry still equals its history |
| RouterPool.Registry.Heartbeat | services/router-go/internal/routing/registry.go:45-53 | only the worker now under that ID changes; an unknown ID changes none |
| RouterPool.Registry.Snapshot | services/router-go/internal/routing/registry.go:56-69 | exactly the live workers the history determines, in ID order, for any map order |
| RouterPool.Registry.Count | services/router-go/internal/routing/registry.go:72-74 | the number of live IDs |
| RouterPool.Server.RegisterWorker | services/router-go/internal/handler/grpc.go:162-177 | accepted exactly with an ID and an endpoint; the worker then stored has every field as requested, no latency and no load |
| RouterPool.Server.BeginPredict | services/router-go/internal/handler/grpc.go:81-85 | routes to the best live worker the history determines, which lists the model and meets the precision, scored by the latency its last finished Predict since its latest registration left, or 0, less 25 for a GPU on critical priority; fails exactly if no live worker is eligible; the load of every reachable worker stays 0 |
| RouterPool.Server.FinishPredict | services/router-go/internal/handler/grpc.go:99-116 | a success is one heartbeat with load 0 under the worker's ID, a failure leaves no trace; the load of every reachable worker stays 0 |
| Psi.HistogramSums | ml/pipelines/drift_detection.py:54-57 | the bins partition any sample: counts sum to its size |
| Psi.QuantileMeaning | ml/pipelines/drift_detection.py:54 | the k/bins quantile lies at sorted position (n-1)k/bins, linearly between its neighbours |
| Psi.QuantileMonotone | ml/pipelines/drift_detection.py:54 | interpolated quantiles rise with the quantile |
| Psi.ShareMeaning | ml/pipelines/drift_detection.py:58-59 | a share is count over size, but at least a millionth |
| Psi.DivergenceIsSymmetricEntropy | ml/pipelines/drift_detection.py:60 | for a logarithm the index is the relative entropy of each set of shares over the other, summed |
| Psi.IndexSign | ml/pipelines/drift_detection.py:58-60 | the index is never negative and zero exactly if both samples have the same clipped shares |
| Psi.LastEdgePositionMeaning | ml/pipelines/drift_detection.py:54 | the position used is the least one not below (bins-1)(n-1)/bins |
| Psi.LastEdgeAtMinimum | ml/pipelines/drift_detection.py:54 | the last interior edge is the minimum exactly if the sorted sample still holds it at the next position |
| Psi.ShiftGoesUnnoticed | ml/pipelines/drift_detection.py:53-60 | in that case every sample at or above the minimum scores exactly 0 |
| Psi.BlindExactly | ml/pipelines/drift_detection.py:53-60 | the index is 0 on all samples at or above the minimum if and only if that is the case |
| Psi.LabelDriftUnseen | ml/pipelines/drift_detection.py:88 | the four-bin call on class labels misses any change once label 0 fills the reference that far |

## Left out

- Redis and Kafka backends: their delivery guarantees live in brokers that are not part of this model; the in-memory queue is the backend modelled.
- Encoding (JSON, gRPC, HTTP, protobuf): a payload is a job, a result or bytes that do not decode; job IDs are taken as fresh and the jobs and results topics as different.
- Gateway: submissions start at attempt 0, as the only submitter in the repository makes them; `attempt` and the sequence number are not wrapped at 64 bits (an attempt never exceeds max(1, MaxAttempts), and the methods require the number to stay below 2^63).
- Dispatcher.Dispatcher.Handle: the copy of features to 32-bit floats, the call timeout, tracing and logging are not modelled; the router's answer is a parameter. Run alone the method takes the steps its contract names; interleavings with submitters are covered by the machine.
- Backoff overflow: RetryBackoff times the attempt is an unbounded integer.
- Postgres isolation: each transaction is one atomic step; overlapping transactions are not part of this model, and a failing commit is taken to have changed nothing.
- Registry listing and the deployment events' own timestamps: read-only or never read.
- Promotion.Execute: training, evaluation, printing and the text of the deployment reason are left out; the evaluation's metrics are a parameter and no request fails with a server error.
- RouterPool.SortById: `sort.Slice` is library code, modelled by insertion in ID order over characters.
- RouterPool.Server.BeginPredict: snapshot and scoring are one atomic step, although the code reads worker fields after releasing the lock.
- Floating point: scores are integers, accuracies and the index reals.
- Psi.BlindExactly: an empty reference, NaN values and zero bins, which the numeric library rejects or treats specially, are excluded.
- Kolmogorov-Smirnov test, report writing and the drift verdict: library code or a comparison of two numbers.
- Rate limiting, API keys, metrics, deployment files, the fleet simulator and the load test: they would only add easy members.
