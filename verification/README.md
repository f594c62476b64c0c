# A verified model of the pwnproxy kernels

This project models, in Dafny, the stateful and codec-like parts of pwnproxy whose correctness is not
visible in any single function, and proves what they promise over every run, every interleaving or every
input. `dafny verify dfyconfig.toml` checks all of it.

| module | what it models |
|---|---|
| `JobContract`, `JobStorage`, `JobLifecycle` | job states, the compare-and-set walk of `transition_status`, the lifecycle commands |
| `JobProtocol`, `JobQuiescence` | any number of such calls on one table, interleaved one database operation at a time |
| `QoS`, `QoSQueue` | the three queue policies as one state machine, and the class that carries it out |
| `HookBus` | fan-out with a private queue per subscriber and a replay buffer |
| `Crawl`, `CrawlEngine` | the crawl frontier as a function of the completion order, and the engine that produces it |
| `CrawlBatches`, `CrawlDepths` | the completion orders the engine can produce, and exactly when they give shortest depths and miss nothing |
| `Bruteforce` | the URL plan, its cap, and the probe loop with its counters |
| `Chain` | detection chains: `DetectionChain` against `BudgetChain` |
| `Intruder`, `ClusterBomb` | marked requests, their templates, Sniper and Cluster Bomb |
| `JsonInjection`, `Cookies`, `Dns` | three parser and printer pairs |
| `CircuitBreaker`, `LlmClient` | the provider breaker, the fallback chain, structured output |
| `Heuristic`, `Triage` | scoring of findings, and the budgeted queue for the judge |
| `Text`, `Seqs`, `Wrappers` | splitting and joining, sequences, `Option` and `Result` |

Code that changes things step by step is a class or a method with loops, proved equal to a specification
function; the lemmas are about those functions and hold for all inputs or all runs.

## What the proofs show

* **Jobs.** Under every interleaving the statuses of a row climb along the transition table, at most four
  writes succeed per job, a call that returns reports a status the row had during the call, two calls never
  claim different final states, and a stop that saw the job running ends in a terminal state once all calls
  are done. The step that sets a job running is its start time from then on, the step that ends it its finish
  time, and a failed job keeps the error of the call that failed it. The first compare-and-set uses the raw
  status, so legacy rows ("queued") are covered.
* **Queues.** Every event put is in exactly one place: delivered, queued, waiting for a retry, replaced,
  dropped or forgotten. The last is the one uncounted loss; it is empty exactly when no dequeue finds more
  than one retry ready, and a four-step run shows that a CRITICAL event can vanish this way. A buffered event
  is due 0.05 after its put, 0.1 after its first tick and 0.2 after its second; a tick gives up exactly those
  whose third it is. An IMPORTANT queue is an insertion-ordered map that keeps the newest value per key. Over
  all three classes `put_nowait` answers True for an event it drops exactly when its key is new on a full
  IMPORTANT queue.
* **Hook bus.** The first subscriber is offered the newest 200 earlier events and then every later one, later
  subscribers everything since they registered. A CRITICAL queue holds the whole replay; a BEST_EFFORT queue
  keeps the oldest 64 of it, not the newest; an IMPORTANT one keeps the oldest 128 on a channel without
  coalesce keys (`flow_stored`), and the newest payload of each of the first 128 keys on one with keys.
* **Crawl.** For any concurrency, completion order and cancellation, every page is a seed or linked within
  `depth` links that are in scope and not disallowed, nothing else is enqueued, every such link of a page
  above the bound is, and no path is enqueued twice beyond the seeds. That the recorded
  depth is the shortest link distance is false in general, and so is that a crawl finds every path within
  `depth`. For every configuration both hold on all sites (whose links depend on the path alone) and in all
  completion orders the batches allow if and only if there is no seed, or at most one fetch at a time, or a
  depth of at most 1, or depth 2 and no new seed shares a batch with pages one link away; for a single seed:
  `concurrency <= 1 || depth <= 2`. Two families of sites, one for depth 3 and more and one for depth 2,
  show the failing half.
* **Bruteforce.** A reached target is saved, in plan order, exactly when it was probed in scope and brought a
  listed status that no soft-404 baseline of its base explains; the counters are the numbers of targets of
  each kind and account for the whole plan.
* **Chains.** What either chain yields is, in order, what its executed stages reported, each on exactly the
  points it should have got. An exhausted budget takes nothing back, and what was executed within it is the
  start of the run without one. Under any clock that stays below the budget `chain_from_depth` and
  `DetectionChain` agree on every behaviour of the stages exactly when the stages a depth runs come in
  strictly increasing depth.
* **Round trips.** The intruder finds every marked pair, and its template fills back to the raw request exactly
  when the text outside the markers has no brace. The JSON walk names each scalar under a key by its path,
  also below arrays; injection is a lens on array-free documents, and re-injecting the shown value is the
  identity exactly when the leaf is neither `false` (the payload "False" coerces to `true`) nor `null`. Cookie
  injection reads back exactly when the payload has no `;` or no cookie has the name. The DNS response parses
  back to its query exactly when no label is empty.
* **Policies.** The fallback chain is asked in its own order, an open provider is never asked, one whose
  cooldown is over is asked again, and a structured call sends at most twice the requests of a plain one. The
  verdict of a finding follows its score, the judge is asked about one scan at most `max_llm_per_scan` times
  and never about a confirmed finding.

Where the code differs from its own description, the model follows the code: `recover_stale` handles rows
whose raw status is "running" only; the DNS server's domain suffix is stripped but never decides the token;
Cluster Bomb with no wordlists and no markers yields one request while `total_requests` is 0; in enrich mode
only inferred findings can reach the judge, because a confirmed one is never in the gray zone.

## Model

| member | source | states |
|---|---|---|
| JobContract.LegalClimbs | pwnproxy/shared/contracts/job.py:38-46 | Each legal transition strictly raises a rank, so the table has no cycle |
| JobContract.StatusNames | pwnproxy/shared/contracts/job.py:57-70 | The strings that name a state: its own, "queued" for created and "stopped" for cancelled, and no others |
| JobContract.Job.Transition | pwnproxy/shared/contracts/job.py:72-92 | Illegal targets raise and change nothing; legal ones set the state, the first start time and the finish time |
| JobStorage.PathLegality | pwnproxy/services/crawler/storage.py:326-342 | The implicit path to a target is walkable exactly for the reachable targets; otherwise its first step already is illegal |
| JobStorage.AdvanceIsWaitFree | pwnproxy/services/crawler/storage.py:310-368 | Each database operation of a call uses up its budget, so a call ends after a bounded number of operations under any interference |
| JobStorage.SoloIsAllOrNothing | pwnproxy/services/crawler/storage.py:271-368 | Without interference a call either raises before its first write or lands on its target, with its error, and with the stamps of its last write at the time of that write |
| JobStorage.RecoveryOfOneRow | pwnproxy/services/crawler/storage.py:226-248 | Recovering a row marked running leaves it failed, finished at the time of its last write and with the restart error |
| JobStorage.JobStorage.Create | pwnproxy/services/crawler/storage.py:130-143 | A new identifier with a queued row; every other row is untouched |
| JobStorage.JobStorage.CloneJob | pwnproxy/services/crawler/storage.py:250-269 | A clone starts afresh as created; an unknown original raises and nothing changes |
| JobStorage.JobStorage.UpdateStatus | pwnproxy/services/crawler/storage.py:177-215 | A compare-and-set: the row changes, and success is reported, exactly when the stored status is the expected one; "running" then starts it now, a terminal status finishes it now, and nothing else touches the stamps |
| JobStorage.JobStorage.Persist | pwnproxy/services/crawler/storage.py:344-368 | The walk along the path, stopped by the first lost compare-and-set, is the step machine run to its end |
| JobStorage.JobStorage.TransitionStatus | pwnproxy/services/crawler/storage.py:271-368 | The whole call equals the step machine run without interference, result and row |
| JobStorage.JobStorage.MarkStaleRunningFailed | pwnproxy/services/crawler/storage.py:226-248 | Exactly the rows marked running become failed, all others stay, and the count is their number |
| JobLifecycle.JobLifecycle.Run | pwnproxy/services/jobs/lifecycle.py:32-47 | A command is the corresponding call run alone |
| JobLifecycle.JobLifecycle.SafeRun | pwnproxy/services/jobs/lifecycle.py:55-72 | The safe variants leave the row as the plain command would, landed on its target or untouched, and swallow every exception |
| JobLifecycle.JobLifecycle.RecoverStale | pwnproxy/services/jobs/lifecycle.py:49-53 | Start-up recovery fails exactly the rows marked running |
| JobProtocol.AdvanceWritesLegally | pwnproxy/services/crawler/storage.py:344-368 | A single operation writes only along one edge of the table, from the very status it compared |
| JobProtocol.AdvanceReturnsCurrentStatus | pwnproxy/services/crawler/storage.py:326-368 | A call that returns at an operation returns the row's status of that moment |
| JobProtocol.WritesAreStamped | pwnproxy/services/crawler/storage.py:203-215 | In every schedule a write stamps its row with the time of its own step: the start exactly when it sets running, the finish exactly when it sets a terminal status |
| JobProtocol.StepIsSafe | pwnproxy/services/crawler/storage.py:271-368 | Every event of every schedule keeps the claims of all calls true and writes legally |
| JobProtocol.StatusHistoryIsLegal | tests/contracts/test_job_contract.py:509-540 | In any run consecutive statuses of a row are equal or one legal transition apart, and a terminal one never changes |
| JobProtocol.StampsAreTheSteps | pwnproxy/services/crawler/storage.py:203-208 | In any run the time of the step that set a job running stays its start time, and that of the step that ended it its finish time, whatever races with them |
| JobProtocol.WritesClimb | pwnproxy/services/crawler/storage.py:344-368 | Successful writes are paid for by the rank of the row's status |
| JobProtocol.AtMostFourWrites | pwnproxy/shared/contracts/job.py:38-50 | At most four status writes ever succeed on one job, however many calls race |
| JobProtocol.NoFalseTerminalClaim | tests/contracts/test_job_contract.py:428-508 | Calls that both return a terminal status agree with each other and with the row |
| JobProtocol.ReturnedStatusWasCurrent | pwnproxy/services/crawler/storage.py:326-368 | The status a call returns was the row's status at some moment of the call |
| JobProtocol.CallsAreWaitFree | pwnproxy/services/crawler/storage.py:310-368 | No schedule makes a call take more than its bounded number of operations |
| JobQuiescence.ColumnsAgreeWithStatus | pwnproxy/services/crawler/storage.py:177-215 | Under lifecycle commands finished_at is set exactly in terminal states, an error exactly in failed ones, and started_at never before running |
| JobQuiescence.ErrorsAreKept | pwnproxy/services/crawler/storage.py:199-208 | From the step that fails a job on, the row shows the error of the call that took this step |
| JobQuiescence.QuiescentJobsAreSettled | pwnproxy/services/jobs/lifecycle.py:32-47 | When no call on a job is in flight the job is not left half way, neither starting nor stopping |
| JobQuiescence.StopReachesTerminal | pwnproxy/services/jobs/lifecycle.py:36-38 | If a stop saw the job running and all calls on that job have ended, the job is terminal |
| QoS.EveryEventIsAccountedFor | pwnproxy/shared/bus/qos.py:81-233 | Over any run and for each event, puts equal its places: delivered, queued, retrying, replaced, dropped or forgotten |
| QoS.EventCountsBalance | pwnproxy/shared/bus/qos.py:73-79 | The counts balance: puts are gets, queued, retrying, coalesced, dropped and forgotten |
| QoS.UncountedLossExactly | pwnproxy/shared/bus/qos.py:118-128 | Nothing is lost uncounted exactly when no dequeue finds more than one retry ready |
| QoS.CriticalEventCanVanish | pwnproxy/shared/bus/qos.py:118-128 | A concrete run in which a CRITICAL event is neither delivered nor counted |
| QoS.RunIsBounded | pwnproxy/shared/bus/qos.py:188-211 | The queue never exceeds its size, the retry buffer never exceeds 32 and exists only for CRITICAL |
| QoS.SharedKeyExactly | pwnproxy/shared/bus/qos.py:33-39 | Two events share a key exactly when both report progress of one job or both a verdict on one finding, those that name none being taken for one |
| QoS.RoomMeansQueued | pwnproxy/shared/bus/qos.py:130-193 | While there is room nothing is dropped or delayed: the event joins the end, or on an IMPORTANT queue replaces the one of its key |
| QoS.BufferedEventsAreTimed | pwnproxy/shared/bus/qos.py:188-231 | In every run each buffered event is that of a put, in the order of the puts, with at most two ticks since; it is due 0.05 after its put, or 0.1 and 0.2 after its first and second tick |
| QoS.ThirdTickDiscards | pwnproxy/shared/bus/qos.py:213-233 | A tick discards exactly the buffered events whose third tick it is, and keeps the others |
| QoS.DueEventsComeFirst | pwnproxy/shared/bus/qos.py:118-128 | A dequeue serves the first buffered event that is due by these times, in the order of the puts, and the head of the queue only if none is |
| QoS.OverflowLosesTheOldest | pwnproxy/shared/bus/qos.py:195-205 | The put that overfills the buffer loses the sixteen events put first |
| QoS.AcceptedThoughDropped | pwnproxy/shared/bus/qos.py:144-186 | In every class: the put answers True while the event is dropped exactly for a keyed event whose key is new on a full IMPORTANT queue |
| QoS.BestEffortIsFifo | pwnproxy/shared/bus/qos.py:130-142 | A BEST_EFFORT queue delivers what was admitted, in order, and drops only new events |
| QoS.ImportantIsConflatingMap | pwnproxy/shared/bus/qos.py:144-186 | An IMPORTANT queue is an insertion-ordered map over every run of puts, gets and ticks |
| QoS.QueuedEventIsNewest | pwnproxy/shared/bus/qos.py:144-186 | A queued keyed event is the newest ever put under its key, and no key is queued twice |
| QoSQueue.QoSClassifiedQueue.constructor | pwnproxy/shared/bus/qos.py:52-59 | An empty queue with the given size, or the class's own when none or 0 is given |
| QoSQueue.QoSClassifiedQueue.PutNowait | pwnproxy/shared/bus/qos.py:81-92 | One put of the state machine, with the answer it gives |
| QoSQueue.QoSClassifiedQueue.EnqueueDrop | pwnproxy/shared/bus/qos.py:130-142 | Appended while there is room, else counted as dropped |
| QoSQueue.QoSClassifiedQueue.EnqueueCoalesce | pwnproxy/shared/bus/qos.py:144-186 | Emptying and refilling the queue replaces in place or appends, and loses at most the new event |
| QoSQueue.QoSClassifiedQueue.EnqueueCritical | pwnproxy/shared/bus/qos.py:188-211 | Appended, or buffered for a retry as the state machine does; when and how often it is retried say the timing lemmas of QoS |
| QoSQueue.QoSClassifiedQueue.GetNowait | pwnproxy/shared/bus/qos.py:118-128 | One dequeue of the state machine: the first ready retry, else the head, else empty |
| QoSQueue.QoSClassifiedQueue.RetryTick | pwnproxy/shared/bus/qos.py:213-233 | One tick of the state machine: exhausted retries are dropped, the others postponed |
| HookBus.StreamsAreExact | pwnproxy/shared/hooks.py:97-149 | After any publishes and registrations each subscriber has been offered exactly the capped backlog, if first, and all later events |
| HookBus.StreamsAreEnds | pwnproxy/shared/hooks.py:97-149 | Each stream is the end of what was published: from its registration on, for the first subscriber from 200 events earlier |
| HookBus.PendingIsNewest | pwnproxy/shared/hooks.py:127-133 | What waits for a first subscriber are the newest 200 events, and nothing waits once there is one |
| HookBus.RegistrationsAreAll | pwnproxy/shared/hooks.py:97-119 | The subscribers counted are those that registered, each once, in order |
| HookBus.ReplayFits | pwnproxy/shared/hooks.py:113-124 | A CRITICAL queue keeps the whole replay in order and loses nothing |
| HookBus.ReplayKeepsOldest | pwnproxy/shared/hooks.py:113-124 | A BEST_EFFORT queue, or an IMPORTANT one whose events have no key, keeps the oldest events of the replay that fit and drops the rest |
| HookBus.ReplayConflates | pwnproxy/shared/hooks.py:113-124 | An IMPORTANT queue whose events have keys keeps, of a replay, the newest payload of each of the first keys that fit; events under a kept key are coalesced, exactly the others are dropped |
| HookBus.ShippedReplays | pwnproxy/shared/bus/qos.py:20-59 | With the shipped sizes a backlog of at most 200 is replayed whole on CRITICAL channels, down to its oldest 128 on IMPORTANT ones without keys and 64 on BEST_EFFORT ones |
| HookBus.StoredFlowsHaveNoKey | pwnproxy/shared/bus/qos.py:33-39 | The channel of stored flows is one without keys |
| HookBus.SubscriberStreamIsExact | pwnproxy/shared/hooks.py:97-149 | In every state of the bus itself the queues have been offered those streams, and nothing is pending once somebody listens |
| HookBus.HookBus.Publish | pwnproxy/shared/hooks.py:127-149 | Buffered while nobody listens, the oldest of more than 200 falling out; else offered to every subscriber |
| HookBus.HookBus.Register | pwnproxy/shared/hooks.py:97-125 | A private queue that starts with what was pending, all of it if CRITICAL |
| HookBus.HookBus.Consume | pwnproxy/shared/hooks.py:33-36 | One dequeue from the chosen queue, noticed by no other subscriber |
| Crawl.DiscoverFacts | pwnproxy/services/crawler/engine.py:176-198 | A page adds, for each new path, a link in scope that robots.txt does not disallow, none twice, and leaves no such path out |
| Crawl.DiscoverIsFirst | pwnproxy/services/crawler/engine.py:176-198 | The added links keep the order of the page, and each is the first one in scope and not disallowed on its path |
| Crawl.FrontierIsSound | pwnproxy/services/crawler/engine.py:121-205 | For every completion order each entry is a seed or linked from an earlier, less deep one, within the depth, and no path repeats beyond the seeds |
| Crawl.OnlyInScopeIsEnqueued | pwnproxy/services/crawler/engine.py:181-191 | In every completion order all that is enqueued beyond the seeds is in scope and not disallowed |
| Crawl.PagesAreSound | pwnproxy/services/crawler/engine.py:144-198 | Every fetched page is reachable from a seed by as many admissible links as its depth says |
| Crawl.FetchedPagesAreExpanded | pwnproxy/services/crawler/engine.py:166-198 | Every link of a fetched page above the depth bound that is in scope and not disallowed leads to an enqueued path |
| Crawl.BallIsEnqueued | pwnproxy/services/crawler/engine.py:121-205 | Once the breadth-first queue is served to the end every path within the depth has been enqueued |
| Crawl.SequentialCrawlIsExact | pwnproxy/services/crawler/engine.py:144-198 | At concurrency 1 with all fetches succeeding and no cap hit, enqueued are exactly the paths within depth, each at its shortest distance |
| Crawl.SequentialPagesAreExact | pwnproxy/services/crawler/engine.py:144-198 | The pages fetched by that crawl are exactly those paths |
| Crawl.UncutCrawlIsComplete | pwnproxy/services/crawler/engine.py:144-198 | At any concurrency and in any order, a crawl that fetched all it enqueued and never touched the depth bound found every reachable path |
| CrawlBatches.ServedIsLegal | pwnproxy/services/crawler/engine.py:144-161 | Batches of at most `concurrency` consecutive positions, taken from what is enqueued then and served in any order, process each position at most once, and only positions enqueued and taken |
| CrawlBatches.TakenIsFetched | pwnproxy/services/crawler/engine.py:144-161 | Where every fetch brings its page, nothing taken off the queue is left out |
| CrawlBatches.ExactIsShortest | pwnproxy/services/crawler/engine.py:144-198 | A configuration that meets the condition records shortest distances on every site and in every order |
| CrawlBatches.ShortestIsComplete | pwnproxy/services/crawler/engine.py:166-198 | Shortest depths everywhere imply that a finished crawl has found every path within the bound |
| CrawlDepths.DiamondMisses | pwnproxy/services/crawler/engine.py:158-196 | With a seed, concurrency 2 or more and depth 3 or more some site and order miss a path within the bound |
| CrawlDepths.MixedMisses | pwnproxy/services/crawler/engine.py:158-196 | So they do at depth 2 when a new seed shares a batch with pages one link away |
| CrawlDepths.DepthsAreExactExactly | pwnproxy/services/crawler/engine.py:121-198 | For every configuration, depths are shortest on all sites and in all orders if and only if the condition holds |
| CrawlDepths.OneSeedExactly | pwnproxy/services/crawler/engine.py:121-198 | With one seed the condition is concurrency at most 1 or depth at most 2 |
| CrawlDepths.CrawlIsCompleteExactly | pwnproxy/services/crawler/engine.py:121-198 | Finished crawls find every path within the bound, on all sites and in all orders, if and only if the same condition holds |
| CrawlEngine.CrawlEngine.constructor | pwnproxy/services/crawler/engine.py:83-87 | The seeds are queued at depth 0 and marked visited |
| CrawlEngine.CrawlEngine.QueueCandidate | pwnproxy/services/crawler/engine.py:101-119 | Accepts a URL exactly when it is in scope, not disallowed, on a new path and within the depth, and then changes just those fields |
| CrawlEngine.CrawlEngine.AddCandidates | pwnproxy/services/crawler/engine.py:176-198 | The candidate loop adds exactly the discovered links; skipping repeats makes no difference |
| CrawlEngine.CrawlEngine.ProcessPage | pwnproxy/services/crawler/engine.py:161-198 | A processed page extends the frontier by one fetch |
| CrawlEngine.CrawlEngine.RunFetches | pwnproxy/services/crawler/engine.py:131-198 | Whatever the order in which the fetches of a batch start, answer, fail or are cut, the frontier stays exact and the new pages come from this batch, no more than its entries |
| CrawlEngine.CrawlEngine.RunBatch | pwnproxy/services/crawler/engine.py:144-198 | The pages of all batches so far are an order of CrawlBatches, a full one unless a fetch failed or was cut |
| CrawlEngine.CrawlEngine.TakeBatch | pwnproxy/services/crawler/engine.py:144-156 | A batch is the front of the queue, up to the concurrency |
| CrawlEngine.CrawlEngine.NextBatch | pwnproxy/services/crawler/engine.py:144-161 | A round fetches a page or shortens the queue, and is empty exactly when there is nothing to take |
| CrawlEngine.CrawlEngine.Run | pwnproxy/services/crawler/engine.py:121-205 | The crawl ends; fetched stays below the cap plus the concurrency; an uncut crawl has served its whole queue |
| CrawlEngine.EveryPageIsSound | pwnproxy/services/crawler/engine.py:121-205 | In every state of an engine each processed page is reachable as its depth says |
| CrawlEngine.StaysInScope | pwnproxy/services/crawler/engine.py:181-191 | In every state of an engine whatever is queued or was fetched is a seed or in scope and not disallowed |
| CrawlEngine.LinksAreFollowed | pwnproxy/services/crawler/engine.py:176-198 | In every state each link of a processed page above the bound that is in scope and not disallowed has been noted by path |
| CrawlEngine.CrawlIsBreadthFirst | pwnproxy/services/crawler/engine.py:144-198 | A finished, uncut engine at concurrency 1 has fetched exactly the paths within depth, at their shortest distances |
| CrawlEngine.CrawlIsExactWhen | pwnproxy/services/crawler/engine.py:144-198 | In every state of an engine whose configuration meets the condition, with no failure, all depths are shortest; at the end exactly the paths within depth are fetched |
| Bruteforce.BuildPlan | pwnproxy/services/crawler/strategies/directory.py:53-66 | The plan holds the smaller of the cap and the estimate, and is marked as cut exactly when the estimate exceeds the cap |
| Bruteforce.PlanAt | pwnproxy/services/crawler/strategies/directory.py:54-60 | Each base, word and extension has its own place in the uncut plan, extensions fastest |
| Bruteforce.PlanSize | pwnproxy/services/crawler/wordlist.py:47-52 | The uncut plan is as long as the estimate |
| Bruteforce.TrimExactly | pwnproxy/services/crawler/strategies/directory.py:54-56 | A base loses its trailing slashes, all of them and nothing else |
| Bruteforce.RunBruteforce | pwnproxy/services/crawler/strategies/directory.py:95-168 | Final counters come exactly when no stop was seen; saved are, in plan order, exactly the reached targets that were in scope and brought a listed status that no baseline of their base explains |
| Bruteforce.HitsAreExact | pwnproxy/services/crawler/strategies/directory.py:105-134 | The same of the saved targets of any number of probes, in terms of scope, reply, status filter and baselines alone |
| Bruteforce.TotalsAreExact | pwnproxy/services/crawler/strategies/directory.py:105-131 | Each counter is the number of targets of its kind: skipped, failed, probed, explained by a baseline, saved |
| Bruteforce.StopSeenExactly | pwnproxy/services/crawler/strategies/directory.py:95-109 | A stop is seen exactly before some fiftieth target or by the probe of some target |
| Bruteforce.RunConserves | pwnproxy/services/crawler/strategies/directory.py:105-162 | On completion probed, errors and skipped add up to the plan, hits and soft 404s are among the probed, and each hit counted was saved and is in scope |
| Bruteforce.TotalsCountFates | pwnproxy/services/crawler/strategies/directory.py:105-130 | The running counters count what became of each target |
| Chain.DetectionChainRun | pwnproxy/plugins/core/chain.py:114-174 | The loop over the stages computes the recursive chain |
| Chain.BudgetChainRun | pwnproxy/plugins/core/chain.py:223-278 | The loop over the waves, with its clock readings, computes the recursive waves |
| Chain.DetectNeverRetests | pwnproxy/plugins/core/chain.py:114-174 | No point confirmed by an earlier stage is given to a later one |
| Chain.DetectIsItsLog | pwnproxy/plugins/core/chain.py:114-174 | Findings and confirmations are the reports of the executed stages in order; each was given exactly the points the earlier ones left, never none |
| Chain.DetectTakesAll | pwnproxy/plugins/core/chain.py:134-155 | While a point is left every stage within the depth is executed, in order |
| Chain.WavesNeverRetest | pwnproxy/plugins/core/chain.py:240-262 | For every clock and budget no point confirmed in an earlier wave is given to a later one |
| Chain.WavesAreTheirLog | pwnproxy/plugins/core/chain.py:223-278 | For every clock and budget findings and confirmations are the reports of the executed stages in order; each belongs to a wave within the limits and was given exactly what lower waves left |
| Chain.WavesTakeAll | pwnproxy/plugins/core/chain.py:236-262 | While a point is left and the budget lasts every stage within the limits is executed, wave by wave |
| Chain.BudgetKeepsFindings | pwnproxy/plugins/core/chain.py:241-264 | For every clock and budget what was found, confirmed and executed by any wave stays at the front of the result |
| Chain.BudgetCutsTheEnd | pwnproxy/plugins/core/chain.py:236-264 | With a clock that never goes back the executions within a budget are the first ones of the run without one, on the same points and with the same reports |
| Chain.UntimedWaves | pwnproxy/plugins/core/chain.py:223-278 | With a clock that never reaches the budget the budgeted run is the plain run of the waves |
| Chain.WavesAgreeExactly | pwnproxy/plugins/core/chain.py:223-278 | The plain waves give what DetectionChain gives for all stage behaviours, failures included, exactly when the stages run come in strictly increasing depth |
| Chain.ChainsAgreeExactly | pwnproxy/plugins/core/chain.py:281-292 | The same for chain_from_depth itself, under any clock that stays below its budget |
| Chain.ChainFromDepthAgrees | pwnproxy/plugins/core/chain.py:281-292 | Such a ladder of stages makes chain_from_depth within its budget agree with DetectionChain at that depth |
| Chain.NoStageAfterTheBudget | pwnproxy/plugins/core/chain.py:236-256 | No stage starts at or after the budget |
| Intruder.ParseIsFaithful | pwnproxy/services/intruder/parser.py:14-28 | Putting the marks back around the base values gives the raw request |
| Intruder.BasesAreUnmarked | pwnproxy/services/intruder/parser.py:14-20 | No base value holds a mark or a line end |
| Intruder.EveryPairIsFound | pwnproxy/services/intruder/parser.py:14-26 | No piece of text outside the markers holds two marks on one line, nor a mark on the line of the marker behind it |
| Intruder.ParseMarkers | pwnproxy/services/intruder/parser.py:6-28 | The loop yields the template with fields numbered in order and the markers with their base values |
| Intruder.RoundTripExactly | pwnproxy/services/intruder/generator.py:29-35 | Formatting the template fills in any values exactly when the text outside the markers has no brace |
| Intruder.Sniper | pwnproxy/services/intruder/generator.py:29-39 | One request per marker and word, in that order; where formatting raises, exactly the requests before that one were yielded |
| Intruder.SniperDiffersAtOneMarker | pwnproxy/services/intruder/generator.py:29-35 | A Sniper request and the baseline differ at one marker only |
| ClusterBomb.EveryChoiceOnce | pwnproxy/services/intruder/generator.py:57-61 | Each choice of one word per list stands at exactly one place of the product |
| ClusterBomb.ProductAtRank | pwnproxy/services/intruder/generator.py:57-61 | The place of a choice is its rank |
| ClusterBomb.RankFollowsOrder | pwnproxy/services/intruder/generator.py:57-61 | Ranks follow the lexicographic order |
| ClusterBomb.Generate | pwnproxy/services/intruder/generator.py:53-66 | A wrong number of lists raises; else one request per combination in product order; where formatting raises, those before that combination |
| ClusterBomb.TotalIsExact | pwnproxy/services/intruder/generator.py:68-74 | The announced total is the number of combinations exactly when there is a list |
| ClusterBomb.ClusterFillsEveryMarker | pwnproxy/services/intruder/generator.py:63-66 | The request of a combination is the raw text with each marker replaced by its word |
| JsonInjection.ExtractJsonKeys | pwnproxy/shared/scan/params.py:146-166 | The recursive walk lists the points of the document in order |
| JsonInjection.PointsAreNamedLeaves | pwnproxy/shared/scan/params.py:146-166 | In document order the points are exactly the scalars under a key, below arrays too; each is named by its path, keys after dots and array places in brackets |
| JsonInjection.ScalarsPrint | pwnproxy/shared/scan/params.py:155-158 | The value of a point is the scalar as Python prints it |
| JsonInjection.InjectJsonBody | pwnproxy/shared/scan/replayer.py:153-164 | The walk replaces the value the keys lead to, adds a missing last key, and otherwise leaves the document alone |
| JsonInjection.PutChangesOnePoint | pwnproxy/shared/scan/replayer.py:153-164 | Replacing a reachable leaf changes the value of one extracted point and nothing else, arrays elsewhere included |
| JsonInjection.InjectThenExtract | pwnproxy/shared/scan/params.py:146-166 | Injecting at any extracted name of a clean document and extracting again changes only that value, to the coerced payload |
| JsonInjection.NamesAreUnique | pwnproxy/shared/scan/params.py:146-166 | No two points of a clean document share a name |
| JsonInjection.InjectingTheOriginalExactly | pwnproxy/shared/scan/replayer.py:167-180 | Injecting the shown value is the identity exactly when the leaf is neither false nor null |
| JsonInjection.LastInjectionWinsExactly | pwnproxy/shared/scan/replayer.py:153-180 | The last of two injections wins exactly unless a number became text and the second payload is a number |
| JsonInjection.LostNamesInjectNothing | pwnproxy/shared/scan/replayer.py:157-164 | A name through a missing key, as below an array, or through a value that is no object changes nothing |
| Cookies.ExtractCookies | pwnproxy/shared/scan/params.py:169-187 | The loop lists the name and value of every pair, in order |
| Cookies.InjectCookie | pwnproxy/shared/scan/replayer.py:183-195 | The loop rewrites each pair of that name and strips all others |
| Cookies.InjectThenExtractExactly | pwnproxy/shared/scan/replayer.py:183-195 | Extraction after injection gives the original cookies with every value of the name replaced, exactly when the payload has no semicolon or no cookie has the name |
| Cookies.LastInjectionWinsExactly | pwnproxy/shared/scan/replayer.py:183-195 | The second of two injections wins to the character under exactly the same condition on the first payload |
| Dns.ParseDnsQuery | pwnproxy/shared/dns_server.py:131-164 | On any bytes the parser ends, stays in range and computes the specified query |
| Dns.ParseExactly | pwnproxy/shared/dns_server.py:131-164 | Exactly the packets with a header, a name that ends and four bytes behind it are read, as their labels joined by dots, the type and the identifier |
| Dns.DecodeKeepsAscii | pwnproxy/shared/dns_server.py:155 | A label is read as its ASCII bytes in order, the others left out |
| Dns.BuildDnsResponse | pwnproxy/shared/dns_server.py:179-205 | The response is built exactly for 16-bit identifiers and ASCII labels of at most 255 bytes, else it raises |
| Dns.ParseWellFormed | pwnproxy/shared/dns_server.py:146-164 | A well-formed query reads as its labels, type and identifier, whatever its flags, counts and tail |
| Dns.ResponseLayout | pwnproxy/shared/dns_server.py:179-205 | The packet byte by byte: name plus 34 bytes, and an answer pointer to offset 12, where the name stands |
| Dns.ParseBuildExactly | pwnproxy/shared/dns_server.py:131-205 | The response parses back to its query exactly when no label is empty |
| Dns.TokenIsFirstLabel | pwnproxy/shared/dns_server.py:166-177 | The token is the first label of the name under any domain |
| Dns.TokenRoundTripExactly | pwnproxy/shared/dns_server.py:166-177 | The token in front of the domain comes back exactly when it has no dot |
| Dns.QueryYieldsToken | pwnproxy/shared/dns_server.py:90-113 | A well-formed query for a token under any domain yields that token |
| Dns.EveryParsedQueryIsAnswered | pwnproxy/shared/dns_server.py:116-126 | Whatever parses can be answered: building the response never raises on a parsed name |
| CircuitBreaker.CircuitBreaker.RecordFailure | pwnproxy/ai/llm/client.py:179-182 | The counters keep standing for the history, one failure longer |
| CircuitBreaker.CircuitBreaker.RecordSuccess | pwnproxy/ai/llm/client.py:175-177 | The counters keep standing for the history, one success longer |
| CircuitBreaker.CircuitBreaker.IsOpen | pwnproxy/ai/llm/client.py:169-173 | Open exactly when the run of failures has reached the threshold, at least one, and the last is younger than the cooldown |
| CircuitBreaker.CircuitBreaker.GetCircuitState | pwnproxy/ai/llm/client.py:184-196 | Half-open exactly when the run is long enough and the cooldown over |
| CircuitBreaker.RunIsTrailing | pwnproxy/ai/llm/client.py:175-182 | The run counts the failures since the last success |
| CircuitBreaker.OpenExactly | pwnproxy/ai/llm/client.py:169-196 | In terms of the outcomes: tripped exactly when the last ones, as many as the threshold and at least one, are failures; open for the cooldown after the last of them, then half-open |
| CircuitBreaker.BreakerCycle | pwnproxy/ai/llm/client.py:175-196 | A success closes; then failures in a row trip at the threshold and not before; a tripped breaker stays tripped on failure |
| LlmClient.Client.TryProvider | pwnproxy/ai/llm/client.py:299-322 | One provider is asked until its first reply that is no rate limit, at most once more than the retries |
| LlmClient.Client.GenerateReply | pwnproxy/ai/llm/client.py:254-297 | The loop over the chain computes the specified round, with its requests and records |
| LlmClient.Client.GenerateStructuredReply | pwnproxy/ai/llm/client.py:346-380 | Two rounds at most, as specified |
| LlmClient.GenerateRespectsBreakers | pwnproxy/ai/llm/client.py:264-267 | With a clock that never goes back every request goes to a configured provider whose breaker is not open then, at most one and its retries per chain entry |
| LlmClient.EndingIsTheLastReply | pwnproxy/ai/llm/client.py:269-297 | The call ends with its first answer or foreign error, else with the last failure, a last rate limit as unavailable, and reports no provider exactly when nobody was asked |
| LlmClient.RecordsAfterACall | pwnproxy/ai/llm/client.py:270-281 | The provider that answered is closed, others only gained failures, and one never asked keeps its record |
| LlmClient.FailureMeansAllWereAsked | pwnproxy/ai/llm/client.py:264-297 | A failed call asked every configured provider whose breaker lets calls through, tripped ones past their cooldown included |
| LlmClient.FallsBackInOrder | pwnproxy/ai/llm/client.py:264-297 | The providers are asked in the order of the chain, and none whose breaker lets calls through is passed over before the call ends |
| LlmClient.UsableAgain | pwnproxy/ai/llm/client.py:169-173 | A tripped provider is let through again exactly once the cooldown after its last failure is over |
| LlmClient.RetriesExactly | pwnproxy/ai/llm/client.py:299-322 | One request and at most the configured retries, a further one exactly after each rate limit while retries are left |
| LlmClient.OpenProviderIsSkipped | pwnproxy/ai/llm/client.py:266-267 | A provider open throughout is not asked and its record stays |
| LlmClient.StructuredRespectsBreakers | pwnproxy/ai/llm/client.py:324-380 | A structured call sends at most twice as many requests, all let through |
| LlmClient.StructuredAnswersFit | pwnproxy/ai/llm/client.py:346-380 | It answers only with a text that fits the schema and gives up exactly when two answers do not |
| Heuristic.ScoreFinding | pwnproxy/ai/triage/heuristic.py:20-72 | The accumulated score and the deduplicated reasons are the specified ones |
| Heuristic.ShippedScoreExactly | pwnproxy/ai/triage/heuristic.py:31-68 | The shipped score in numbers, for every finding |
| Heuristic.ReasonsExactly | pwnproxy/ai/triage/heuristic.py:34-69 | Which reasons a score carries, each with its condition |
| Heuristic.AbsentWeightIsZero | pwnproxy/ai/triage/heuristic.py:36-63 | A weight that is not configured counts as zero |
| Heuristic.RoundsToNearest | pwnproxy/ai/triage/heuristic.py:65 | Rounding is to the nearest thousandth, to the even one between two |
| Heuristic.ScoreRange | pwnproxy/ai/triage/heuristic.py:65-68 | Under any weights a confirmed finding scores at least auto_true and every other score lies in [0, 1] |
| Heuristic.ShippedVerdicts | pwnproxy/ai/triage/config.py:9-18 | What the shipped weights and thresholds decide for findings without evidence, tentative and inferred ones |
| Triage.TriagePipeline.Handle | pwnproxy/ai/triage/pipeline.py:54-79 | One finding handled as the state machine does, verdict, reservation and queue |
| Triage.TriagePipeline.Enqueue | pwnproxy/ai/triage/pipeline.py:110-128 | Reserving first and giving back on a full queue keeps the count exact; the clamp at 0 never decides |
| Triage.TriagePipeline.Work | pwnproxy/ai/triage/pipeline.py:130-151 | One item taken, judged and written as the state machine does |
| Triage.BudgetHolds | pwnproxy/ai/triage/pipeline.py:103-128 | After any run the counter of a scan is its findings queued plus taken, within the budget, and only fit findings were queued |
| Triage.VerdictFollowsScore | pwnproxy/ai/triage/pipeline.py:69-79 | The verdict written at once: accepted from auto_true on, rejected up to auto_false, uncertain between, and no other row changes |
| Triage.QueuedExactly | pwnproxy/ai/triage/pipeline.py:60-128 | A finding is queued exactly when judge, confidence, mode, score, store, budget and queue all allow it |
| Triage.JudgeDecides | pwnproxy/ai/triage/pipeline.py:130-160 | In every run a judged item gets the word of the judge, but in enrich mode a false positive below the threshold becomes uncertain; when judge or store fail nothing changes |
| Triage.JudgeCallsAreBounded | pwnproxy/ai/triage/config.py:39-41 | The judge is asked about one scan at most max_llm_per_scan times, queued ones included |
| Triage.NobodyToAsk | pwnproxy/ai/triage/pipeline.py:85-106 | Without a judge, a judging mode or a budget nothing is ever queued |
| Triage.ConfirmedIsTrue | pwnproxy/ai/triage/pipeline.py:69-77 | A confirmed finding becomes a true positive at once in every mode and is never queued |
| Triage.EnrichNeedsCertainty | pwnproxy/ai/triage/pipeline.py:134-160 | In enrich mode the judge makes a finding a false positive only at or above the threshold |
| Text.SplitJoin | pwnproxy/shared/scan/replayer.py:155 | Parts without the separator come back from the joined string |
| Text.DecimalRoundTrip | pwnproxy/services/intruder/parser.py:22 | A printed number is read back |
| Text.ContainsExactly | pwnproxy/ai/triage/heuristic.py:38 | A text contains another exactly if it stands somewhere in it |

## Left out

- Direct status writes of the REST layer (pwnproxy/transport/rest/crawler.py): they bypass the transition table, so the history theorems are about `transition_status` and the lifecycle commands only.
- SQLAlchemy, SQLite and sessions: the jobs table is a map with an atomic read and an atomic compare-and-set; a process that dies inside a call is not modelled.
- `TaskStore`: a finite projection of the same job table.
- The 0.5 s wait inside `get` and the queue object it replaces: a dequeue is `get_nowait`.
- HookBus.HookBus.Publish: payloads are maps of printed fields; payloads that are no dictionaries and the scope filter are not modelled.
- CrawlEngine.CrawlEngine.Run: URL parsing, scope, robots and link extraction are uninterpreted functions of the URL, so pages whose links change between fetches are not covered.
- Crawl.SequentialCrawlIsExact: stated for concurrency 1; CrawlDepths.DepthsAreExactExactly says where more is as good.
- CrawlDepths.DepthsAreExactExactly: the orders are those of crawls that neither `max_urls`, a cancellation nor a failed fetch cuts short; a cap small enough to end a crawl before its second level is not part of the condition.
- JobStorage.JobStorage.MarkStaleRunningFailed: stated for a recovery that no other writer interrupts; the exception it logs and skips for one row needs such a writer or a failing database, and its calls in a race are covered by JobProtocol.
- Chain.BudgetChainRun: stages are arbitrary functions of the points they get; what a stage does with its deadline is not modelled.
- Intruder.RoundTripExactly: format fields other than plain numbers (attributes, conversions, specifications) count as formatting errors.
- JsonInjection.InjectJsonBody: floats, the text form of JSON and the update in place of the decoded dictionary are not modelled; a value is replaced in a new document, so aliasing is not captured.
- JsonInjection.InjectThenExtract: stated for array-free documents with unique, non-empty, dot-free keys; names below arrays are covered by PointsAreNamedLeaves and LostNamesInjectNothing.
- Query and form injection: `urllib` parsing and percent-encoding are library semantics.
- Dns.ParseDnsQuery: sockets, the canary registry and compression pointers in queries, which the source does not follow.
- LlmClient.Client.GenerateReply: calls of one client that overlap in time; the usage ledger, prompts, schema rendering and back-off waits.
- Heuristic.ScoreFinding: scores are exact reals, so binary rounding of the weights is not captured; evidence and payload come trimmed and the confidence lower-cased.
- Triage.TriagePipeline.Handle: human feedback, publication of verdicts and the text of reasons stored with them.
- Bruteforce.RunBruteforce: learning of soft-404 baselines, progress events once a second and duplicate rows on saving; `max_requests` is not negative, as the REST schema demands.
- HTTP fetching, proxy addons, subprocess bridges, routers, CLI and web UI, report rendering, regular-expression scanners and configuration loading: input and output, or only easy members.
