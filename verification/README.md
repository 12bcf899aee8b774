# Verified models of the hosted API's protocols

These Dafny files model the parts of the system where correctness depends on order,
interleaving or failure, and prove what those parts are meant to guarantee.

| file | what it models |
|---|---|
| `usage_ledger.dfy` | the allowance ledger: idempotency keys and four meters, claimed and released atomically |
| `quota_boundary.dfy`, `quota_meters.dfy`, `quota_store.dfy`, `quota_counts.dfy` | ingestion at the allowance boundary, what it does to the meters, compensation after a failed persist, many requests at once |
| `admission_gate.dfy` | the in-process admission gate with its bounded queue |
| `mcp_admission.dfy`, `mcp_leases.dfy` | MCP requests from the gate through two leases and the transport to the last release, and what becomes of them and their leases |
| `mcp_processes.dfy`, `mcp_slots.dfy`, `mcp_overlap.dfy` | the same handler in several processes, each with its own gate, and exactly when both limits hold |
| `rate_claims.dfy` | the sliding-window limiter and the loop that claims several limits |
| `oauth_relay.dfy` | the capacity counter of the OAuth relay |
| `regeneration.dfy`, `regeneration_requests.dfy` | the lease that guards regeneration jobs, over runs and for one whole request |
| `offset_walk.dfy`, `keyset_walk.dfy` | whole walks over offset and keyset listings |
| `guidance_sync.dfy` | the routing-guidance rewriter |
| `billing_mock.dfy`, `status_pages.dfy` | the simulated billing and status-page state machines |
| `override_ledger.dfy` | administrative billing overrides and their metric ledger |
| `consent.dfy` | completing a consent interaction with compensation |
| `percentile.dfy`, `worker_pool.dfy` | load-check statistics and the worker pool that feeds them |

`prelude.dfy` holds small shared vocabulary. `dafny verify dfyconfig.toml` checks everything.

Code that changes shared state in place is a class whose methods are proved against functions
on the state; what is promised about whole runs is proved about those functions. A protocol that
waits is a machine with one step for each stretch of code between two waits, and a run is any
sequence of enabled steps. An outside call succeeds or fails arbitrarily, and where it matters a
failed call may still have taken effect. Times are parameters.

## What does not hold

The proofs found inputs on which a plausible guarantee fails. Each has a lemma with such an input
or run, and beside it the condition under which the guarantee holds; where the condition is exact,
the lemma says "exactly when" and is proved both ways.

- Several processes share the leases, and each has its own gate. From a timeout of thirty seconds on,
  the lease is exactly two timeouts long and ends inclusively, so requests that use their timeout to
  the last instant can overlap one that another process lets in (`McpOverlap.LastInstantOverlap`). One
  process never exceeds a limit; `McpOverlap.LimitsHoldIff` says exactly when several do not. A
  timeout above five minutes makes every request fail (`McpOverlap.ServesIff`).
- A regeneration attempt that releases after its lease has expired deletes the lease of the next one,
  and one whose enqueue reported failure although the job was queued gives up the lease that guards
  the job; either way two jobs are queued at once (`Regeneration.LateReleaseDoublesJobs`,
  `Regeneration.LandedEnqueueDoublesJobs`). An enqueue after the lease has expired can overtake (`Regeneration.LateEnqueueBreaksOrder`). A source
  lookup that throws keeps the lease until it expires (`Regeneration.ThrownLookUpRun`).
- A project listing filters after a fetch limited by the offset, so a dropped project can hide
  later ones (`OffsetWalk.DroppedRowHidesLater`); a services listing can refuse a cursor it issued
  (`OffsetWalk.ServiceWalkRefusesOwnCursor`).
- The guidance rewriter searches for the next section after the heading's line end, so a section
  with an empty body loses its successor (`GuidanceSync.EmptyBodySwallowsNext`).
- A release after a failed request also uncounts an event that a second request sent with the same
  identifier (`QuotaStore.SharedKeyIsLostOnRelease`); only the request whose claim reported the key is
  safe (`QuotaStore.ClaimedKeyIsSafeIff`). The counts a release carries are wrong by the surplus of
  repeated keys, and miss a key that normalisation changes (`QuotaCounts.RespelledKeyIsMissed`).
- A pending move from team to solo can stand on a solo plan, and a checkout session can be confirmed
  again and again (`BillingMock.PendingOnSoloPlan`, `BillingMock.SessionWorksForever`).
- Two overrides of one organization in the same millisecond record only the first
  (`OverrideLedger.SameInstantIsLost`).
- A consent call that fails after it revoked the prior grant leaves the user with neither grant
  (`Consent.PriorIsLostOnFailure`, and exactly when in `Consent.NeitherGrantIff`). The stored grant keeps
  its scopes sorted; the requested order survives in the provider grant only.
- A clock that goes back by a single millisecond lets a limiter with a limit of two or more accept one
  request too many in a window (`RateClaims.ClockGoingBackOverfills`).

## Model

| member | source | states |
|---|---|---|
| UsageLedger.NormalKeyKeepsPrefix | packages/storage/src/analytics-usage-store.ts:449-450 | A key such as `event:` plus an identifier is, once normalised, that prefix and the identifier less its trailing white space, cut to the room left |
| UsageLedger.NormalKeyTrimsAndCuts | packages/storage/src/analytics-usage-store.ts:449-450 | Normalising removes exactly the white space around a key and everything past its first 255 characters |
| UsageLedger.SpaceIsListed | packages/storage/src/analytics-usage-store.ts:449-449 | White space is what trimming a string removes: the controls from tab to carriage return, the spaces of Unicode and its line separators |
| UsageLedger.NewClaimsOnePass | packages/storage/src/analytics-usage-store.ts:313-350 | Deduplicating the claims and then dropping held keys equals one pass that skips what it has seen |
| UsageLedger.UniqueOrigin | packages/storage/src/analytics-usage-store.ts:444-455 | The normalised claims have keys that differ from each other and from those seen, and each comes from a claim of the list |
| UsageLedger.UniqueCovers | packages/storage/src/analytics-usage-store.ts:444-455 | No usable key of the list is lost by normalisation |
| UsageLedger.ClaimKeepsConsistent | packages/storage/src/analytics-usage-store.ts:309-406 | An allowed claim leaves each meter equal to the number of live keys of its metric and inside the limits |
| UsageLedger.ClaimVerdict | packages/storage/src/analytics-usage-store.ts:345-356 | A claim is allowed exactly when it names no usable key or every meter has room for its new keys; a refusal names the first meter that has not, in the store's order, and what it would have held |
| UsageLedger.ClaimedKeys | packages/storage/src/analytics-usage-store.ts:400-404 | The reported keys are exactly the keys that were not held before, and they are held afterwards |
| UsageLedger.ReleaseKeepsConsistent | packages/storage/src/analytics-usage-store.ts:408-442 | A release lowers each meter by exactly the keys it deleted; the floor at zero never acts |
| UsageLedger.ReleaseUndoesClaim | packages/storage/src/analytics-usage-store.ts:309-442 | Releasing what a claim reported as newly counted restores the ledger, keys and meters |
| UsageLedger.ClaimSplits | packages/storage/src/analytics-usage-store.ts:309-406 | One claim of two lists is the two claims in turn: allowed exactly when both are, same keys counted, same ledger |
| QuotaBoundary.BatchIffLoopAcceptsAll | apps/api/src/analytics-quota.ts:211-248 | The whole batch can be claimed exactly when the per-event loop would reject nothing, and then keys, meters and reported keys agree |
| QuotaBoundary.FastPathRefinesLoop | apps/api/src/analytics-quota.ts:211-255 | Whichever path the boundary function takes, it accepts and rejects what the loop alone would and leaves the same ledger, repeated event and session keys included |
| QuotaBoundary.LoopSplitsInOrder | apps/api/src/analytics-quota.ts:230-255 | Accepted and rejected events are an in-order split of the input |
| QuotaBoundary.EventVerdict | apps/api/src/analytics-quota.ts:311-325 | One event is accepted exactly when both meters have room for those of its identifier and started session that are not counted, and what it then adds to each meter |
| QuotaBoundary.KeyFamilies | apps/api/src/analytics-quota.ts:311-325 | The key of an event is made of its identifier alone, that of a session start of its session, and the two never meet |
| QuotaBoundary.SameKeyIff | apps/api/src/analytics-quota.ts:311-325 | For identifiers of ordinary shape two events share the event key exactly when their identifiers are equal, and the session key exactly when their sessions are |
| QuotaMeters.BatchMeters | apps/api/src/analytics-quota.ts:174-197 | A batch is claimed exactly when the events meter has room for its identifiers not yet counted and the sessions meter for the sessions it newly starts; then the meters move by just so much, repeats counted once |
| QuotaMeters.BatchKeys | apps/api/src/analytics-quota.ts:174-197 | Then exactly its identifiers and started sessions are counted beside those that were |
| QuotaMeters.FreshBatchMeters | apps/api/src/analytics-quota.ts:174-197 | New events with different identifiers move the events meter by their number and the sessions meter by the number of different sessions they newly start |
| QuotaMeters.BoundaryFillsMeter | apps/api/src/analytics-quota.ts:230-255 | No unit is left unused: of new events with different identifiers that start no session, as many are accepted as the events meter has room for, and they are the first ones |
| QuotaBoundary.RefusalIsStable | apps/api/src/analytics-quota.ts:235-248 | An event refused once stays refused after any further allowed claim, by this request or another |
| QuotaBoundary.AloneIsPerEvent | apps/api/src/analytics-quota.ts:237-248 | Without other requests the interleaved loop is the loop |
| QuotaBoundary.InterleavedLedger | apps/api/src/analytics-quota.ts:235-248 | The interleaved loop leaves the ledger of all claims in turn, those of other requests included |
| QuotaBoundary.RejectedStayUnclaimable | apps/api/src/analytics-quota.ts:235-255 | No rejected event could be claimed in the final ledger, whatever other claims came in between |
| QuotaBoundary.BoundaryIsMaximal | apps/api/src/analytics-quota.ts:199-256 | No event the boundary function rejects could be claimed in the ledger it leaves behind |
| QuotaStore.UsageStore.Claim | apps/api/src/analytics-quota.ts:134-172 | The claim in place, normalisation and insertion loops included, reaches the ledger's claim and keeps meters and keys in step |
| QuotaStore.UsageStore.Normalize | packages/storage/src/analytics-usage-store.ts:444-455 | The normalisation loop yields the first claim of every usable normalised key, in order |
| QuotaStore.UsageStore.DeleteKeys | packages/storage/src/analytics-usage-store.ts:408-442 | The deletion loop removes exactly the named keys and returns, for each metric, how many of them were there |
| QuotaStore.UsageStore.ReleaseKeys | apps/api/src/analytics-quota.ts:283-302 | Releasing in place deletes the named keys; a release without names changes nothing |
| QuotaStore.UsageStore.ClaimAtBoundary | apps/api/src/analytics-quota.ts:199-256 | The imperative boundary function computes the specified outcome, with a retry time exactly when something was rejected |
| QuotaStore.RepeatIsFree | apps/api/src/analytics-quota.ts:199-256 | Claiming an event again right after it was accepted is allowed and counts nothing |
| QuotaStore.StepKeepsGood | apps/api/src/analytics-quota.ts:134-163 | Each claim, release or settlement of any request keeps meters equal to live keys, within limits, and held key sets disjoint |
| QuotaStore.EveryInterleavingIsGood | apps/api/src/analytics-quota.ts:134-163 | In every interleaving of any number of requests those three facts hold at the end |
| QuotaStore.HeldIff | apps/api/src/analytics-quota.ts:134-163 | At any point of any interleaving a request may give back exactly the keys its own claims reported as newly counted and it has not released or settled since |
| QuotaStore.ReleaseSparesOthers | apps/api/src/analytics-quota.ts:283-302 | A release by one request leaves every key another request holds counted |
| QuotaStore.SharedKeyIsLostOnRelease | apps/api/src/analytics-quota.ts:283-302 | Exception found: when two requests carry the same new event, in any state, the second is allowed and holds nothing of it, and the release of the first uncounts the event of both |
| QuotaStore.StaysCountedIff | apps/api/src/analytics-quota.ts:283-302 | A counted key survives every legal continuation without a release by one request exactly when no other request holds it |
| QuotaStore.ClaimedKeyIsSafeIff | apps/api/src/analytics-quota.ts:134-163 | After an allowed claim a key of it survives whatever the others do exactly when the claim reported it as newly counted, or it was counted before and no other request holds it |
| QuotaCounts.SentIsFiltered | apps/api/src/analytics-quota.ts:146-159 | The counts of a release are the lengths of the claims as sent, filtered by claimed key and metric |
| QuotaCounts.SentVersusNew | apps/api/src/analytics-quota.ts:146-159 | The count taken from the claims as sent is the number of new keys plus, for each of them, how much more often it was sent than it counts |
| QuotaCounts.ReleaseCountsExact | apps/api/src/analytics-quota.ts:146-159 | For claims of any spelling, the counts of a release are what the claim added to the meter plus that surplus, so exact exactly when it is zero |
| QuotaCounts.CleanCountsExactIff | apps/api/src/analytics-quota.ts:146-159 | With keys in normal form the counts never understate what was claimed and are exact exactly when every new key of the metric was sent once |
| QuotaCounts.RespelledKeyIsMissed | apps/api/src/analytics-quota.ts:146-159 | Exception found: a key that trimming or cutting changes is counted by the store and missed by the counts of its release |
| QuotaStore.UsageStore.Compensate | apps/api/src/routes/ingestion.ts:723-731 | Releasing claim by claim, less the persisted keys, is one release of all newly counted keys less the persisted ones |
| QuotaStore.UsageStore.Ingest | apps/api/src/routes/ingestion.ts:683-733 | Claim, persist in order, compensate on failure: the ledger left behind for every point of failure |
| QuotaStore.FailureUndoesEverything | apps/api/src/routes/ingestion.ts:714-731 | A request that persisted nothing leaves the ledger as it found it |
| QuotaStore.FailureKeepsPersisted | apps/api/src/routes/ingestion.ts:714-731 | After a partial failure exactly the old keys and the request's own new keys of persisted events remain |
| QuotaStore.PersistedStaysCounted | apps/api/src/routes/ingestion.ts:714-731 | A key of a persisted event, its event key or the session key of a session start, stays counted exactly when it was counted before or some persisted event spells it in normal form |
| AdmissionGate.AcquireKeepsValid | packages/mcp-core/src/openai-admission.ts:39-64 | Acquiring keeps the counters equal to the slots handed out, both limits, the queue bounds, and strands nobody |
| AdmissionGate.AcquireVerdict | packages/mcp-core/src/openai-admission.ts:39-64 | A request gets a slot exactly when the gate is open to it and fewer than each limit's worth of slots are out; otherwise it is queued last exactly when fewer than 32 wait and fewer than 8 for its grant; a refusal changes nothing |
| AdmissionGate.ReleaseKeepsValid | packages/mcp-core/src/openai-admission.ts:18-36 | A release and the hand-over loop after it keep the same, with no waiter left that could run |
| AdmissionGate.ReleaseIsIdempotent | packages/mcp-core/src/openai-admission.ts:21-24 | Calling a release a second time changes nothing |
| AdmissionGate.ReleaseAdmitsOne | packages/mcp-core/src/openai-admission.ts:29-34 | One release admits at most one waiter: the first in order of arrival whose grant has room |
| AdmissionGate.CancelKeepsValid | packages/mcp-core/src/openai-admission.ts:47-63 | A timeout or abort of a waiter keeps the invariant |
| AdmissionGate.CancelSparesOthers | packages/mcp-core/src/openai-admission.ts:47-60 | It takes out that waiter and nothing else: every other waiter stays in its place, and a request that is not waiting is not affected |
| AdmissionGate.CloseKeepsValid | packages/mcp-core/src/openai-admission.ts:65-68 | Closing empties the queue, takes no slot back and keeps the invariant |
| AdmissionGate.EveryRunIsValid | packages/mcp-core/src/openai-admission.ts:7-70 | After every sequence of acquisitions, releases, cancellations and closing the invariant holds |
| AdmissionGate.Gate.Attempt | packages/mcp-core/src/openai-admission.ts:39-64 | The acquisition in place: a slot, a place in the queue or a refusal, as specified |
| AdmissionGate.Gate.TryAcquire | packages/mcp-core/src/openai-admission.ts:39-64 | The whole acquisition in place keeps the invariant of the gate and gives the specified answer |
| AdmissionGate.Gate.Shut | packages/mcp-core/src/openai-admission.ts:65-68 | Closing in place empties the queue and keeps the invariant |
| AdmissionGate.Gate.ReleaseSlot | packages/mcp-core/src/openai-admission.ts:22-35 | The release in place, with its loop, reaches the specified state |
| AdmissionGate.Gate.AdmitWaiters | packages/mcp-core/src/openai-admission.ts:30-34 | The hand-over loop ends and admits exactly the waiters the specification admits |
| AdmissionGate.Gate.CancelWaiter | packages/mcp-core/src/openai-admission.ts:47-60 | Cancelling in place leaves exactly the other waiters, in their order |
| McpAdmission.AcquireFacts | packages/storage/src/auth-rate-limiter.ts:87-112 | An acquisition drops only expired leases and adds only the new one |
| McpAdmission.AcquireVerdict | packages/storage/src/auth-rate-limiter.ts:87-112 | A lease is granted exactly when the limit configured for its bucket and the lease length are acceptable and fewer leases of the bucket than that limit are alive; with the limit reached the answer is full |
| McpAdmission.AcquireBounded | packages/storage/src/auth-rate-limiter.ts:87-112 | No bucket ever holds more live leases than its limit |
| McpLeases.LostLeasesExpire | packages/storage/src/auth-rate-limiter.ts:94-109 | A lease that was never released, however it got lost, is dead one lease period later |
| RateClaims.WindowIsBounded | packages/storage/src/auth-rate-limiter.ts:56-85 | With times that do not go back, no window of a minute holds more accepted requests than the configured limit, wherever it starts; a limit below one counts as one |
| RateClaims.RefusedIffFull | packages/storage/src/auth-rate-limiter.ts:65-81 | A claim is refused exactly when the minute ending with it already holds the configured limit |
| RateClaims.RetryIsExact | packages/storage/src/auth-rate-limiter.ts:69-78 | After a refusal a new attempt is accepted exactly when the advertised wait has passed |
| RateClaims.ClockGoingBackOverfills | packages/storage/src/auth-rate-limiter.ts:65-81 | Exception found: for every limit of two or more, one claim dated a millisecond back brings a window to one more than the limit |
| RateClaims.WindowsFitIff | packages/storage/src/auth-rate-limiter.ts:65-81 | All sequences of claims whose clock goes back by at most a given time keep every window within the configured limit exactly when that time is zero or the limit is one or less |
| RateClaims.Limiter.ClaimRequest | packages/storage/src/auth-rate-limiter.ts:126-149 | The claim in place gives the specified answer and log, admits exactly below the configured limit and leaves the logs of other keys alone |
| McpAdmission.StepKeepsInv | apps/api/src/openai-mcp-http.ts:535-708 | Every step of every request, failures that took effect included, keeps the lease and gate invariant |
| McpAdmission.RunKeepsInv | apps/api/src/openai-mcp-http.ts:535-708 | The invariant holds throughout every interleaving |
| McpAdmission.FirstLeaseIff | apps/api/src/openai-mcp-http.ts:571-617 | A request gets its global lease exactly when fewer than the global limit are alive, and is answered otherwise |
| McpAdmission.SecondLeaseIff | apps/api/src/openai-mcp-http.ts:580-590 | It enters the transport exactly when fewer leases of its grant than the limit per grant are alive; with that limit reached it turns to giving its global lease back |
| McpAdmission.RefusalGivesBack | apps/api/src/openai-mcp-http.ts:589-609 | A refused request returns its lease and answers, or, when the release fails, keeps it to be released once more; no other lease is touched |
| McpLeases.FailureTells | apps/api/src/openai-mcp-http.ts:571-638 | A failed acquisition ends the request at the global lease and turns it to its releases at the second; the coordinator may have recorded a lease all the same |
| McpLeases.ReleaseTells | apps/api/src/openai-mcp-http.ts:589-638 | A release takes its lease off the table unless it neither succeeded nor took effect, touches no other, and is noted as attempted |
| McpLeases.TriedWasAttempted | apps/api/src/openai-mcp-http.ts:589-638 | In every run a lease noted as released was the subject of a release attempt by that request |
| McpAdmission.TransportIsBounded | apps/api/src/openai-mcp-http.ts:226-233 | By the leases alone, whatever the gates do, requests in the transport never exceed the global limit or the limit of their grant while they are timely: second lease within a timeout, transport left in less than one (or in at most one when the lease is longer than two timeouts) |
| McpProcesses.StepKeepsInv | apps/api/src/openai-mcp-http.ts:230-708 | Every step of every process keeps the gates consistent, and every request past its gate in possession of its own slot there until the gate is released |
| McpProcesses.OneProcessIsBounded | apps/api/src/openai-mcp-http.ts:226-233 | At every instant of every run, for any timeout, the requests of one process in the transport are within the global limit and within the limit of each grant |
| McpProcesses.SingleProcessKeepsLimits | apps/api/src/openai-mcp-http.ts:226-233 | With one process both limits hold for all requests, with no hypothesis on time |
| McpProcesses.GateDecides | apps/api/src/openai-mcp-http.ts:540-575 | A request at its gate is in exactly one of three cases: handed a slot and free to go on, in the queue and neither admitted nor refused, or neither and only to be refused |
| McpProcesses.ShutTurnsAway | apps/api/src/openai-mcp-http.ts:234-237 | A process that has shut its gate turns every later request away |
| McpSlots.StepKeepsBacked | packages/mcp-core/src/openai-admission.ts:18-68 | Every step keeps every slot out and every place in a queue with a request that is at that gate or past it and not yet back |
| McpSlots.QuiescentGatesAreEmpty | apps/api/src/openai-mcp-http.ts:535-708 | No slot is ever lost: once every request has answered, in whatever way, every gate has all its slots back and an empty queue |
| McpOverlap.RunProjects | apps/api/src/openai-mcp-http.ts:535-708 | Every run of several processes with their gates is a run of the leases and requests alone, so what holds of those holds here |
| McpOverlap.LastInstantOverlap | apps/api/src/openai-mcp-http.ts:226-233 | Exception found: for all positive limits and timeouts from thirty seconds to five minutes, a run of two processes that respects the timeout has one request over the global limit in the transport |
| McpOverlap.StrictTimeoutHolds | apps/api/src/openai-mcp-http.ts:226-233 | However many processes there are, both limits hold at every instant at which the requests in the transport are timely in that sense |
| McpOverlap.LimitsHoldIff | apps/api/src/openai-mcp-http.ts:226-233 | All runs of at most n processes that respect the timeout keep both limits exactly when n is at most one, a limit is below one, or the timeout is below thirty seconds or above five minutes |
| McpOverlap.ServesIff | packages/storage/src/auth-rate-limiter.ts:87-112 | Some run brings a request into the transport exactly when both limits are positive and the coordinator accepts the length of the lease |
| McpOverlap.LimitIsReached | apps/api/src/openai-mcp-http.ts:226-233 | The limits are not only kept but reached: in some run of one process as many requests of one grant are in the transport at once as the smaller limit allows |
| McpAdmission.LongTimeoutServesNobody | apps/api/src/openai-mcp-http.ts:226-233 | A timeout above five minutes asks for a lease the coordinator refuses: in every run the lease table stays empty and no request gets past wanting its first lease |
| McpLeases.EveryPathReleases | apps/api/src/openai-mcp-http.ts:571-708 | On every path the gate is released exactly once and a release is attempted for every lease received |
| McpLeases.FaultlessLosesNothing | apps/api/src/openai-mcp-http.ts:583-638 | Without unreported acquisitions and failed final releases no lease is lost, even when a refusal's release fails first |
| McpLeases.QuiescentHoldsNothing | apps/api/src/openai-mcp-http.ts:571-708 | When all requests of such a run have answered, the coordinator holds no lease |
| McpLeases.RequestsEnd | apps/api/src/openai-mcp-http.ts:535-708 | Each own step brings a request closer to its answer and leaves the others alone |
| McpLeases.NeverStuck | apps/api/src/openai-mcp-http.ts:535-708 | A request that has not answered always has a step to take |
| RateClaims.SettleStopsAtFirst | apps/api/src/openai-rate-limits.ts:28-52 | Limits are claimed in order; the verdict, the wait and the logs left behind are those of the first refusal or failure |
| RateClaims.RefusalKeepsEarlierClaims | apps/api/src/openai-rate-limits.ts:36-50 | A refusal gives nothing back: limits claimed before it stay consumed |
| RateClaims.HeaderCoversWait | apps/api/src/openai-rate-limits.ts:43-48 | The wait in whole seconds always suffices and is less than a second too long |
| RateClaims.Limiter.ClaimAll | apps/api/src/openai-rate-limits.ts:28-52 | The loop with its early exit reaches exactly that verdict and those logs |
| OAuthRelay.StepKeepsCount | apps/api/src/openai-oauth-http.ts:382-419 | Admission, events and completion keep the counter equal to the calls in flight and within the limit |
| OAuthRelay.CounterIsExact | apps/api/src/openai-oauth-http.ts:281-419 | In every interleaving the counter is the number of calls between admission and completion, within zero and the limit, and zero exactly when none is in flight |
| OAuthRelay.RefusedOnlyWhenFull | apps/api/src/openai-oauth-http.ts:382-392 | A call is turned away exactly when the limit is in flight at that moment |
| OAuthRelay.LowersOnce | apps/api/src/openai-oauth-http.ts:417-419 | Each call lowers the counter once, and only if it raised it |
| OAuthRelay.FirstEventDecides | apps/api/src/openai-oauth-http.ts:94-109 | The first of finish, close and throw decides the outcome; later events change nothing |
| OAuthRelay.Relay.Admit | apps/api/src/openai-oauth-http.ts:382-393 | Check and increment in one step |
| OAuthRelay.Relay.OnEvent | apps/api/src/openai-oauth-http.ts:94-109 | An event settles a call and leaves the calls in flight as they are |
| OAuthRelay.Relay.Complete | apps/api/src/openai-oauth-http.ts:417-419 | Completion takes exactly that call out of flight |
| Regeneration.StepKeepsInvIff | apps/api/src/default-regeneration-dependencies.ts:24-141 | A step keeps the invariant (whoever has queued or not given back its lease owns it while in time, and such acquisitions lie a lease period apart) exactly when it is not a release that takes effect in time although the job is queued, or late while another attempt relies on the key |
| Regeneration.JobsAreSpaced | apps/api/src/default-regeneration-dependencies.ts:24-141 | In every interleaving with prompt releases, any two queued jobs are different attempts whose acquisitions lie at least thirty seconds apart, however late they were enqueued |
| Regeneration.EnqueueKeepsOrderIff | apps/api/src/default-regeneration-dependencies.ts:47-63 | An enqueue keeps the queue in order of acquisition, a lease period apart, exactly when nothing lands or its acquisition came a period after all those queued |
| Regeneration.JobsAreInOrder | apps/api/src/default-regeneration-dependencies.ts:24-141 | With prompt releases and enqueues in time the queue is in that order throughout |
| Regeneration.TakesAnothersIff | apps/api/src/default-regeneration-dependencies.ts:44-46 | A release removes a lease another attempt holds exactly when the own one has expired and the key was taken again |
| Regeneration.AnsweredOwnsIff | apps/api/src/default-regeneration-dependencies.ts:24-141 | An attempt that has answered within its lease period still owns the lease exactly when it said yes, its lookup threw, or its release did not take effect |
| Regeneration.LeaseOutlivesAnswerIff | apps/api/src/default-regeneration-dependencies.ts:24-141 | In a run with prompt releases such an attempt ended in a step that queued, a lookup that threw, or a release, and owns the lease exactly when that was not a release that took effect |
| Regeneration.ThrownLookUpKeepsLease | apps/api/src/default-regeneration-dependencies.ts:39-42 | In every run with prompt releases, an attempt whose lookup threw owns the lease for its full period, answered with an error and queued nothing |
| Regeneration.FailedLookUpBlocks | apps/api/src/default-regeneration-dependencies.ts:29-42 | During that period every other attempt that begins is turned away, with no hypothesis beyond prompt releases |
| Regeneration.ThrownLookUpRun | apps/api/src/default-regeneration-dependencies.ts:29-42 | Exception found: a run with a thrown lookup and a second attempt refused in the last instant of the lease, with nothing queued |
| Regeneration.ThrownAcquisition | apps/api/src/default-regeneration-dependencies.ts:29-37 | An acquisition that throws ends the attempt with nothing queued; if it took effect all the same, the lease stands for thirty seconds with nobody to give it back |
| Regeneration.FreeingComesFrom | apps/api/src/default-regeneration-dependencies.ts:44-63 | The release is entered only after no usable source, a failed mark or a failed enqueue, with the reply each gives |
| Regeneration.LateReleaseDoublesJobs | apps/api/src/default-regeneration-dependencies.ts:44-46 | Exception found: one release after the own lease expired deletes another attempt's lease, and two jobs of the same instant follow |
| Regeneration.LandedEnqueueDoublesJobs | apps/api/src/default-regeneration-dependencies.ts:54-63 | Exception found: every call comes in time, but an enqueue reports failure after it queued the job, the lease is given back, and two jobs of the same instant are queued |
| Regeneration.LateEnqueueBreaksOrder | apps/api/src/default-regeneration-dependencies.ts:47-63 | Exception found: without any release, an enqueue after its lease expired puts an earlier acquisition behind a later one, both queued at one instant |
| RegenerationRequests.WholeFreesIff | apps/api/src/default-regeneration-dependencies.ts:24-141 | One uninterrupted request that took the lease leaves it free exactly when no lookup it reached threw, it did not answer yes and its release worked; otherwise it owns it for the full period; one that was turned away leaves the lease as it was |
| RegenerationRequests.FreedAtOnce | apps/api/src/default-regeneration-dependencies.ts:24-141 | The next request at the same instant gets the lease exactly then |
| RegenerationRequests.WholeQueuesIffYes | apps/api/src/default-regeneration-dependencies.ts:24-141 | A bundle request answers yes exactly when it queued; an improvement request also when the lease was taken |
| RegenerationRequests.Requester.RequestBundle | apps/api/src/default-regeneration-dependencies.ts:25-67 | The bundle handler, run alone, leaves lease, queue and reply as the step machine does |
| RegenerationRequests.Requester.RequestImprovement | apps/api/src/default-regeneration-dependencies.ts:71-141 | The improvement handler likewise, with its second lookup and no mark |
| RegenerationRequests.Requester.AcquireLease | packages/storage/src/redis-queue.ts:264-267 | A free or expired lease is taken for thirty seconds, a held one is not |
| RegenerationRequests.Requester.ReleaseLease | packages/storage/src/redis-queue.ts:269-271 | The release deletes the key whoever owns it |
| OffsetWalk.PageAt | apps/api/src/openai-mcp-operations.ts:124-137 | What one page holds and when it has a next cursor, at any offset a walk can reach |
| OffsetWalk.WalkReturnsReach | apps/api/src/openai-mcp-operations.ts:691-717 | A walk never has a cursor refused, ends, and returns in order exactly the kept rows among those it reaches |
| OffsetWalk.WalkCompleteIff | apps/api/src/openai-mcp-operations.ts:317-334 | A filtered walk is complete exactly when no kept row lies beyond the fetch window of the first dropped row |
| OffsetWalk.PrefixFilterIsComplete | apps/api/src/openai-mcp-operations.ts:708-710 | A time cutoff over newest-first rows loses nothing |
| OffsetWalk.UnfilteredWalk | apps/api/src/openai-mcp-operations.ts:652-671 | Without a filter a walk returns exactly the first 1001 rows for every limit |
| OffsetWalk.WalkRefusesIff | apps/api/src/openai-mcp-operations.ts:115-122 | Whatever the rows and the filter, a walk is refused exactly when the cursor it starts from is negative or above 1000 |
| OffsetWalk.DroppedRowHidesLater | apps/api/src/openai-mcp-operations.ts:324-334 | Exception found: one dropped project early in the order hides later ones |
| OffsetWalk.ServiceWalkIff | apps/api/src/openai-mcp-operations.ts:348-373 | A services walk is complete exactly when the listing ends before the first multiple of the limit above 100000, and otherwise ends in an invalid-cursor error |
| OffsetWalk.ServicesCursorRefused | apps/api/src/openai-mcp-operations.ts:348-373 | A services cursor that is negative or above 100000 is refused, and one in range with a last page is not |
| OffsetWalk.ServiceWalkRefusesOwnCursor | apps/api/src/openai-mcp-operations.ts:352-372 | Exception found: with limit one and 100002 services the server refuses its own cursor |
| KeysetWalk.PageFacts | apps/api/src/openai-mcp-operations.ts:413-429 | What a page returns, and that its cursor separates it from the rows left, although rows are dropped after the cut |
| KeysetWalk.FixedPage | apps/api/src/openai-mcp-operations.ts:413-429 | A page is cut from at most as many rows as the limit, and has a next cursor, the key of its last row before the filter, exactly when more rows are left |
| KeysetWalk.WalkIsOrdered | apps/api/src/openai-mcp-operations.ts:376-430 | Over a store changing between pages a walk returns permitted rows in strictly decreasing order, so none twice |
| KeysetWalk.StableRowIsReturned | apps/api/src/openai-mcp-operations.ts:376-430 | A permitted row present unchanged in every store read is returned by a walk that finishes |
| KeysetWalk.StableRowReturnedOnce | apps/api/src/openai-mcp-operations.ts:521-574 | It is returned at exactly one place |
| KeysetWalk.FixedStoreWalk | apps/api/src/openai-mcp-operations.ts:376-430 | On an unchanging store a walk ends within one page per row left and returns every permitted row in order |
| KeysetWalk.AfterMembers | packages/storage/src/metadata-incident-read.ts:85-140 | The store's page starts with exactly the rows strictly after the cursor |
| OffsetWalk.MockWalkVisitsTotalPages | scripts/dev-mock/api.ts:73-93 | The mock's walk from the start visits exactly the announced number of pages and its pages make up the list |
| GuidanceSync.SyncSplices | scripts/sync-agent-interface-guidance.ts:25-37 | Every accepted document has a prefix and a remainder of its own text that are put around whatever block is given |
| GuidanceSync.SyncVerdict | scripts/sync-agent-interface-guidance.ts:25-34 | A document is refused exactly when it holds the routing heading twice, or neither that heading nor any other section, with the error of each |
| GuidanceSync.SyncIsIdempotent | scripts/sync-agent-interface-guidance.ts:25-38 | Rewriting the output changes nothing exactly when the block repeats its heading nowhere and opens no other section |
| GuidanceSync.ExactlyOneHeading | scripts/sync-agent-interface-guidance.ts:26-36 | The output holds exactly one copy of the heading |
| GuidanceSync.LastBlockWins | scripts/sync-agent-interface-guidance.ts:25-37 | Rewriting with one block and then another gives what the second alone gives |
| GuidanceSync.InsertionKeepsAll | scripts/sync-agent-interface-guidance.ts:28-31 | Inserting keeps every character of the document |
| GuidanceSync.ReplacementKeepsOutside | scripts/sync-agent-interface-guidance.ts:33-36 | Replacing keeps the text before the heading and from the first separator after the heading line |
| GuidanceSync.FollowingSectionKept | scripts/sync-agent-interface-guidance.ts:35-36 | The section that follows is kept exactly when it does not begin on the line right after the heading |
| GuidanceSync.EmptyBodySwallowsNext | scripts/sync-agent-interface-guidance.ts:35-36 | Exception found: a heading with an empty body swallows the next section |
| GuidanceSync.Collect | scripts/sync-agent-interface-guidance.ts:22-39 | The loop collects exactly the changed documents in order and stops at the first unusable one |
| GuidanceSync.CheckPassesAfterWrite | scripts/sync-agent-interface-guidance.ts:40-53 | After a successful write run a check run finds no drift, and other files are untouched |
| BillingMock.StepKeepsGood | scripts/dev-mock/billing.ts:82-240 | Every request keeps: capacity within 0 and 100, a pending plan change excludes a pending reduction and records the present capacity, the plan is never free |
| BillingMock.RunIsGood | scripts/dev-mock/billing.ts:17-240 | Those facts hold in every reachable state |
| BillingMock.TokenActsOnce | scripts/dev-mock/billing.ts:102-186 | Over a whole run each confirmation token schedules or upgrades at most once |
| BillingMock.ChangeMatchesOffer | scripts/dev-mock/billing.ts:86-186 | A change is brought about only by a token offered earlier, less than ten minutes ago, at the capacity there is now; scheduling needs the team plan without a pending reduction, upgrading the solo plan without a trial |
| BillingMock.TrialLocksSevenDaysIff | scripts/dev-mock/billing.ts:164-176 | During a trial a purchase is locked for exactly seven days from the creation of the simulation, whenever the trial began |
| BillingMock.PlanOfferIff | scripts/dev-mock/billing.ts:86-101 | A move to solo is offered exactly on a team plan without trial or pending change, at the quoted total, and refused without effect otherwise |
| BillingMock.PlanOfferHonoured | scripts/dev-mock/billing.ts:86-122 | With nothing in between, the offered token schedules the change for ten minutes and no other token does |
| BillingMock.UpgradeOfferIff | scripts/dev-mock/billing.ts:134-154 | An upgrade is offered exactly on a solo plan without trial or pending reduction, at the quoted total |
| BillingMock.UpgradeOfferHonoured | scripts/dev-mock/billing.ts:134-186 | With nothing in between, the offered token upgrades for ten minutes and no other token does |
| BillingMock.CheckoutOpensIff | scripts/dev-mock/billing.ts:155-213 | A session is opened exactly for a paid plan, past the first seven days of an active trial, and unless it is the upgrade of a paid plan; confirming it leads to that plan |
| BillingMock.TrialClosesOffers | scripts/dev-mock/billing.ts:191-203 | A trial takes effect at once, is dated from the creation of the simulation, and closes both offers |
| BillingMock.CapacityRequests | scripts/dev-mock/billing.ts:216-239 | Capacity from 0 to 100 can be set exactly without a pending plan change: an increase at once, a reduction as an announcement with its total that can be dropped again |
| BillingMock.BadPayloads | scripts/dev-mock/billing.ts:102-207 | A payload that does not parse or asks for no paid plan is refused as such and changes nothing |
| BillingMock.PendingBlocksCapacity | scripts/dev-mock/billing.ts:132-133 | While a plan change is pending every capacity request is refused without effect |
| BillingMock.ConfirmingAgainIsSafe | scripts/dev-mock/billing.ts:105-105 | While a change is pending, confirming again with any token reports it and changes nothing |
| BillingMock.CancelUndoesConfirm | scripts/dev-mock/billing.ts:115-131 | Cancelling a change just scheduled restores the state except the used quote and the counter |
| BillingMock.PendingTeamKeptIff | scripts/dev-mock/billing.ts:132-213 | A pending change keeps the team plan under exactly the requests that do not confirm a solo checkout or start a solo trial |
| BillingMock.PendingOnSoloPlan | scripts/dev-mock/billing.ts:187-212 | Exception found: a run that ends with a pending move from team to solo on the solo plan |
| BillingMock.SessionWorksForever | scripts/dev-mock/billing.ts:187-212 | Exception found: a checkout session is never used up and sets its plan at every later point |
| BillingMock.ReductionTotalFitsIff | scripts/dev-mock/billing.ts:228-235 | The announced total of a scheduled reduction stays right exactly while the plan does |
| BillingMock.Simulation.OfferPlanChange | scripts/dev-mock/billing.ts:86-101 | The preview in place issues a token never issued before |
| BillingMock.Simulation.Confirm | scripts/dev-mock/billing.ts:102-122 | Confirming in place follows the specification and never changes plan or capacity |
| BillingMock.Simulation.Cancel | scripts/dev-mock/billing.ts:123-131 | Cancelling in place drops the pending change and its quote |
| BillingMock.Simulation.OfferUpgrade | scripts/dev-mock/billing.ts:134-154 | The upgrade preview in place issues a token never issued before |
| BillingMock.Simulation.StartCheckout | scripts/dev-mock/billing.ts:155-190 | A checkout in place changes the plan only by a confirmed upgrade |
| BillingMock.Simulation.FinishCheckout | scripts/dev-mock/billing.ts:205-213 | Confirming a session in place sets its plan and ends the trial |
| BillingMock.Simulation.SetUnits | scripts/dev-mock/billing.ts:216-239 | Capacity requests in place are refused without effect while a change is pending |
| StatusPages.StepKeepsGood | scripts/dev-mock/public-status.ts:175-208 | Saves and record edits keep every page well formed, with its own project first and a link of its own |
| StatusPages.SavedIff | scripts/dev-mock/public-status.ts:175-208 | New settings are taken exactly when the page's project belongs to the session and comes first, the limits of 50 projects, 50 checks each and 500 in all are kept without repeats, a published page has a check, and every selection exists in the same scope |
| StatusPages.EditsAct | scripts/dev-mock/public-status.ts:50-57 | Every edit of a project, check or session takes effect at once on the record it names only, and only saves change pages |
| StatusPages.AnchorAlwaysPresent | scripts/dev-mock/public-status.ts:58-68 | A page's own project always comes first in its current settings, so it is never put back |
| StatusPages.OnlyPublisher | scripts/dev-mock/public-status.ts:104-106 | No two pages answer to one link, so the order of the search does not matter |
| StatusPages.PublicIsExpected | scripts/dev-mock/public-status.ts:69-107 | A public link shows the saved selection cut to live projects in scope and live checks, or nothing |
| StatusPages.PublicShowsLastSave | scripts/dev-mock/public-status.ts:58-107 | Over any run of edits a link shows exactly what the last save selected, cut that way, and nothing while disabled or out of scope |
| StatusPages.ShownWasSelectable | scripts/dev-mock/public-status.ts:184-193 | A check that came after the last save never appears, nor one that is gone or hidden; what appears was in scope when saved and is now |
| StatusPages.SaveKeepsLinkIff | scripts/dev-mock/public-status.ts:194-195 | Saving keeps the link exactly when the page still belongs to the project's owner and organization |
| StatusPages.ReplacedLinkRetires | scripts/dev-mock/public-status.ts:194-200 | A link replaced by a save belongs to no page any more |
| StatusPages.RetiredForGood | scripts/dev-mock/public-status.ts:100-107 | Such a link shows nothing for the rest of the run |
| StatusPages.SaveBackIff | scripts/dev-mock/public-status.ts:125-193 | The settings just read can be saved back exactly when the page is disabled or a check is left |
| StatusPages.SaveBackChangesNothingShown | scripts/dev-mock/public-status.ts:58-201 | Saving them back keeps the link, what it shows and what is read next |
| StatusPages.PageStore.AllSelectable | scripts/dev-mock/public-status.ts:184-193 | The lookup loop accepts exactly the selections in scope with existing checks |
| StatusPages.PageStore.SaveSettings | scripts/dev-mock/public-status.ts:175-208 | The save route in place: which requests are refused how, and the state left |
| StatusPages.PageStore.Read | scripts/dev-mock/public-status.ts:101-107 | The public route returns what the link shows |
| StatusPages.CurrentSchemaOk | packages/shared-types/src/public-status.ts:7-26 | Cutting a saved selection never breaks the limits and distinctness the schema demands |
| OverrideLedger.CapacityIsConserved | apps/api/src/billing-management.ts:346-443 | Over any run, recorded purchases less reductions, plus what repeated instants left unrecorded, is the change of extra capacity |
| OverrideLedger.DistinctInstantsConserve | apps/api/src/billing-management.ts:346-443 | With distinct instants nothing is left unrecorded |
| OverrideLedger.OverrideRecordsIff | apps/api/src/billing-management.ts:422-442 | One override is fully recorded exactly when its instant is new or the capacity stays |
| OverrideLedger.SameInstantIsLost | apps/api/src/billing-management.ts:426-426 | Exception found: the second of two overrides in one instant changes the capacity and records nothing |
| OverrideLedger.RepeatRecordsNothing | apps/api/src/billing-management.ts:422-442 | Repeating an override records nothing more |
| OverrideLedger.RankWithinMoves | apps/api/src/billing-management.ts:75-84 | With distinct instants the change of rank lies between upgrades less twice downgrades and twice upgrades less downgrades |
| OverrideLedger.BoundsAreMet | apps/api/src/billing-management.ts:427-431 | Both bounds are reached |
| OverrideLedger.OverrideCaps | apps/api/src/billing-management.ts:352-355 | After an override the free plan has no extra units and no plan more than ninety-nine |
| OverrideLedger.OverrideSets | apps/api/src/billing-management.ts:346-443 | What one override does to plan, extra units and, at a new instant, each of the four totals |
| OverrideLedger.Store.OverrideOrganization | apps/api/src/billing-management.ts:346-447 | The transaction changes one organization as specified or nothing at all |
| OverrideLedger.EmptyOverrideKeepsKey | packages/storage/src/account-analytics-store.ts:548-552 | An override that changes nothing leaves its instant free for one that does |
| Consent.ChosenIsSelection | apps/api/src/openai-consent-access.ts:66-75 | A selection is accepted exactly when it repeats nothing and asks for nothing unrequested, and the result holds exactly the selected scopes |
| Consent.ChosenKeepsOrder | apps/api/src/openai-consent-access.ts:74-74 | Accepted scopes keep the order of the request and repeat nothing if it does not |
| Consent.AllowSucceedsIff | apps/api/src/openai-consent-access.ts:130-194 | An allowing call succeeds exactly when the interaction matches, the verified session is of its account, the organization is named, the selection repeats nothing and was requested, the store takes the scopes and every call lands |
| Consent.DenySucceedsIff | apps/api/src/openai-consent-access.ts:131-147 | A denial succeeds exactly when the interaction matches and the reply is a good address |
| Consent.RefusalTells | apps/api/src/openai-consent-access.ts:51-75 | Each failed check has its own error, the first failed check is the one reported, and an invalid selection writes nothing |
| Consent.WritesTell | apps/api/src/openai-consent-access.ts:158-199 | Past the checks a call fails with the scopes exactly when the writes before reached the store and it refuses them, and otherwise as the failing call did |
| Consent.ThrowLeavesGrantIff | apps/api/src/openai-consent-access.ts:130-199 | A call that throws leaves an active grant of its own in exactly two cases: creation took effect though reported failed, or the compensating revocation did not land |
| Consent.ThrowLeavesNone | apps/api/src/openai-consent-access.ts:195-198 | With a compensating revocation that lands and all-or-nothing creation it leaves none |
| Consent.AllowLeavesExactlyOne | apps/api/src/openai-consent-access.ts:149-194 | A returned allow leaves exactly one new active grant with the chosen scopes, a provider grant with them in requested order, the prior grant inactive, all others as they were |
| Consent.DenyWritesNothing | apps/api/src/openai-consent-access.ts:132-157 | A denial, or a failed check, writes nothing |
| Consent.AnyWriteIsAuthorized | apps/api/src/openai-consent-access.ts:130-157 | A write of any kind takes the matching interaction, a verified session of its account, a named organization and requested scopes only |
| Consent.CompleteKeepsGood | apps/api/src/openai-consent-access.ts:130-199 | No two stored grants ever share a provider grant |
| Consent.PriorIsLostOnFailure | apps/api/src/openai-consent-access.ts:158-160 | Exception found: a call that revokes the user's only grant, fails to save the new one, throws and leaves the user with none |
| Consent.OldGrantLostIff | apps/api/src/openai-consent-access.ts:130-199 | A grant from before the call is inactive after it exactly when it was, or when it is the prior one, every check passed, access was allowed and its revocation took effect |
| Consent.NeitherGrantIff | apps/api/src/openai-consent-access.ts:130-199 | A throwing call takes the active prior grant and leaves no new one exactly when the revocation took effect and no grant was created that outlived the call |
| Consent.OrphanIff | apps/api/src/openai-consent-access.ts:171-182 | A saved provider grant is left without a stored grant exactly when saving took effect and creating did not |
| Consent.Authorization.Decide | apps/api/src/openai-consent-access.ts:130-199 | The ordered writes in place reach the specified state and reply |
| Consent.Authorization.CreateGrant | packages/storage/src/openai-oauth-store.ts:105-136 | Creation refuses repeated or unknown scopes before it writes |
| Consent.Authorization.RevokeByProvider | packages/storage/src/openai-oauth-store.ts:268-296 | Revoking by provider grant deactivates exactly the grants made for it |
| Consent.Authorization.RevokeGrant | packages/storage/src/openai-oauth-store.ts:244-266 | The compensating revocation deactivates exactly that grant |
| Percentile.ClampsNeverBind | scripts/ingestion-load-check.ts:42-42 | For a ratio above zero and at most one the index clamps never bind |
| Percentile.PercentileIsNearestRank | scripts/ingestion-load-check.ts:41-44 | The percentile is the least sample that at least the share of samples, rounded up, does not exceed |
| Percentile.PercentileMonotone | scripts/ingestion-load-check.ts:41-44 | A greater ratio gives no smaller sample, and none exceeds the greatest |
| Percentile.MeanIsExact | scripts/ingestion-load-check.ts:45-45 | The mean times the number of samples is the sum of the samples as measured |
| Percentile.SummaryReports | scripts/ingestion-load-check.ts:34-53 | The summary reports, rounded, the least sample that half of the samples do not exceed, the least that nineteen in twenty do not, the mean and the greatest sample |
| Percentile.EmptySummary | scripts/ingestion-load-check.ts:40-52 | Without samples everything is reported as zero |
| Percentile.RoundMonotone | scripts/ingestion-load-check.ts:30-32 | Rounding keeps order |
| Percentile.RoundIsClose | scripts/ingestion-load-check.ts:30-32 | The rounded value has two decimals and lies within half a hundredth, exact halves moving away from zero |
| Percentile.SummaryIsOrdered | scripts/ingestion-load-check.ts:34-53 | The reported p50 is at most p95, and p95 and the mean at most the maximum |
| Percentile.OrderDoesNotMatter | scripts/ingestion-load-check.ts:40-52 | The summary depends on the samples only, not on their order |
| Percentile.MaxIsGreatest | scripts/ingestion-load-check.ts:51-51 | The reported maximum is a sample, rounded, that none rounds above |
| WorkerPool.RunKeepsInv | scripts/ingestion-load-check.ts:314-335 | In every interleaving of the workers each index handed out is worked on or recorded exactly once |
| WorkerPool.EveryEntryOnce | scripts/ingestion-load-check.ts:314-335 | When all workers have stopped, each entry of the plan has exactly one result |
| WorkerPool.ScheduleDoesNotShow | scripts/ingestion-load-check.ts:34-53 | Two finished runs over one plan, with any numbers of workers and any interleavings, report the same summary |

## Left out

- HTTP, Fastify, the OIDC provider, the MCP SDK, logging and telemetry: each outside call is an arbitrary success or failure, and logging is taken not to throw.
- Postgres and Redis: a transaction or script is one atomic step; key expiry beyond the entries' own lifetime (the TTL buffers) is not modelled because it never removes a live entry.
- Hashing, base64url, JSON and URL parsing: cursors, tokens and keys are values, so their encodings are taken to be injective.
- UsageLedger.NormalKeyKeepsPrefix: strings are sequences of characters, so a cut inside a pair of UTF-16 code units is not modelled.
- Quota retry times and plan limits (`buildAnalyticsLimits`, `getQuotaRetryAfterMs`): arithmetic on an external billing summary; the retry time is a parameter and limits are any meters.
- Quota claims without a store or without reported keys: the branches for a missing dependency accept everything and hold nothing.
- AdmissionGate.CancelKeepsValid: the one-second timer and the abort signal are one cancellation that may come at any time.
- McpAdmission.TransportIsBounded: states the bound for each instant at which the requests inside are timely; that the transport honours its timeout is the hypothesis, not a result.
- McpProcesses: all processes read one clock, that of the shared store.
- Regeneration.JobsAreSpaced: needs releases within the own lease period and none after an enqueue that landed; both are shown to be needed. One lease key is modelled, as keys of different incidents never meet.
- Regeneration: a queue that offers only one of acquiring and releasing leases is not modelled.
- OffsetWalk.WalkReturnsReach: rows, filter and cutoff are fixed during a walk.
- KeysetWalk: the two listings differ only in field names, so one model serves both.
- BillingMock: dates of the billing window, trial end dates, allowances and Stripe links are left out; identifiers are a prefix and a number rather than text.
- StatusPages: what a member who is not the owner sees of the settings, titles, check names, statuses, rollups and the sorted order of checks are left out, and so is the paged options listing; fresh random identifiers are taken never to repeat.
- OverrideLedger: plan cleanup, downgrade audit and Stripe fields are an abort or nothing; only the lifetime totals of the metric ledger are kept.
- Consent: the artifacts that a revocation deletes with a grant, expiry dates and the login prompt are left out; calls do not interleave.
- Percentile.RoundIsClose: samples are reals, so floating-point rounding and the exponent form of very large numbers are left out.
- WorkerPool: a worker whose request throws, which rejects the whole run, is not modelled.
- `scripts/dev-mock/api.ts` record edits, `management.ts`, `notifications.ts` and `analytics.ts`: simple record edits beyond those that status pages depend on.
- The Python release scripts, Stripe and Docker drivers, and evidence validation, which is not part of this model.
