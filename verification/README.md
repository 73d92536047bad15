# A verified model of the saved list, the role worker and the small kernels

This Dafny project models the parts of the repository whose correctness depends on more than one function: the saved-list
synchronisation between a browser and an account, the leased role worker with its supervisor and polling lanes, and seven
small algorithms (search score, rate limiter, settings form, batched follow questions, paced load generator, reaction list,
"more" paging). `dafny verify dfyconfig.toml` checks everything.

Code that updates variables or stored lists step by step is a class or a method with a loop; each such method is proved
equal to a specification function, and the properties below are proved about those functions, over all inputs and over
whole runs. Network, database, timers and process exits appear as their outcomes: an event of a run, or an argument.

## What each file covers

- `Basics.dfy`, `Sequences.dfy`: optional values, slugs, powers of two, counts, and lists as the browser code uses them
  (filters, sets of lists).
- `SavedCore.dfy`: matching the browser's list with the account's list, and forgetting the account's copy.
- `SavedBrowser.dfy`: the browser's state and every piece of code between two awaits, as a class.
- `SavedProtocol.dfy`: browser, account and messages under way; the invariant over every interleaving, and exactly when a
  list request is safe to begin.
- `SavedDelivery.dfy`: that changes reach the account: what is sent again, and what is left once all is sent.
- `SavedMerge.dfy`: moving local-only saves to the account, and the stored version.
- `SavedConnect.dfy`: signing in and out; the state in which the protocol starts; what the next page finds.
- `SavedRuns.dfy`: runs from signing in on which the saved list does less than it seems to promise.
- `LeaseWindow.dfy`: the deadlines, watchdog and renewals of one active lease.
- `LeaseSafety.dfy`: any number of candidates, the lease row, late and hung calls; how long two children can overlap.
- `LeaseRenewal.dfy`: what each event does to a lease, and that a healthy candidate keeps its lease.
- `PrimaryHandoff.dfy`: when a standby hands the role over, and how it backs off.
- `RoleCandidate.dfy`: the boot loop and the order of its decisions.
- `Supervisor.dfy`: stopping, draining, forcing and the exit code.
- `WorkerLanes.dfy`: the division of jobs into lanes, one poll of each kind of lane, permits, and the combined report.
- `LanePolls.dfy`: which jobs a poll runs, defers and counts, whole or cut short.
- `Ndcg.dfy`, `RateLimit.dfy`, `AlertSettings.dfy`, `FollowStates.dfy`, `Pacing.dfy`, `Reacted.dfy`, `BrowseWindow.dfy`:
  one kernel each.

## Where the code does less than it seems to promise

Each entry names the run or input on which the promise fails and, where there is one, the lemma that says exactly when it
holds.

- A saved-list request that begins while an older, superseded delivery is unanswered can make the browser forget the newer
  toggle for good (`HazardousAttemptBreaks`); beginning a request is safe if and only if there is no such delivery
  (`AttemptSafeIff`). Two runs from signing in get there. The request a merge makes waits for no delivery at all
  (`MergeMeetsHazard`). A repeated request waits only for the deliveries sent before the discarded list was thrown away, so
  a toggle made during that wait is met (`RetryMeetsHazard`); nothing else is (`RetryHazardsAreNew`).
- A settled answer that is neither acceptance nor one of the two known refusals drops a put or a delete the account never
  took (`InvalidAnswerBreaks`; `InvalidAnswerLosesPut` is a run from signing in). Handling such an answer keeps the promise
  if and only if the pending change is no longer the one answered, or the account is already as it asks
  (`InvalidAnswerIff`); fair runs may hold any number of those.
- A merge counts skipped slugs as the account's but keeps the stored version. When the list request after it fails, the next
  page trusts the version, takes the shortcut, and shows a slug the account does not hold (`SkippedSlugStays`). The stored
  version stays trustworthy if and only if the merge's answer finds it out of date or no sent slug skipped
  (`MergeKeepsVersionIff`, `VersionRuns`).
- Signing in to a different account drops a slug from the list that was saved again before the answer came, if the other
  account's copy had it, although its put stays pending (`SignInConsistentIff`). It is missing until a list is accepted,
  which brings it back and sends the put (`SignInHidesEarlyPut`).
- An election that only confirms an unexpired lease does not extend it, but the candidate counts a full window from it. The
  local deadline then lies past the database's (`GrantCoversDeadlineIff`), and two children can overlap for longer than a
  watchdog period (`ConfirmationOverlaps`). `OverlapBounded` gives the bound with and without such a confirmation.
- A signal that arrives after the drain's kill clears the noted failure (`SignalAfterKillClearsFailure`); `SuccessIff` says
  by the events of a run exactly when a supervisor reports success.
- The settings form shows a stale value after a change whose answer was lost, until the next success (`LostAnswerMisleads`,
  `ShownIsServerIff`).
- A rating left while a merge of the same slug is under way is taken for moved (`RatedDuringMergeIff`).
- A poll gives back every permit it took unless reporting to the supervisor throws while one is held
  (`PermitsReturnedIff`, `ConsumerPermits`).

## Where a hypothesis ends

Three functions keep their promise only on part of the inputs their types allow. Their callers stay inside that part, so
these results mark the edge of a hypothesis and are no failure of the code.

- `reconcileSaved` run on its own output returns the same sequences if and only if no local-only slug was listed twice
  (`ReconcileIdempotent`, `RepeatedLocalOnlyIsNotIdempotent`). `localList()` spreads a Set and never lists a slug twice.
- No judgments push the search score above 1 if and only if no product is repeated among the rows that count
  (`NeverAboveOneIff`, `RepeatedRowsExceedOne`). `main` scores rows without repetitions: the ranking's rows are keys of a
  Map, a listing has one row for each product, and the window takes its head out of its tail.
- Two re-armings of the drain timer suffice if and only if forced aborts never carry the handoff reason, or there is no
  drain (`TwoRearmsIff`, `HandoffForceRearmsThrice`). The role worker forces only for a shutdown or a lost lease.

## Model

| member | source | states |
|---|---|---|
| SavedCore.ReconcileSaved | components/home/saved.ts:64-84 | the loop over the pending record and the filters give the specified result, whatever order the record enumerates its keys in |
| SavedCore.ReconcileMembers | components/home/saved.ts:67-83 | slug by slug, what every part of the result holds: the list, the pending changes, the resends, the local-only slugs |
| SavedCore.ReconcilePartition | components/home/saved.ts:72-82 | the list is the disjoint union of the account list with still-pending changes applied and the local-only slugs |
| SavedCore.ReconcileOrder | components/home/saved.ts:72-77 | surviving local slugs form an order-preserving prefix, then come the account's others oldest first, then lost waiting puts |
| SavedCore.ReconcileFixedPoint | components/home/saved.ts:64-84 | a list that holds the account list and its pending puts, with nothing to drop, is returned unchanged |
| SavedCore.ReconcileAgain | components/home/saved.ts:64-84 | running again on the output with the same account list changes nothing but, possibly, the local-only list |
| SavedCore.ReconcileIdempotent | components/home/saved.ts:64-84 | the second run returns exactly the same result if and only if no local-only slug was listed twice |
| SavedCore.RepeatedLocalOnlyIsNotIdempotent | components/home/saved.ts:77-82 | a list repeating a local-only slug is not a fixed point |
| SavedCore.LocalOnlySequence | components/home/saved.ts:72-82 | the local-only slugs are those of the list itself, in its order |
| SavedCore.ForgetAfterReconcile | components/home/saved.ts:86-90 | forgetting the account right after matching leaves exactly the local-only slugs and unsent puts, in order |
| SavedCore.ReconcileUnchangedIff | components/home/saved.ts:64-84 | with nothing pending the list is untouched if and only if it holds the whole account list and nothing dropped there |
| SavedCore.ShortcutRefinesReconcile | components/home/saved.ts:238-244 | the unchanged-version shortcut gives the full path's list, offer, order and count, and has nothing to send |
| SavedBrowser.SavedClient.Chain | components/home/saved.ts:296-298 | a send is appended to its own slug's chain only |
| SavedBrowser.SavedClient.SendEach | components/home/saved.ts:278-279 | every listed slug is sent once, in order |
| SavedBrowser.SavedClient.ToggleSaved | components/home/saved.ts:333-343 | the list changes at once, the change is pending and chained, and the new state is returned |
| SavedBrowser.SavedClient.BeginDelivery | components/home/saved.ts:300-304 | a delivery leaves only if it still matches the pending change |
| SavedBrowser.SavedClient.AnswerDelivery | components/home/saved.ts:308-330 | a settled answer clears the matching pending change, updates the base and undoes a refused put; any other changes nothing |
| SavedBrowser.SavedClient.RecordAnswer | components/home/saved.ts:315-324 | what an answer changes in the base, the list and the offer |
| SavedBrowser.SavedClient.ReceiveList | components/home/saved.ts:264-280 | a list fetched across an edit is thrown away, any other is matched |
| SavedBrowser.SavedClient.Match | components/home/saved.ts:272-279 | the matched result is stored and the changes still due are sent again; DueIsSentAgain says which those are |
| SavedBrowser.SavedClient.BeginMerge | components/home/saved.ts:349-365 | a merge starts only when none runs and the latest 500 offered slugs without their own change are not empty |
| SavedBrowser.SavedClient.AnswerMerge | components/home/saved.ts:366-385 | on success the sent slugs without a newer change count as seen, the offer empties and a list request starts |
| SavedProtocol.StepKeeps | components/home/saved.ts:253-387 | every fair step of toggles, deliveries, answers, lists, retries and merges keeps the invariant |
| SavedProtocol.FairRunsAgree | components/home/saved.ts:253-343 | over every fair interleaving, harmless unexpected answers included, a slug toggled since login, or taken up from before by an accepted list, with nothing pending is in the browser's list exactly when the account has it, and as last toggled unless refused |
| SavedProtocol.ListForgetsToggle | components/home/saved.ts:264-280 | a list accepted while a superseded delivery is unanswered drops the newer toggle from pending |
| SavedProtocol.HazardousAttemptBreaks | components/home/saved.ts:253-280 | from such a request a fair continuation ends with browser and account disagreeing and nothing left to send |
| SavedProtocol.AttemptSafeIff | components/home/saved.ts:253-268 | a list request may begin safely if and only if no superseded delivery that would change the account is unanswered |
| SavedProtocol.InvalidAnswerIff | components/home/saved.ts:308-316 | handling a settled answer other than success, limit or not listed keeps the promise, at once and on every fair continuation, if and only if the pending change is not the one answered or the account is already as it asks |
| SavedProtocol.InvalidKeepsInvIff | components/home/saved.ts:308-316 | the same condition is exact for the invariant |
| SavedProtocol.InvalidAnswerBreaks | components/home/saved.ts:308-316 | such an answer to a put or a delete that is still pending and would change the account loses it |
| SavedProtocol.TicketsKeep | components/home/saved.ts:295-298 | every step numbers its sends upwards, so that waiting for all chains means waiting for the sends numbered so far |
| SavedProtocol.RetryHazardsAreNew | components/home/saved.ts:264-267 | whatever is in flight when a discarded list is asked for again was sent after the discard; with no send since, the retry meets no hazard |
| SavedProtocol.RetryIsAllowed | components/home/saved.ts:264-267 | the discarded list is asked for again as soon as every delivery sent before the discard has ended |
| SavedDelivery.DueIsSentAgain | components/home/saved.ts:278-279 | a list that is matched sends every change it does not show once more, at the end of its own chain, and sends nothing else |
| SavedDelivery.NewestSendIsPending | components/home/saved.ts:282-303 | over every run from signing in, fair or not, the newest unfinished send of a pending slug carries its pending change, so that the last of a chain is never skipped |
| SavedDelivery.ToggleIsSent | components/home/saved.ts:333-343 | a toggle flips the slug or sets it as told, shows it at once, and sends its change once |
| SavedDelivery.AcceptedListIsDelivered | components/home/saved.ts:264-330 | after an accepted list, over every fair run with no delivery lost and no change refused: once nothing is queued or under way nothing is pending, and account and browser are as last toggled for every change the list did not show |
| SavedDelivery.DeliveryNeverStuck | components/home/saved.ts:296-330 | until everything is sent some delivery can go on, unless a merge holds them back |
| SavedDelivery.AnswerIsRecorded | components/home/saved.ts:308-330 | slug by slug, what a handled answer leaves in the record, the list, the offer and the edit count |
| SavedDelivery.ListIsAskedForThrice | components/home/saved.ts:253-269 | over every fair run of one request at most three lists are thrown away, and it asks again exactly after the first and the second |
| SavedDelivery.MergeSends | components/home/saved.ts:349-365 | a merge begins exactly when none runs and an offered slug is still here without a change of its own; it sends only such slugs, all of them when fewer than 500 |
| SavedMerge.MergeThenRefresh | components/home/saved.ts:366-385 | after a merge, any fair run of toggles, deliveries and discarded or failed lists, and the next accepted list: no slug sent without a change of its own is local-only, and every unsent local-only slug that was not toggled still is |
| SavedMerge.RoundShortensOffer | components/home/saved.ts:349-387 | a round shortens the offer by exactly the latest 500 slugs, whatever the account took of them |
| SavedMerge.RoundsEmptyTheOffer | components/home/saved.ts:349-387 | with no new saves the offer is empty after ceil(n / 500) rounds and not before |
| SavedMerge.VersionStep | components/home/saved.ts:274-275 | every step but a merge's answer keeps: a current stored version means the base is the account list |
| SavedMerge.VersionRuns | components/home/saved.ts:238-280 | over every fair run whose merges' answers keep it, a current stored version means the base is the account list |
| SavedMerge.MergeKeepsVersionIff | components/home/saved.ts:377-385 | a merge's answer keeps that if and only if the version is old or no unchanged sent slug was skipped |
| SavedConnect.SkippedSlugSurvivesShortcut | components/home/saved.ts:238-244 | with a base that holds a slug the account list lacks, taking the shortcut keeps and counts the slug that matching would drop |
| SavedConnect.SavedDocument.Connect | components/home/saved.ts:200-246 | the five outcomes of asking who is signed in, and whether the list must be fetched |
| SavedConnect.EarlyTogglesSurvive | components/home/saved.ts:205-235 | a toggle made before the answer is kept unless the answer is that there is no account |
| SavedConnect.AnswerLeaves | components/home/saved.ts:200-236 | for every answer, which slugs stay in the list and whose record stays: the account copy is forgotten exactly when signed out or signed in to another account |
| SavedConnect.FetchIsSkippedIff | components/home/saved.ts:238-246 | the list is not fetched if and only if the versions agree, nothing is to be sent, and all that came from the account is still here; then exactly the other slugs are offered |
| SavedConnect.SignInConsistentIff | components/home/saved.ts:226-235 | after signing in the list shows what the pending changes ask, if and only if no early save was of the other account's copy |
| SavedConnect.SignedInRunsAgree | components/home/saved.ts:225-246 | from whatever any document holds when it signs in, every fair run keeps browser and account in agreement about all that was toggled since |
| SavedConnect.ShortcutShowsTheSame | components/home/saved.ts:238-244 | when the shortcut is taken because the account's version is the stored one, it shows the list, offer and count that fetching and matching would |
| SavedConnect.RecordStaysSound | components/home/saved.ts:225-280 | the next page finds a record whose version, if current, stands for the account list again |
| SavedRuns.RetryMeetsHazard | components/home/saved.ts:264-267 | a fair run from signing in to a permitted retry with a superseded delivery unanswered, and a fair continuation that ends in disagreement |
| SavedRuns.MergeMeetsHazard | components/home/saved.ts:366-385 | the same for the list request a merge makes |
| SavedRuns.InvalidAnswerLosesPut | components/home/saved.ts:308-316 | a run from signing in on which an unexpected settled answer loses a put |
| SavedRuns.SkippedSlugStays | components/home/saved.ts:377-387 | a run after which the next page takes the shortcut and shows a slug the account does not hold |
| SavedRuns.SignInHidesEarlyPut | components/home/saved.ts:226-235 | an early save missing from the list after signing in, and back with the first accepted list |
| LeaseWindow.ActiveLease.constructor | scripts/role-worker.ts:378-398 | a lease counts from before the election call |
| LeaseWindow.ActiveLease.AbortWith | scripts/role-worker.ts:382-386 | only the first reason to abort counts |
| LeaseWindow.ActiveLease.LoseLease | scripts/role-worker.ts:399-407 | a loss is noted once and forces the child |
| LeaseWindow.ActiveLease.Stop | scripts/role-worker.ts:387-390 | a stop signal drains the child, or forces one already draining |
| LeaseWindow.ActiveLease.HandOffToPrimary | scripts/role-worker.ts:496-501 | a handoff starts a drain unless something else already stopped the child |
| LeaseWindow.ActiveLease.WatchdogTimer | scripts/role-worker.ts:409-412 | the lease is lost at the lease deadline or when a renewal hangs past its own |
| LeaseWindow.ActiveLease.RenewTimer | scripts/role-worker.ts:414-421 | a call starts exactly when none is under way, nothing ended the lease and its deadline has not passed, stamped with now and with the lesser of the lease deadline and ten seconds on |
| LeaseWindow.ActiveLease.SettleRenewal | scripts/role-worker.ts:421-442 | only a yes in time moves the deadline; a broken connection is retried; anything else loses the lease |
| LeaseSafety.StepKeeps | scripts/role-worker.ts:339-443 | every event of the whole system keeps the lease invariant |
| LeaseSafety.RunsKeep | scripts/role-worker.ts:339-443 | the invariant holds in every run of any number of candidates |
| LeaseSafety.DeadlineMovesForward | scripts/role-worker.ts:398-443 | a deadline moves only forward, and only by a renewal the database carried out and answered in time |
| LeaseSafety.DeadlineWithinLease | lib/jobs/role-leader.ts:81-111 | a deadline not resting on a confirmation lies within the database lease, and has passed before another boot is granted the role |
| LeaseSafety.UnabortedPastDeadline | scripts/role-worker.ts:409-412 | no child stays un-aborted past its deadline for more than one watchdog period |
| LeaseSafety.OverlapBounded | scripts/role-worker.ts:339-443 | two boots' un-aborted children overlap for at most one watchdog period, or a lease window more after a confirmation |
| LeaseSafety.GrantCoversDeadlineIff | lib/jobs/role-leader.ts:63-92 | the deadline lies within the granted lease if and only if the grant was new or the confirmed lease lasted long enough |
| LeaseSafety.ConfirmedLate | lib/jobs/role-leader.ts:63-67 | a run in which a lost first answer leads to a late confirmation |
| LeaseSafety.ConfirmationOverlaps | lib/jobs/role-leader.ts:63-67 | a run in which two un-aborted children overlap for longer than the watchdog period |
| LeaseRenewal.RenewalStartsIff | scripts/role-worker.ts:414-421 | the renewal timer calls if and only if no call is under way, the lease is neither lost nor ended nor draining other than for a handoff, and its deadline has not passed; with which stamps; when it loses the lease |
| LeaseRenewal.ElectionGrantsIff | lib/jobs/role-leader.ts:60-92 | when an election grants the role, and the row it leaves |
| LeaseRenewal.RenewalAppliesIff | lib/jobs/role-leader.ts:98-111 | the database renews exactly a live lease of the caller's own epoch, for 45 seconds from now |
| LeaseRenewal.AnswerMovesDeadline | scripts/role-worker.ts:422-431 | a timely yes sets the deadline to 45 seconds from the start of the call, anything else leaves it; a no or a late answer loses the lease |
| LeaseRenewal.ErrorLosesLeaseIff | scripts/role-worker.ts:432-442 | an error loses the lease unless it means that the connection is down |
| LeaseRenewal.WatchdogLosesIff | scripts/role-worker.ts:409-412 | the watchdog loses the lease exactly past its deadline or that of the call under way |
| LeaseRenewal.SignalReachesChild | scripts/role-worker.ts:387-390 | a signal starts the drain, or forces one already begun, keeping its reason, and ends the renewals |
| LeaseRenewal.HandoffKeepsRenewing | scripts/role-worker.ts:496-501 | a handoff starts a drain that does not end the renewals, unless the child was already told to stop |
| LeaseRenewal.AbortReachesChild | scripts/role-worker.ts:382-386 | an abort is recorded unless there was one before |
| LeaseRenewal.FirstReasonCounts | scripts/role-worker.ts:382-386 | over every run of one tenure the first reason stays |
| LeaseRenewal.LossForces | scripts/role-worker.ts:399-407 | in every run a lost lease forces the child to stop |
| LeaseRenewal.HealthyKeepsLease | scripts/role-worker.ts:391-443 | a candidate whose renewal calls are answered in time, allowed by the rules, with the timer running every ten seconds, never loses its lease in any run of any number of candidates, and unless the grant was a mere confirmation the row stays its own |
| LeaseRenewal.LeaseCanBeKept | scripts/role-worker.ts:391-443 | a candidate that is alone in holding the role can go on like that to any moment |
| PrimaryHandoff.RoleHandoffStableMs | scripts/role-worker.ts:76-82 | which settings are rejected, and that an accepted wait is between a second and an hour |
| PrimaryHandoff.Handoff.constructor | scripts/role-worker.ts:94-97 | nothing seen, no failures |
| PrimaryHandoff.Handoff.Observe | scripts/role-worker.ts:100-105 | a sample extends or restarts the observation of one boot |
| PrimaryHandoff.Handoff.Yield | scripts/role-worker.ts:106 | a handover is remembered and the observation dropped |
| PrimaryHandoff.Handoff.Acquire | scripts/role-worker.ts:108-112 | coming back within the window counts as a failed handover, later it resets |
| PrimaryHandoff.RequiredMsBounds | scripts/role-worker.ts:98 | the wait starts at the configured value and each failure doubles it exactly, up to one hour |
| PrimaryHandoff.FailuresAreCounted | scripts/role-worker.ts:106-112 | over any history of calls: the handovers in a row after which the role was back within 15 minutes; one that lasted starts the count again |
| PrimaryHandoff.SeenIsUnbrokenRun | scripts/role-worker.ts:100-112 | what is remembered is the start of the unbroken run of samples the history ends with |
| PrimaryHandoff.ObserveYesIff | scripts/role-worker.ts:100-105 | the answer is yes if and only if such a run of one boot spans the required time |
| PrimaryHandoff.YieldsBackOff | scripts/role-worker.ts:98-112 | when every handover comes straight back, the n-th is no earlier than the sum of the n doubling waits, also across elections lost and won in between |
| RoleCandidate.RunRoleCandidate | scripts/role-worker.ts:339-580 | the boot loop performs exactly the actions of the rounds it meets |
| RoleCandidate.RunRound | scripts/role-worker.ts:339-378 | election, stop during the election, standby, and the child's start |
| RoleCandidate.EndChild | scripts/role-worker.ts:543-577 | the order of checks once the child has ended |
| RoleCandidate.BootsAreLawful | scripts/role-worker.ts:339-580 | in every boot no child starts after the stop signal, no election begins with a child unsettled, a drain timeout ends the boot, and the role is yielded only after a clean end with the lease intact |
| RoleCandidate.YieldIff | scripts/role-worker.ts:548-572 | exactly when a round hands the role over |
| RoleCandidate.GoesOnIff | scripts/role-worker.ts:339-580 | a boot holds another election if and only if every round so far was standby, or its child ended with the lease lost, given back or handed over, and no stop came |
| RoleCandidate.DoneIff | scripts/role-worker.ts:339-580 | a boot does exactly what the rounds it reaches do |
| RoleCandidate.ReleasesIff | scripts/role-worker.ts:363-560 | over every boot a lease is given back if and only if the stop came during a won election, or during a child that ended with 0, or admission gave up a child whose lease was intact |
| RoleCandidate.BootReleasesAtOnce | scripts/role-worker.ts:363-560 | over every boot the release comes right after the signal, or right after its own child settled |
| RoleCandidate.ChildStartsIff | scripts/role-worker.ts:363-378 | over every boot a child starts exactly for an election that was won and not stopped |
| RoleCandidate.BootYieldsIff | scripts/role-worker.ts:548-572 | over every boot the role is handed over exactly after a clean end in a handoff with the lease intact |
| RoleCandidate.ExitIff | scripts/role-worker.ts:339-580 | over every boot: when it exits, and with the child's own code after a stop in a child, 0 after a stop in an election or in between, 1 otherwise, and for which reason |
| Supervisor.HandoffDrainCovers | scripts/worker-supervisor.ts:55-59 | the handoff drain less the usual one is the least wait that covers the job limit and what every lane declared, at most an hour, and 45 seconds more |
| Supervisor.Supervision.StopChild | scripts/worker-supervisor.ts:249-284 | a stop is accepted once, again only when forced, and sets the timer for its drain |
| Supervisor.Supervision.OnSignal | scripts/worker-supervisor.ts:285-286 | a signal forces only a handoff drain |
| Supervisor.Supervision.OnForceAbort | scripts/worker-supervisor.ts:287-290 | a forced abort always re-arms, and is a requested stop only for a shutdown |
| Supervisor.Supervision.OnAbort | scripts/worker-supervisor.ts:291-294 | an abort is a requested stop |
| Supervisor.Supervision.OnHeartbeat | scripts/worker-supervisor.ts:336-347 | a heartbeat records the lanes and never revives a stopping child |
| Supervisor.Supervision.OnMonitor | scripts/worker-supervisor.ts:299-303 | a stalled child or a failed health write stops it |
| Supervisor.Supervision.OnDrainTimeout | scripts/worker-supervisor.ts:275-283 | the drain's end notes a failure |
| Supervisor.Supervision.OnChildExit | scripts/worker-supervisor.ts:349-356 | the exit code and the final status |
| Supervisor.StopIsBounded | scripts/worker-supervisor.ts:249-303 | in every run the group is killed within the drain of the first accepted stop, told from the events, plus at most three usual drains, two unless forced aborts carry the handoff reason |
| Supervisor.KillWaitsForDrain | scripts/worker-supervisor.ts:258-283 | every kill comes exactly when the last accepted stop's own drain has run out: the handoff drain over the lanes last heard of for an unforced handoff, the usual one otherwise |
| Supervisor.LastStopTells | scripts/worker-supervisor.ts:249-284 | over every run the reason, the request and the timer are those of the last accepted stop |
| Supervisor.FirstStopTells | scripts/worker-supervisor.ts:249-262 | over every run what counts as the first stop and its allowance are those of the first accepted stop |
| Supervisor.StopSticks | scripts/worker-supervisor.ts:249-347 | after an accepted stop the child is never shown as starting or running |
| Supervisor.ShownStatus | scripts/worker-supervisor.ts:299-347 | until its end a child is shown as stopping once a stop was accepted, else as running once it was heard from |
| Supervisor.HandoffForceRearmsThrice | scripts/worker-supervisor.ts:285-290 | a run that reaches the third re-arming |
| Supervisor.TwoRearmsIff | scripts/worker-supervisor.ts:249-290 | two re-armings bound every stop if and only if forced aborts do not carry the handoff reason or there is no drain |
| Supervisor.ExitCodesSound | scripts/worker-supervisor.ts:249-284 | while stopping, a zero exit code means the last accepted stop was asked for |
| Supervisor.SuccessIff | scripts/worker-supervisor.ts:139-356 | the supervisor reports success exactly when no stop was accepted and a one-shot child ended cleanly, or the last accepted stop was asked for, no drain end or failed delivery followed it, and the child ended cleanly or was never heard from; otherwise 1 and failed |
| Supervisor.SignalAfterKillClearsFailure | scripts/worker-supervisor.ts:275-286 | a run in which a late signal clears the failure the kill noted |
| WorkerLanes.LanesAreSeparate | scripts/worker.ts:132-137 | a consumer job has one lane, its own; other jobs stand in as many lanes as given; no lane is empty or repeats a job; refusal exactly for a foreign consumer job |
| WorkerLanes.PollLane | scripts/worker.ts:239-289 | the poll visits the rotated lane until it is interrupted |
| WorkerLanes.VisitJob | scripts/worker.ts:247-285 | what one visit does on the deferred, halted, failed and normal paths |
| WorkerLanes.RunJob | scripts/worker.ts:263-285 | counters, index and permit after a run that ended, failed or threw |
| WorkerLanes.EachPendingJobOnce | scripts/worker.ts:244-250 | an uninterrupted poll considers each pending job of the lane exactly once, in rotation order |
| LanePolls.PollRuns | scripts/worker.ts:240-289 | a poll nothing ends early starts exactly the pending jobs not denied, in rotation order and once each, defers exactly the denied ones, counts the runs that failed or threw, continues or refills exactly when a completed run said so, and the next poll begins behind the last run |
| LanePolls.PollIsCutShort | scripts/worker.ts:240-289 | a poll that ends at some job has done the same for the jobs before it, and there only what the signal or the report that threw allows |
| LanePolls.UnreadPollRunsNothing | scripts/worker.ts:240-243 | a poll that cannot read its settings or its pending list runs nothing and counts as one failure |
| WorkerLanes.LastRunGoesLast | scripts/worker.ts:281-282 | the job run last is last in the next poll's order |
| WorkerLanes.NextIndexAfter | scripts/worker.ts:233-297 | over any run of polls the index stays in range |
| WorkerLanes.PermitsReturnedIff | scripts/worker.ts:251-285 | every host permit is given back within the poll, unless a report threw while it was held; at no moment of the poll is more than one held |
| WorkerLanes.EveryPermitReturned | scripts/worker.ts:251-285 | holding nothing at the end means every permit was given back as often as it was taken |
| WorkerLanes.PollConsumer | scripts/worker.ts:174-226 | what a consumer's poll does, what it counts as failures, and exactly when another tick is requested |
| WorkerLanes.ConsumerPermits | scripts/worker.ts:183-212 | circuit and host permits are given back on every path, except what was held when a report threw |
| LanePolls.ConsumerRuns | scripts/worker.ts:183-212 | a consumer's poll starts its job exactly when it was announced and defers it exactly when the circuit or the host denied it |
| LanePolls.ConsumerTakes | scripts/worker.ts:183-188 | it takes the circuit's permit when offered one, and the host's only when the circuit did not deny |
| WorkerLanes.Worker.constructor | scripts/worker.ts:136-137 | all lanes start idle |
| WorkerLanes.Worker.LaneReport | scripts/worker.ts:138-151 | a lane's report replaces its state only and reports the lanes together |
| WorkerLanes.LongestRunIsReported | scripts/worker.ts:138-144 | the supervisor hears of a running job exactly while one runs, and of the one that has run longest, the first of several |
| Ndcg.SortDescending | scripts/search-judged.ts:84 | the ideal list is a descending rearrangement |
| Ndcg.DcgIsPlaceSum | scripts/search-judged.ts:83 | cutting the list and counting missing places as 0 give the same discounted gain |
| Ndcg.PrefixesDominate | scripts/search-judged.ts:83 | summation by parts: gaining at least as much in every prefix means at least the discounted gain, for any non-increasing discount |
| Ndcg.TopGain | scripts/search-judged.ts:84 | no choice of k grades gains more than the first k of the descending list |
| Ndcg.RowsGainAtMost | scripts/search-judged.ts:118-120 | however distinct results are ranked, their first places gain no more than the best judgments |
| Ndcg.ScoreInUnitInterval | scripts/search-judged.ts:82-86 | for distinct result rows and any judgments the score lies between 0 and 1 |
| Ndcg.IdealScoresOne | scripts/search-judged.ts:82-86 | the ideal ranking scores 1 unless nothing useful is judged |
| Ndcg.MovingUpNeverHurts | scripts/search-judged.ts:82-86 | exchanging two results so that the better one stands higher never lowers the score |
| Ndcg.MovingUpHelpsIff | scripts/search-judged.ts:82-86 | it raises the score if and only if something useful is judged, the upper place counts, the lower result is better and its place counts for less |
| Ndcg.ExchangeGains | scripts/search-judged.ts:83 | by exactly how much an exchange changes the discounted gain |
| Ndcg.GainDoubles | scripts/search-judged.ts:83 | each grade is worth one more than twice the grade below it |
| Ndcg.NeverAboveOneIff | scripts/search-judged.ts:82-120 | every judgment of the rows scores at most 1 if and only if no product is repeated within the cut |
| Ndcg.RepeatedRowsExceedOne | scripts/search-judged.ts:118-120 | a product listed twice, and judged 1 alone, scores above 1 |
| RateLimit.Window | lib/rate-limit.ts:16 | the window is a positive whole number of seconds within half a second of the request |
| RateLimit.RateLimits.RateLimit | lib/rate-limit.ts:15-32 | one statement inserts, counts up or restarts the row, and answers by the new count |
| RateLimit.RateLimits.PruneExpired | lib/rate-limit.ts:44-50 | rows whose window ended more than a day ago are deleted and counted |
| RateLimit.PruningIsInvisible | lib/rate-limit.ts:44-50 | two runs of the same calls with prune steps anywhere give the same answers |
| RateLimit.DeletionInvisibleIff | lib/rate-limit.ts:25-31 | deleting a row goes unnoticed by later calls if and only if its window is over |
| RateLimit.LiveWindowCounts | lib/rate-limit.ts:25-31 | a live row admits calls up to the limit and no further |
| RateLimit.WindowAcceptsItsFirst | lib/rate-limit.ts:25-31 | each window accepts exactly its first `limit` calls |
| RateLimit.CallsWithinQuota | lib/rate-limit.ts:25-31 | what a row can still admit within an interval of one window length |
| RateLimit.AtMostTwiceTheLimit | lib/rate-limit.ts:15-32 | any closed interval of one window length holds at most twice the limit, from any table and with pruning |
| RateLimit.RefusedOnlyWhenUsedUp | lib/rate-limit.ts:15-32 | a call for a key without a row at first is refused only if the full limit was accepted within the last window length |
| RateLimit.PrunedIff | lib/rate-limit.ts:44-50 | pruning deletes exactly the rows whose window ended more than a day ago |
| AlertSettings.Form.constructor | components/me/AlertSettings.tsx:54-61 | a loaded form shows the loaded settings |
| AlertSettings.Form.Show | components/me/AlertSettings.tsx:64-69 | saved settings with the pending changes laid over them in order |
| AlertSettings.Form.SavePatch | components/me/AlertSettings.tsx:71-78 | a change is shown, pending and chained at once |
| AlertSettings.Form.SettleSave | components/me/AlertSettings.tsx:79-93 | a settled save removes its own change only and stores the answer if there is one |
| AlertSettings.ShownIsExplained | components/me/AlertSettings.tsx:64-94 | at every point of every run: the last answered server state with the unsettled saves laid over it |
| AlertSettings.ShownIsSerial | components/me/AlertSettings.tsx:64-94 | with no answer lost, the initial settings with all successful and pending changes in order; with nothing pending, the server's |
| AlertSettings.SuccessChangesNothing | components/me/AlertSettings.tsx:86-91 | a successful save changes nothing on the screen while no earlier answer was lost |
| AlertSettings.FailureTakesBackItsOwn | components/me/AlertSettings.tsx:87-91 | a failed save takes back its own fields only, where no later change sets them |
| AlertSettings.ShownIsServerIff | components/me/AlertSettings.tsx:86-91 | with nothing pending the screen is right if and only if every field set by a lost change since the last answer already shows the last such change's value |
| AlertSettings.LostAnswerMisleads | components/me/AlertSettings.tsx:87-91 | a lost answer leaves the server changed and the screen not |
| AlertSettings.StatusWhenSettled | components/me/AlertSettings.tsx:75-92 | once all has settled the status says saved exactly when nothing failed since the last change, and otherwise which way the last failure was |
| FollowStates.TakeGroup | components/me/FollowButton.tsx:67-71 | splicing takes the first question of each kind and leaves the others in order |
| FollowStates.AnswerGroup | components/me/FollowButton.tsx:75 | each question of a request is answered from its body, or with nothing when it failed |
| FollowStates.FlushStates | components/me/FollowButton.tsx:63-77 | the requests and answers of a flush |
| FollowStates.EveryWaiterAnsweredOnce | components/me/FollowButton.tsx:63-77 | a flush resolves every question it took exactly once |
| FollowStates.EveryWaiterIsTold | components/me/FollowButton.tsx:66-76 | every question is told what the body of its own request says under its kind, or nothing when that failed |
| FollowStates.RequestsAreLawful | components/me/FollowButton.tsx:66-72 | every request asks something and each kind at most once |
| FollowStates.RequestsNeeded | components/me/FollowButton.tsx:66-72 | the number of requests is the largest number of questions of one kind |
| FollowStates.FewestRequests | components/me/FollowButton.tsx:66-72 | no other grouping takes fewer requests |
| FollowStates.RequestOf | components/me/FollowButton.tsx:66-72 | questions of one kind are sent in the order asked |
| FollowStates.FollowQueue.constructor | components/me/FollowButton.tsx:61 | the queue starts empty with no flush set |
| FollowStates.FollowQueue.FollowStateOf | components/me/FollowButton.tsx:79-84 | a question is queued, and a flush set if it is the first |
| FollowStates.FollowQueue.Fired | components/me/FollowButton.tsx:63-65 | a flush takes the whole queue |
| FollowStates.NobodyIsForgotten | components/me/FollowButton.tsx:61-84 | a flush is set exactly while somebody is queued, and every question is in exactly one flush or still queued, in order |
| FollowStates.FlushTakesAll | components/me/FollowButton.tsx:63-84 | when the timer fires everything asked so far has been flushed |
| Pacing.PacedLoop | scripts/measure-worker-capacity.ts:45-84 | the loop makes the specified starts; started and skipped add up to the plan; never more in flight than allowed |
| Pacing.StartsKeepTheirSlots | scripts/measure-worker-capacity.ts:47-54 | a request leaves within its own slot however late the loop wakes, and no slot sends two |
| Pacing.SlotSendsIff | scripts/measure-worker-capacity.ts:47-55 | after any slots the next one sends if and only if the time is not up, fewer than the allowed number are in flight, and the slot has not passed |
| Pacing.PeakIsReached | scripts/measure-worker-capacity.ts:77-79 | the reported peak is the most that were in flight after any slot |
| Pacing.RateBound | scripts/measure-worker-capacity.ts:44-54 | any closed interval of length T holds at most floor((T + early) / period) + 2 starts |
| Pacing.TwoAtOneInstant | scripts/measure-worker-capacity.ts:52-53 | the bound is reached: in a lawful run two starts share one instant |
| Pacing.NearestRank | scripts/measure-worker-capacity.ts:86-87 | at least the share p of the latencies is at most the percentile and less than p is below it |
| Reacted.BrowserReactions.RememberReacted | components/feedback/reacted.ts:28-35 | the slug moves to the front and leaves every account's record |
| Reacted.BrowserReactions.ForgetReacted | components/feedback/reacted.ts:37-39 | the slug leaves the list |
| Reacted.BrowserReactions.PruneReacted | components/feedback/reacted.ts:52-56 | what was asked about and not found leaves the list |
| Reacted.BrowserReactions.PostponeReactionMerge | components/feedback/reacted.ts:142-145 | the account is asked no more |
| Reacted.BrowserReactions.BrowserReactionsToMerge | components/feedback/reacted.ts:104-114 | what is offered; a failed lookup offers and prunes nothing |
| Reacted.BrowserReactions.MergeBrowserReactions | components/feedback/reacted.ts:120-139 | a failed merge changes neither list; a complete one records and removes the slugs and returns the sum |
| Reacted.BrowserReactions.RecordMerged | components/feedback/reacted.ts:134-138 | accepted slugs join the account's record and leave the list |
| Reacted.ReactedChunks | components/feedback/reacted.ts:71-75 | the chunks concatenate to the list, hold at most a hundred, and all but the last are full |
| Reacted.StoredIsRecent | components/feedback/reacted.ts:15-35 | after any history of ratings the list is the first 500 of its distinct slugs, latest first |
| Reacted.RunsKeep | components/feedback/reacted.ts:28-139 | in every run the list and every account's record stay disjoint, distinct and within 500, and a slug enters the list only by being rated |
| Reacted.NeverOfferedAgain | components/feedback/reacted.ts:104-139 | a merged slug is neither asked about nor offered for any account until it is rated again |
| Reacted.ForgottenIsGone | components/feedback/reacted.ts:37-39 | a forgotten slug is neither asked about nor offered until it is rated again |
| Reacted.PostponedIff | components/feedback/reacted.ts:104-145 | over every run an account is asked about nothing if and only if it said later or the list is empty |
| Reacted.RemovedIff | components/feedback/reacted.ts:37-139 | which slugs leave the list with each event |
| Reacted.RatingKeepsOthers | components/feedback/reacted.ts:28-35 | rating a slug pushes out at most the last slug of a full list |
| Reacted.MergedIsRecorded | components/feedback/reacted.ts:134-138 | a finished merge is recorded for its own account only |
| Reacted.RememberedIsOffered | components/feedback/reacted.ts:28-35 | a rated slug is asked about for every account that did not postpone, and offered when the server still finds it |
| Reacted.RatedDuringMergeIff | components/feedback/reacted.ts:134-138 | a rating left during a merge stays on offer if and only if the merge did not send its slug |
| BrowseWindow.ParseShown | components/home/browse-state.ts:43-47 | never below the first page |
| BrowseWindow.WindowIsBounded | components/home/browse-state.ts:54-58 | no page draws more than 198 items; it ends at the limit or the list's end |
| BrowseWindow.MoreAdvances | components/home/ProjectGrid.tsx:111-121 | following "more" through the address and back adds a page, up to the total |
| BrowseWindow.FirstPageIsUnnamed | components/home/browse-state.ts:43-52 | only the first page leaves its limit out of the address, and every limit is read back |
| BrowseWindow.MoreEnds | components/home/ProjectGrid.tsx:111-121 | from any address the limit grows with every step and the link disappears after exactly ceil((total - limit) / 9) steps |
| BrowseWindow.EveryItemIsDrawn | components/home/ProjectGrid.tsx:53-121 | from the first page every item is drawn at some step |
| BrowseWindow.StepsOverlap | components/home/browse-state.ts:54-58 | what a step adds is drawn with it, and only items far from the end are folded away |
| BrowseWindow.CategoryCountsForAi | components/home/browse-state.ts:203-209 | one pass gives each category the count its chip shows when chosen |
| BrowseWindow.ChipsAddUp | components/home/browse-state.ts:196-200 | the category chips add up to the filter's chip |

## Left out

- Other devices, other tabs and other accounts writing while the saved-list protocol runs; the protocol has one browser and
  one account.
- Requests handled by the server only after the client saw them fail, in the saved-list protocol and the settings form; late
  elections and renewals are part of `LeaseSafety`.
- The order in which a pending record enumerates its keys when slugs look like integers or like `constructor`; the order is
  an argument.
- Displayed counts, notices, postponed offers and storage failures of the saved list; collisions of the saved version, which
  is a stamp here; the account list's own row limit.
- Versioned batch leases, the progress and admission samples, and the exact site, batch, quarantine, grace and takeover
  rules of an election or a renewal, which here can only deny. The database's transaction start and commit are one instant.
- A child that fails to spawn, stall reasons and the wait for the process group after the last kill.
- SavedConnect.SignInConsistentIff: the answer itself, its errors and the login switch are arguments.
- Pacing.RateBound: a start is the clock reading that let it through, and a timer may fire up to `early` milliseconds early;
  floating-point rounding of times and of the reported percentile is not modelled.
- Ndcg.ScoreInUnitInterval: real arithmetic with any positive, non-increasing discount instead of floating point and log2;
  the order of judged values is an argument.
- RateLimit.AtMostTwiceTheLimit: for a key always used with one limit and window; statements take effect in the order of
  their clock readings.
- BrowseWindow.MoreEnds: the address holds the number itself; turning it into text and back, and the other filters of the
  address, are not modelled, nor is the rounding of approximate result counts. Totals are safe integers.
- WorkerLanes.PermitsReturnedIff: releasing a permit counts as returned even if the release itself fails, as the code takes it.
- Job budgets, the settings snapshot, the time a host's ledger is held, logs and deferral notes of the worker.
- Reacted.StoredIsRecent: storage that cannot be written is not modelled; stored values other than lists of texts read as
  empty.
- Client addresses behind proxies, rendering, translations and analytics.
