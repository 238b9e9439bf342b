# Verified model of the ISE exporter's protocols

The exporter scrapes an appliance that must not be overloaded, locked out or
misreported, so its core is a set of small protocols. This project models them
and proves what each of them keeps over every run.

- `TailView`, `TailCollector`, `TailProtocol`, `TailExactlyOnce`, `TailCrash`,
  `TailReset`, `TailRebuild`, `TailFloor`: incremental tailing of an id-ordered view whose rows
  appear out of order, get purged and may be rebuilt. `TailCollector` is the
  collector as a class; `TailProtocol` puts it among the steps of the database,
  with its three reads, its commit and its increments apart and a crash or a
  failure possible between any two.
- `PacingGate`, `PacingRuns`, `PacingClient`: the gate that paces all Data Connect
  statements across processes. `PacingClient` is the client's code as classes, and
  each of its calls is shown to be a sequence of steps of the gate.
- `AgingQueue`, `DataConnectLane`, `Cadence`: the serialized lane, its queue, and
  the scheduler's deadlines under a clock that jumps.
- `AuthGuard`: the authentication guard and the callers that race around it.
- `CacheTable`, `PostureRefresh`, `DeviceRefresh`: caches refreshed under a budget.
- `SnapshotScript`, `MetricSnapshots`, `CollectorStatus`, `ScrapeBoundary`,
  `SnapshotPayload`, `SnapshotStore`: metric families with children on the heap,
  the transaction over them, the attempt record that joins it, scrapes beside it,
  and persistence. `SnapshotScript` says what a replacement means without the heap.
- `MntTree`, `MntReader`, `MntRelease`: the event-driven XML reader against a recursive
  reading, and the elements it keeps attached.
- `SqlPattern`, `NadPaging`: the wildcard translation and the two-page scan.
- `Util`, `Ordering`: shared vocabulary.

Times are `real`, ids `int`. `dafny verify dfyconfig.toml` checks everything.

## Where the code and its description differ

- The comment at `ise_exporter/collectors/dataconnect_tail.py:207-210` says that a
  minimum below the anchor means a rebuilt id space. It does not: the three reads
  are not one snapshot, so a row that becomes visible below the minimum already
  read looks the same, and the reset then counts rows again. `ResetRecounts` is
  such a run; `CommitExactIff` gives the exact condition, and `NoSpuriousReset` the
  reads and purges under which it cannot happen. `UnanchoredRecounts` is another, after
  a rebuild whose first minimum was read too early.
- `ise_exporter/config.py:357-358` allows a settle delay equal to the backfill
  floor. `SettleMustBeBelowFloor` shows that then nothing is ever counted.
- `ise_exporter/clients/rest.py:309-311` samples the clock before it reaches the
  guard's lock, so a stale caller can pull a later deadline back to a day after its own
  stamp. One failure per caller in a window of one backoff is therefore kept in every
  run if and only if the backoff plus that lag stays within a day
  (`WholeBackoffExactly`); `config.py:340` also allows a backoff of exactly a day.
  `StaleAskFails` is the run that breaks it, with three failures of two callers.
- The comment at `ise_exporter/collectors/nad_health.py:78-80` says the busiest or
  most recently seen devices are kept above the ceiling. For the busiest `max_groups`
  and the 4500 latest that holds: they are on the first page, which always fits
  (`FirstPageIsSelected`). The second page has no order, so among the others one
  seen more recently may be dropped for one seen less recently (`LaterIsDropped`). No scan drops an active device
  if and only if `max_groups` is at most 500 (`ActiveAlwaysKeptExactly`).
- `ise_exporter/snapshots.py:87` copies the map of children but not the children.
  A failed commit therefore gives replaced families, which were cleared first, their
  values back; of a labelled family that was only written it gives back the map of
  children, while a child written in place keeps the last value that reached it
  (`LeftoverIsLastWrite`).
- `ise_exporter/collectors/__init__.py:8-10` promises that a failed collection does not
  move the time of the last success. It does exactly when the staged script ran and
  validation then rejected its result (`ClaimsSuccessExactly`): the dataset also stays
  marked fresh. `RejectedClaims` is such an attempt, with one value that is not finite.

## Model

| member | source | states |
|---|---|---|
| `TailView.Configure` | ise_exporter/collectors/dataconnect_tail.py:152-154 | the settle delay is never negative and the floor is between one hour and one day, whatever is configured |
| `TailView.PickedIsSettledPrefix` | ise_exporter/collectors/dataconnect_tail.py:114-130 | the boundary arithmetic of the tail statement picks exactly the settled new rows that have no unsettled new row at or below them |
| `TailView.FoldCounts` | ise_exporter/collectors/dataconnect_tail.py:126-131 | one fold of the grouped rows: the total is the number of picked ids, each bounded series grows by the number of its picked rows (even where bounding merges label tuples), the new cursor is the greatest picked id |
| `TailCollector.Tail.CommitCycle` | ise_exporter/collectors/dataconnect_tail.py:167-255 | one cycle up to the durable commit, with its four outcomes (cold start, reset, quiet, advance): the stored cursor and anchor, and the increments still owed; in all four a minimum that was read becomes the anchor, and without one a quiet or advancing cycle keeps the old; no counter is touched |
| `TailCollector.Tail.PublishIncrements` | ise_exporter/collectors/dataconnect_tail.py:263-265 | the increments after the commit, zero ones skipped |
| `TailCollector.AddAllIsPublish` | ise_exporter/collectors/dataconnect_tail.py:237-265 | publishing the returned increments is the fold whose meaning FoldCounts gives |
| `TailExactlyOnce.AdvanceAccounts` | ise_exporter/collectors/dataconnect_tail.py:114-132 | every visible row between the old and the new cursor was either picked or cut by the floor, and its row in hand is still the row of the view |
| `TailExactlyOnce.StepKeeps` | ise_exporter/collectors/dataconnect_tail.py:187-267 | every step of the database or the collector keeps the exact count, except a rebuild, a crash that loses a committed batch, and a reset |
| `TailExactlyOnce.ExactlyOnce` | ise_exporter/collectors/dataconnect_tail.py:187-267 | in every run from boot without those steps, for every arrival order in which a row is visible before a higher id settles: a visible row in the covered range has been folded if and only if the floor did not cut it, and nothing else has been folded |
| `TailCrash.SeriesAreExact` | ise_exporter/collectors/dataconnect_tail.py:187-267 | the same in the published counters: the value of a series is the number of distinct rows folded into it |
| `TailCrash.StepKeepsCrash` | ise_exporter/collectors/dataconnect_tail.py:237-267 | every step, crashes and failures included, keeps increments equal to distinct rows folded, except a rebuild between the reads of one batch and a reset of an id space some row of which was already counted |
| `TailCrash.AtMostOnce` | ise_exporter/collectors/dataconnect_tail.py:237-267 | at most once under crashes anywhere and rebuilds outside a batch, while no counted id space is reset: over all process lives the increments of a series equal the number of distinct rows folded into it, and no id of one generation is folded twice |
| `TailCrash.NextCycleReseeds` | ise_exporter/collectors/dataconnect_tail.py:207-226 | recovery by either test of the reset: if an id space of which nothing was counted yet starts below the stored anchor, or stays below the cursor with a maximum read from it, then, whether or not cycles found it empty before, the next completed cycle takes the reset branch, reseeds one below the bottom it read or at zero, and counting is exact from there |
| `TailCrash.RebuiltStaysUncounted` | ise_exporter/collectors/dataconnect_tail.py:207-236 | a rebuilt id space is uncounted and stays so until a cycle that read it advances; a cycle over the empty view does not |
| `TailCrash.RecoveredExactly` | ise_exporter/collectors/dataconnect_tail.py:207-255 | after that reseed the rows of the rebuilt space are counted exactly, by the same rule as from boot |
| `TailReset.AnchorIsMinimum` | ise_exporter/collectors/dataconnect_tail.py:166-255 | after every commit that read a minimum the stored anchor is that minimum, until a commit reads another, starts cold or resets |
| `TailReset.CommitExactIff` | ise_exporter/collectors/dataconnect_tail.py:207-226 | a commit keeps the exact count if and only if it is not a reset of an id space some row of which was already counted |
| `TailReset.NoSpuriousReset` | ise_exporter/collectors/dataconnect_tail.py:207-213 | without a rebuild, if the minimum row read is always settled and purges remove settled rows only, the reset branch is never taken |
| `TailReset.ResetRecounts` | ise_exporter/collectors/dataconnect_tail.py:198-226 | a concrete run with no rebuild, no crash and timely rows in which two rows are counted four times, because the three reads are not one snapshot |
| `TailRebuild.PromptAtMostOnce` | ise_exporter/collectors/dataconnect_tail.py:207-267 | without a rebuild, with crashes anywhere: if rows arrive in order, minimum reads are settled and purges remove settled rows only, no reset is taken and counting is at most once |
| `TailRebuild.StepKeepsReset` | ise_exporter/collectors/dataconnect_tail.py:187-267 | every such step, rebuilds outside a batch included, keeps the cursor inside the present id space or nothing of that space counted |
| `TailRebuild.RebuiltAtMostOnce` | ise_exporter/collectors/dataconnect_tail.py:207-267 | with rebuilds outside a batch and crashes anywhere, counting is at most once if the first batch counted of an id space had its minimum read from a view that was not empty, or no anchor is stored |
| `TailRebuild.UnanchoredRecounts` | ise_exporter/collectors/dataconnect_tail.py:198-255 | without that a run with one rebuild and no crash counts two rows three times: a batch over the new rows keeps the anchor of the old id space when its minimum was read too early |
| `TailFloor.StepKeepsFloor` | ise_exporter/collectors/dataconnect_tail.py:99-130 | every prompt step keeps the rows above the cursor young enough for the next read |
| `TailFloor.GapFree` | ise_exporter/collectors/dataconnect_tail.py:99-130 | with visibility within settle, timestamp disorder at most skew, reads at most gap apart and settle + skew + gap <= floor, no row is ever cut by the floor |
| `TailFloor.CompleteAndExact` | ise_exporter/collectors/dataconnect_tail.py:99-267 | both results together: every covered visible row has been counted |
| `TailFloor.SettleMustBeBelowFloor` | ise_exporter/config.py:357-358 | a tail statement can pick some row if and only if settle is shorter than the floor; the ranges also allow equality |
| `PacingGate.PaceOf` | ise_exporter/clients/dataconnect.py:476-482 | the cooldown stretch of a duty cycle is 100 / duty - 1 |
| `PacingGate.FutureLimitIs` | ise_exporter/clients/dataconnect.py:232-238 | a stored deadline is refused beyond the greater of 36 days and one day more than the longest batch can owe |
| `PacingGate.StepKeepsClocks` | ise_exporter/clients/dataconnect.py:448-495 | every step of the gate keeps the times of a session in order and its charged time inside it |
| `PacingGate.StepKeepsLease` | ise_exporter/clients/dataconnect.py:471-495 | every step keeps the lease: the stored deadline covers the work a dying holder may still cause, up to the one-hour cap |
| `PacingRuns.StepKeepsPace` | ise_exporter/clients/dataconnect.py:691-711 | every admitted step keeps all adaptive work within its share of the span to the stored deadline |
| `PacingRuns.DutyCycle` | ise_exporter/clients/dataconnect.py:448-522 | duty-cycle bound over every crash-free run of processes sharing the gate: all adaptive statement time is at most duty percent of the span from the first adaptive start to the stored deadline, with queries, failures, batches and catalog reads mixed |
| `PacingRuns.CrashLease` | ise_exporter/clients/dataconnect.py:471-495 | at every point of every run, crashes included, the stored deadline lies at least min(3600, W * (100 / duty - 1)) after its last write, W being the work charged plus what a statement may still use |
| `PacingRuns.CrashedDutyCycle` | ise_exporter/clients/dataconnect.py:471-495 | with crashes at any point while the lease is below its cap, the share rises to at most duty / (100 - duty) |
| `PacingRuns.AnyCrashDutyCycle` | ise_exporter/clients/dataconnect.py:471-495 | with crashes at any point and any duty cycle below 100 percent, all adaptive statement time is at most the greater of duty / (100 - duty) and timeout / 180 of the span |
| `PacingRuns.WritesSpanTheGap` | ise_exporter/clients/dataconnect.py:471-522 | every lease lasts at least the minimum gap, up to one hour; every cooldown at least the minimum gap and all that is owed |
| `PacingRuns.GapBetweenSessions` | ise_exporter/clients/dataconnect.py:448-522 | in every crash-free run at least the minimum gap passes between the end of any statement and the next adaptive lease, whichever processes they belong to |
| `PacingRuns.NeverRefused` | ise_exporter/clients/dataconnect.py:453-454 | the implausible-deadline guard never refuses a deadline the gate itself stored |
| `PacingClient.SharedGate.TakeLease` | ise_exporter/clients/dataconnect.py:471-495 | the first lease, which a catalog read never lets shorten a reporting cooldown, is the gate step Lease; its length is the minimum gap or the worst case, whichever is longer, up to one hour |
| `PacingClient.SharedGate.RenewLease` | ise_exporter/clients/dataconnect.py:767-782 | the lease before each later statement of a batch is the gate step Renew |
| `PacingClient.SharedGate.MarkCheckpoint` | ise_exporter/clients/dataconnect.py:784-790 | the deadline after each completed statement of a batch is the gate step Checkpoint |
| `PacingClient.SharedGate.Unlock` | ise_exporter/clients/dataconnect.py:511-522 | the release writes the later of the new and the preserved deadline |
| `PacingClient.Client.OpenGate` | ise_exporter/clients/dataconnect.py:436-495 | local wait, lock, refusal of an implausible deadline, cooldown wait for adaptive work only, lease: it leases exactly when the deadline is plausible, as soon as the local pacing and, for adaptive work, the stored deadline are over |
| `PacingClient.Client.Query` | ise_exporter/clients/dataconnect.py:691-711 | a single statement, successful or not, is a crash-free sequence of gate steps; the times, the local deadline and the work charged are stated exactly; the pause after it is the minimum gap or what is owed, whichever is longer |
| `PacingClient.Client.BatchStatement` | ise_exporter/clients/dataconnect.py:766-790 | one turn of the batch loop, with its minimum gap before every statement but the first, renewed lease and checkpoint |
| `PacingClient.Client.CloseBatch` | ise_exporter/clients/dataconnect.py:795-811 | one cooldown for the total work of the batch: the minimum gap or what is owed, whichever is longer |
| `PacingClient.Client.QueryMany` | ise_exporter/clients/dataconnect.py:732-817 | a batch is a crash-free sequence of gate steps; it stops at the first failing statement, whose time is charged too, and is refused before any wait when too long or nested |
| `AgingQueue.AgingIsUniform` | ise_exporter/scheduler.py:157-162 | the selection key compares two entries alike at every time: aging reduces to the fixed key 900 * priority + queued_at |
| `AgingQueue.Queue.Put` | ise_exporter/scheduler.py:126-132 | appends one entry and counts one unfinished task |
| `AgingQueue.Queue.FindBest` | ise_exporter/scheduler.py:146-162 | the scan returns the first sentinel if there is one, else the first minimum of the clock-free key |
| `AgingQueue.Queue.GetNowait` | ise_exporter/scheduler.py:140-165 | removes exactly the best entry; nothing when empty |
| `AgingQueue.Queue.TaskDone` | ise_exporter/scheduler.py:167-171 | one less unfinished task, never below zero |
| `AgingQueue.BestIsUnique` | ise_exporter/scheduler.py:146-165 | the choice is a function of the pending entries, so `now` cannot influence it |
| `AgingQueue.OvertakerIsOld` | ise_exporter/scheduler.py:157-162 | an entry is overtaken by none queued later than 900 seconds per level of priority between it and the lowest in use |
| `AgingQueue.StaysDistinct` | ise_exporter/scheduler.py:838-841 | the pending sequence numbers stay distinct, as the puts are numbered upwards |
| `AgingQueue.EachGetAdvances` | ise_exporter/scheduler.py:140-165 | past that age every get either serves the entry or uses up one of those ahead of it |
| `AgingQueue.StarvationFree` | ise_exporter/scheduler.py:101-165 | starvation freedom over every sequence of puts and gets: at most one get for each other pending entry comes first |
| `DataConnectLane.StepKeeps` | ise_exporter/scheduler.py:829-849 | every step of the scheduler thread and the worker keeps each dataset in one place and the books in balance |
| `DataConnectLane.LaneSafety` | ise_exporter/scheduler.py:954-1063 | in every reachable state a dataset is at most one of queued, taken or running, the in-flight and queued-at sets are exactly those, and unfinished tasks equal pending plus held items |
| `DataConnectLane.ModesAreAsked` | ise_exporter/scheduler.py:1004-1048 | a shutdown, a stop and a started worker are in force exactly from the step that asks for them to the one that clears them |
| `DataConnectLane.AdmittedRuns` | ise_exporter/scheduler.py:954-994 | a dataset taken runs next and stays in flight if and only if no shutdown is asked for and it is the schema job or accepted by the schema applied last; a rejected one is discarded, and a shutdown or a sentinel ends the worker |
| `DataConnectLane.LeavesFlightOnly` | ise_exporter/scheduler.py:954-1063 | a dataset leaves flight only after it ran, or by a shutdown, a schema that rejects it, or a completed stop |
| `DataConnectLane.EntersFlightOnly` | ise_exporter/scheduler.py:829-849 | it enters flight only by being queued behind the others, while a worker was started and neither a stop nor a shutdown is asked for |
| `DataConnectLane.TakenIsServed` | ise_exporter/scheduler.py:954-1002 | from taking an acceptable dataset the worker runs it, takes it out of flight, counts its item done and waits again |
| `DataConnectLane.SynchronousRuns` | ise_exporter/scheduler.py:824-828 | a synchronous run is of an acceptable dataset and happens only without a worker |
| `DataConnectLane.NoRejectedCallback` | ise_exporter/scheduler.py:870-922 | no callback is ever running for a dataset that the most recently applied schema rejects, even if it was queued under an older one, and the synchronous and the worker path never run together |
| `DataConnectLane.StopComesFirst` | ise_exporter/scheduler.py:1028-1048 | after a stop request the next item taken is the sentinel, however old or urgent the backlog |
| `DataConnectLane.StopCompletes` | ise_exporter/scheduler.py:1004-1063 | after a stop request and the death of the worker the stop can always be completed, the lane is then as new but for schema and shutdown, and a new worker can start |
| `DataConnectLane.StopLeavesNothing` | ise_exporter/scheduler.py:1050-1063 | a completed stop leaves queue, in-flight and queued-at sets empty and no unfinished task |
| `Cadence.NextDeadlineIsNear` | ise_exporter/scheduler.py:224-236 | the next deadline lies in (now, now + max(1, interval) + 300]; unless the skew reset fires it is the first boundary of the old cadence after the current one that is in the future |
| `Cadence.LoopKeepsPhase` | ise_exporter/scheduler.py:1400-1404 | over any number of cycles, however late, the deadline stays on the phase of the first and moves forward |
| `Cadence.SuspensionIsBounded` | ise_exporter/scheduler.py:607-616 | a dataset not due at one reading is due at every reading at least max(1, delay) + 300 seconds later |
| `Cadence.HeldBackExactly` | ise_exporter/scheduler.py:607-616 | a completed attempt holds its dataset back exactly from 300 seconds before its completion to its deadline |
| `AuthGuard.Guard.Blocked` | ise_exporter/auth_guard.py:86-90 | answers whether the stored deadline is ahead, and pulls one more than a day ahead back |
| `AuthGuard.Guard.Failure` | ise_exporter/auth_guard.py:92-100 | the new count and deadline of a recorded failure; below the threshold it never moves the deadline later |
| `AuthGuard.Guard.Success` | ise_exporter/auth_guard.py:102-104 | clears count and deadline |
| `AuthGuard.StepKeepsBudget` | ise_exporter/clients/rest.py:309-343 | every step of the racing callers keeps the budget of a window no longer than the backoff that ends within a day of the oldest stamp still in use |
| `AuthGuard.LockoutBudget` | ise_exporter/clients/rest.py:490-498 | from any state in which the next failure blocks, with no success, such a window holds at most one recorded failure for each caller, although checking, attempting and recording are separate steps |
| `AuthGuard.StaleAskFails` | ise_exporter/clients/rest.py:309-311 | the failing run: a caller whose clock was sampled before another's failure pulls the deadline back, and both fail again inside the window |
| `AuthGuard.BudgetExactly` | ise_exporter/clients/rest.py:309-343 | for every policy and length of window: every run keeps the budget if and only if the length is at most the backoff and, with the lag, at most a day |
| `AuthGuard.WholeBackoffExactly` | ise_exporter/config.py:340 | for a window of one whole backoff of up to a day: if and only if backoff and lag together are at most a day |
| `AuthGuard.BudgetIsTight` | ise_exporter/clients/rest.py:309-343 | the bound is reached: two callers past the check both record in one window |
| `CacheTable.Table.PutRow` | ise_exporter/state.py:600-617 | an upsert replaces exactly one row |
| `CacheTable.Table.FinishCycle` | ise_exporter/state.py:497-556 | active rows are marked seen, others survive only within the grace, all else is pruned |
| `PostureRefresh.PolicyIsClamped` | ise_exporter/collectors/mnt_active_posture.py:459-472 | between one and 250 requests a cycle, and the least rotation that covers all details within the time they stay current |
| `PostureRefresh.PlanIsPrefix` | ise_exporter/collectors/mnt_active_posture.py:475-484 | mandatory, expired and rotation, joined without repeats and cut to the budget, are a prefix of one list: the missing or changed endpoints, then the others oldest first |
| `PostureRefresh.DueComesFirst` | ise_exporter/collectors/mnt_active_posture.py:475-484 | every endpoint that is missing, changed or expired is planned if they fit the budget, and nothing else is planned if they do not |
| `PostureRefresh.RunCycle` | ise_exporter/collectors/mnt_active_posture.py:473-498 | one whole cycle on the cache table: plan, store each detail, mark and prune; each row afterwards is stated from the row before |
| `PostureRefresh.CycleServes` | ise_exporter/collectors/mnt_active_posture.py:482-484 | each cycle serves a full rotation share of the endpoints still waiting, or leaves none waiting |
| `PostureRefresh.EveryEndpointRefreshed` | ise_exporter/collectors/mnt_active_posture.py:473-498 | with unchanged signatures, all fetches succeeding and a budget of ceil(n * interval / ttl), every endpoint is fetched within ceil(ttl / interval) cycles, from any cache in which its own row, if current, is stamped before the first of them |
| `DeviceRefresh.UncachedFirst` | ise_exporter/collectors/devices.py:167-175 | in the refresh order the uncached devices come first |
| `DeviceRefresh.PlanShape` | ise_exporter/collectors/devices.py:166-194 | the auto-sized plan is a prefix of that order: all uncached devices and a rotation slice, up to the ceiling |
| `DeviceRefresh.NewDevicesFetched` | ise_exporter/collectors/devices.py:176-194 | while they fit under the ceiling, every uncached device is fetched in the pass that first sees it |
| `DeviceRefresh.PlanIsBounded` | ise_exporter/collectors/devices.py:176-194 | however sized, a pass fetches at most 10000 devices, only ones that need it and none twice; an explicit budget is used in full when there is work for it |
| `DeviceRefresh.StopsAtThird` | ise_exporter/collectors/devices.py:191-208 | the loop ends exactly at the first third failure in a row |
| `DeviceRefresh.DetailCache.FetchDetails` | ise_exporter/collectors/devices.py:191-218 | the paced loop stores exactly the successes at once, leaves every other row, counts the failures, and issues exactly the requests up to the third failure in a row |
| `DeviceRefresh.AllFetched` | ise_exporter/collectors/devices.py:194-218 | without failures it stores the whole plan |
| `DeviceRefresh.PassServes` | ise_exporter/collectors/devices.py:176-220 | a pass that leaves a stale row waiting takes a full rotation slice out of the queue before it |
| `DeviceRefresh.StaleRowRefreshed` | ise_exporter/collectors/devices.py:176-220 | a row stale at the first pass carries a time of these passes from pass number ceil(ttl / slow_interval) on, even while new devices keep arriving |
| `SnapshotScript.EffectIsLocal` | ise_exporter/snapshots.py:96-108 | what a commit leaves in a family depends on the actions on that family alone |
| `SnapshotScript.OutputIgnoresPast` | ise_exporter/snapshots.py:96-108 | a successful replacement leaves in every replaced family exactly what its writers put there, whatever was published before |
| `SnapshotScript.LeftoverIsLastWrite` | ise_exporter/snapshots.py:85-119 | after a rollback a child differs from the backup only if a write reached it in place, before a clear or a removal, and then it holds the last such value |
| `SnapshotScript.ReplacedComesBack` | ise_exporter/snapshots.py:96-119 | after a rollback at any point every replaced family has its labels and values back |
| `MetricSnapshots.Family.Change` | ise_exporter/snapshots.py:98-106 | clearing, writing or removing a child on the heap, with the cases that raise; an existing child is written in place, and a backup of the children sees exactly that |
| `MetricSnapshots.Act` | ise_exporter/snapshots.py:96-108 | one action on the heap: families and saved children are what the script so far makes of the start, and stay so |
| `MetricSnapshots.Write` | ise_exporter/snapshots.py:105-108 | writers run in order up to the first that raises |
| `MetricSnapshots.ReplaceAll` | ise_exporter/snapshots.py:96-106 | all staged replacements in order, on the heap, equal the script up to the first action that raises, in what is published and in what the backup still holds |
| `SnapshotScript.SamplesAreCounted` | ise_exporter/snapshots.py:47-54 | the number checked against the limit counts every label tuple of every replaced family once |
| `MetricSnapshots.ValidateCount` | ise_exporter/snapshots.py:47-54 | fails exactly when the replaced families hold more than 20000 samples |
| `MetricSnapshots.ValidateFinite` | ise_exporter/snapshots.py:26-44 | fails exactly when some sample of some family is not finite; info payloads are skipped |
| `MetricSnapshots.Rollback` | ise_exporter/snapshots.py:111-119 | puts back every map of children and every cell; the children hold what the script left in them |
| `MetricSnapshots.Commit` | ise_exporter/snapshots.py:74-120 | the transaction: it succeeds exactly when no writer raises and the result is valid, then every family holds the result of the script; otherwise every family has its map of children or its cell back, each child with the value left in it by what was performed |
| `CollectorStatus.SourceOfName` | ise_exporter/collectors/__init__.py:68-78 | every dataset belongs to one of three sources, by its name |
| `CollectorStatus.CommitOutcome` | ise_exporter/collectors/__init__.py:207-233 | the success writer never raises: the commit stands or falls with the collector's own families, and then shows the success and withdraws the explanation |
| `CollectorStatus.FailureOutcome` | ise_exporter/collectors/__init__.py:162-192 | recording a failure never raises, leaves its dataset exactly one published explanation, and touches no success value |
| `CollectorStatus.Monitor.BeginAttempt` | ise_exporter/collectors/__init__.py:138-141 | clears the outcome of its dataset and nothing else |
| `CollectorStatus.Monitor.RecordFailure` | ise_exporter/collectors/__init__.py:162-192 | one more failure in a row, a failed outcome and its cause in the record, all other entries kept, and the explanation published in place of the previous one |
| `CollectorStatus.Monitor.Observe` | ise_exporter/collectors/__init__.py:195-253 | an observed attempt: success exactly when the body did not raise and the commit was accepted, with the metadata in the same commit and the count back at zero; otherwise a failure is recorded on top of the rolled-back families; the whole new state of metrics and record is given either way, every other dataset's entries are kept, and the published explanations are exactly the recorded failures |
| `CollectorStatus.RecordTellsHistory` | ise_exporter/collectors/__init__.py:128-253 | over any history of attempts the record tells of each dataset how its last attempt came out, how many failed since its last success, and the cause of the last if it failed |
| `CollectorStatus.UndoneExactly` | ise_exporter/collectors/__init__.py:195-253 | a failed attempt leaves its success values exactly when its staged script ran, in exactly the children that existed, and nothing else |
| `CollectorStatus.ObservedTells` | ise_exporter/collectors/__init__.py:195-253 | after any attempt the published outcome, count and explanations agree with the record |
| `CollectorStatus.FailedAttempt` | ise_exporter/collectors/__init__.py:207-253 | after a failed attempt the replaced families are as before, and so are the time of the last success, the freshness mark and its time stamp, unless the success writer was reached |
| `CollectorStatus.ClaimsSuccessExactly` | ise_exporter/collectors/__init__.py:207-253 | a failed attempt moves the time of an earlier success if and only if its body did not raise and its staged script ran |
| `CollectorStatus.RejectedClaims` | ise_exporter/collectors/__init__.py:207-253 | such an attempt: one staged value that is not finite, after an earlier success |
| `ScrapeBoundary.StepKeeps` | ise_exporter/snapshots.py:57-65 | every step of interleaved commits, rollbacks and scrapes keeps the boundary |
| `ScrapeBoundary.ScrapesAreWhole` | ise_exporter/snapshots.py:57-138 | however commits, rollbacks and scrapes of several threads interleave, a completed scrape has read all families as one release of the lock left them: a replaced family or a single cell as the last standing commit left it, a family only written with the same labels, where each value is of that commit or was written by a failed one since |
| `SnapshotPayload.BytesAreCounted` | ise_exporter/snapshots.py:171-172 | the UTF-8 length of a label (RFC 3629 section 3): one byte a character and one more from each of three code points on |
| `SnapshotPayload.FloatOf` | ise_exporter/snapshots.py:233-237 | numbers, flags and texts read as numbers as Python's float does, nothing else does |
| `SnapshotPayload.BytesPerCharacter` | ise_exporter/snapshots.py:171-172 | the UTF-8 length of a label lies between one and four bytes a character |
| `SnapshotPayload.RoundTrip` | ise_exporter/snapshots.py:157-255 | every payload of storable families passes all checks of a restore into families of the same declarations and gives back every label tuple and value |
| `SnapshotPayload.AcceptedExactly` | ise_exporter/snapshots.py:196-243 | a restore accepts exactly the payloads of version 1 with an item for every family and no other, its label names, fitting samples that read as finite numbers, one sample in a single cell and at most 20000 in all; and it reads the samples that stand there |
| `SnapshotStore.ListFamily` | ise_exporter/snapshots.py:168-189 | lists every sample once, in some order, or fails on a label over 256 bytes or a value that is no number |
| `SnapshotStore.Serialize` | ise_exporter/snapshots.py:157-193 | succeeds exactly when every value is finite, every label fits, names are present and distinct and at most 20000 samples exist; then the payload lists every family completely |
| `SnapshotStore.RestoreRuns` | ise_exporter/snapshots.py:245-255 | the commit of a prepared payload cannot fail |
| `SnapshotStore.ReplaceNow` | ise_exporter/snapshots.py:141-154 | an immediate replacement outside an observation, undone in full when it fails |
| `SnapshotStore.Restore` | ise_exporter/snapshots.py:196-255 | succeeds exactly for such a payload; a rejected one changes nothing, an accepted one leaves exactly the prepared samples, from any prior contents |
| `SnapshotStore.SnapshotSurvives` | ise_exporter/snapshots.py:157-255 | across a restart, what was serialized appears unchanged |
| `SnapshotStore.RunKeepsWellFormed` | ise_exporter/snapshots.py:96-108 | label arity and single cells survive every script, so the round trip always applies |
| `MntTree.NamespaceIsPrefix` | ise_exporter/clients/rest.py:100-101 | a name is the tag after its first closing brace, the whole tag when there is none |
| `MntTree.SpacesAreListed` | ise_exporter/clients/rest.py:150 | white space is what Python strips: 29 characters |
| `MntTree.StripFacts` | ise_exporter/clients/rest.py:150 | stripping removes the white space at both ends, all of it, and nothing else |
| `MntTree.TotalIsFirst` | ise_exporter/clients/rest.py:131-134 | the session total is the first attribute of that name, none when there is none |
| `MntReader.NodeRuns` | ise_exporter/clients/rest.py:118-185 | one subtree, in any context: the events are accepted exactly when the limits leave room for it, and the effect is that of the recursive reading |
| `MntReader.ReaderRefines` | ise_exporter/clients/rest.py:104-192 | for every element tree the event reader returns if and only if the document is within the limits, and then total, active records, auth records and detail equal the recursive reading |
| `MntReader.LimitsAlwaysHold` | ise_exporter/clients/rest.py:123-185 | after any events whatever all limits hold and no record has more than 128 fields |
| `MntReader.Parse` | ise_exporter/clients/rest.py:187-192 | the loop over chunks equals one pass over all events, however they are cut |
| `MntRelease.RunIsExact` | ise_exporter/clients/rest.py:118-185 | however far the parser builds ahead, the elements attached are exactly those on the reader's path and those of unread events |
| `MntRelease.ElementsHeld` | ise_exporter/clients/rest.py:179-192 | completed elements are released: once the events of a chunk are read exactly the path of the open elements is attached, and before that at most one edge more for each unread event |
| `SqlPattern.ChainIsSubstitution` | ise_exporter/cli.py:1417-1421 | the five chained replacements are one substitution per character |
| `SqlPattern.NoDanglingEscape` | ise_exporter/cli.py:1417-1421 | every escape in the result is followed by a character it may escape |
| `SqlPattern.TranslationKeepsMeaning` | ise_exporter/cli.py:1417-1421 | a text is LIKE the result (ISO/IEC 9075-2 section 8.5) exactly when it matches the upper-cased normalised * and ? pattern |
| `SqlPattern.EscapedStarMatchesAll` | ise_exporter/cli.py:1417-1421 | a backslash before a wildcard is dropped and does not make it literal |
| `NadPaging.TotalIsExact` | ise_exporter/collectors/nad_health.py:177-178 | the total read off page one is the number of groups |
| `NadPaging.ScanIsComplete` | ise_exporter/collectors/nad_health.py:173-194 | for any two rankings of one data state the pages are disjoint, each stays under 6000 rows, and together they return exactly the groups within the volume limit or the recency cap |
| `NadPaging.SubsetsAreExact` | ise_exporter/collectors/nad_health.py:204-212 | the volume subset has min(limit, total) groups and the recency subset min(cap, total), so the two consistency checks never fail |
| `NadPaging.CreditIsFull` | ise_exporter/collectors/nad_health.py:236-243 | the credit of a device is the sum of the passed and of the failed events of its rows, and the latest of their times |
| `NadPaging.Accumulate` | ise_exporter/collectors/nad_health.py:228-243 | every configured device gets full credit for all its rows of both pages: passed and failed events summed apart, and the latest time; the active ones keep the order first seen |
| `NadPaging.OrderDoesNotMatter` | ise_exporter/collectors/nad_health.py:228-243 | the credit does not depend on the order of rows or pages |
| `NadPaging.Select` | ise_exporter/collectors/nad_health.py:251-255 | active devices first, then the sorted inventory up to the ceiling |
| `NadPaging.ActiveSelectedExactly` | ise_exporter/collectors/nad_health.py:251-255 | every active device is selected if and only if the active ones fit under the ceiling |
| `NadPaging.FirstPageIsSelected` | ise_exporter/collectors/nad_health.py:177-255 | every configured device among the busiest `limit` or the 4500 latest groups is selected, in whatever order each page returns its rows |
| `NadPaging.KeepsActiveExactly` | ise_exporter/collectors/nad_health.py:177-255 | a scan keeps every device with a row if and only if those devices fit under the ceiling |
| `NadPaging.ActiveAlwaysKeptExactly` | ise_exporter/collectors/nad_health.py:78-80 | every scan keeps every device with a row if and only if the volume limit and the recency cap together are at most the ceiling |
| `NadPaging.LaterIsDropped` | ise_exporter/collectors/nad_health.py:177-255 | for every limit above 500 a scan whose second page returns its latest group last: recency rank 4501 is dropped while rank 10001 - limit is selected |
| `NadPaging.SelectionFacts` | ise_exporter/collectors/nad_health.py:251-255 | no duplicates, min(10000, configured) devices, only configured ones, all of them when they fit, active ones first |

## Left out

- Label projection, schema fallbacks and the floor-audit projection of the tail
  statement; the cursor's `updated_at`, which only selects that audit.
- Rows with a NULL timestamp, which the tail statement ignores; a row's insertion
  and its becoming visible are one step; ids stored as REAL, which lose unit steps
  above 2^53.
- TailExactlyOnce.ExactlyOnce: assumes no reset, since it is false with one; the
  exact condition is `CommitExactIff`.
- Polling of the gate's lock, and gates that are switched off or unusable; a
  statement is assumed to last at most four timeouts.
- PacingRuns.CrashedDutyCycle: only for crashes while the lease is below its cap;
  `AnyCrashDutyCycle` is the bound without that condition.
- The scheduler's other lanes, its retry delays, and the due test and the
  schema-in-flight exception before a put, which only make puts rarer.
- TailCrash.AtMostOnce: no rebuild between the reads of one batch, which would mix two
  id spaces, and no reset of an id space some row of which was counted, which
  `ResetRecounts` and `UnanchoredRecounts` show to count it again; `PromptAtMostOnce`
  and `RebuiltAtMostOnce` say when no such reset can occur.
- AuthGuard.LockoutBudget: no success in the window, as a success clears the count.
- PostureRefresh.EveryEndpointRefreshed: not for an endpoint whose own current row is
  stamped at or after the first cycle, as after a clock set back.
- Fetches that fail inside a posture cycle, which keep the old detail; the worker
  pool and request pacing of both refreshers; pruning of the device cache is part of
  a pass, not of `CacheTable`.
- DeviceRefresh.StaleRowRefreshed: every request succeeds and the inventory does not
  shrink below its first size.
- MetricSnapshots.Commit: writers write families of the transaction, and a child
  belongs to the family that made it.
- ScrapeBoundary.ScrapesAreWhole: that a replaced family is written only after it was
  cleared in the same commit is a guard on the writers.
- CollectorStatus.Monitor.Observe: staged writers write families of their own or an
  earlier replacement, and not the metadata families; durations, the scrape-error counter and the
  exception type are not modelled, nor the explanations that the schema gate
  publishes for blocked datasets in the same two families; a removal of an absent
  label raises, and is shown not to happen.
- The module dictionaries of the attempt record are one value held by the class,
  updated after the metrics; in the source they change one by one under the lock.
- The staging flag of nested transactions; reentrancy of the snapshot lock.
- SnapshotStore.Restore: for gauge families, as its callers pass; how a string is
  read as a float is a parameter. JSON text and its 32 MiB limit are not modelled.
- MntReader.Parse: events of a tree stand for the XML parser, which is not part of
  this model; which limit is reported first is not distinguished.
- MntRelease.ElementsHeld: as long as the reader has not raised; after that the whole
  tree is dropped.
- SqlPattern.TranslationKeepsMeaning: upper-casing is one character to one character
  and fixes the special characters; characters whose upper case is longer are not
  covered.
- NadPaging.ScanIsComplete: both pages see one data state; the database may change
  between the two statements.
- Text of timestamps, counts and metric labels; case folding is applied beforehand.
- Oracle, SQLite, HTTP, TLS and file locking themselves; logs; metric declarations;
  configuration loading; pxGrid; rendering; the certificate, licensing, backup,
  patch and deployment collectors, which are straight-line validation.
