# Formal model of the kindergarten backend's stateful core

A Dafny model of the parts of the backend that are state machines over tables,
queues and timers, with proofs about all their runs. Each part has a value-level
description of its state and steps, lemmas about every run of those steps, and,
where the service changes state, classes whose methods work statement by
statement as the service does and are proved to have the effect of those steps.
The `Outcomes` files say of each call, without its own functions, when it is
refused, with which error, and what it leaves in the fields of each row
(`Refusals` holds their ordered lists of checks).

| part | files |
|---|---|
| Attendance register: events, timeline mirror, daily status, audit log | `AttendanceModel`, `AuditReplay`, `TimelineMirror`, `DailyStatusView`, `RegisterDatabase`, `AttendanceService`, `TimelineService`, `AttendanceOutcomes` |
| Civil calendar and Almaty day windows | `DecimalText`, `CivilCalendar` |
| Custom discounts and their nightly expiry | `Discounts`, `DiscountRuns`, `DiscountService`, `DiscountExpiry`, `DiscountOutcomes` |
| BCC reconciliation: back-off, passes, chains, leases | `BccReconciliation`, `BccChain`, `BccLeases`, `BccOutcomes` |
| Kaspi polling cadence | `KaspiPolling` |
| WebSocket gateway: sockets, jti index, timers | `GatewaySockets`, `NotificationGateway` |
| Auth: roles, sessions, one-time codes | `AuthRoles`, `AuthSessions`, `AuthService`, `AuthOutcomes`, `OtpAttempts` |
| Presigning of media links in responses | `MediaTree`, `MediaHeap`, `MediaSignInterceptor` |

`dafny verify dfyconfig.toml` checks everything.

## Assumptions

- Asia/Almaty is the fixed +05:00 the attendance service states, and
  `toLocaleDateString('en-CA')` prints what `almatyToday` prints. Instants are
  unbounded integers of milliseconds; calendar arithmetic follows section 15.9.1
  of ECMA-262 edition 5.1.
- A service call is one atomic step that rolls back when it throws, and reads the
  clock once. Where other calls can come between its statements (the check and
  the statement of a discount update, reconciliation passes, WebSocket
  handshakes), or part of it is committed earlier (role selection, a refresh
  without an ambient transaction, the blocklist), the steps are the smaller ones.
- Ids drawn at random are parameters; a clash with a stored primary key is the
  error of the constraint.
- Rows of other modules (staff, children, groups, guardians, pickups), the bank,
  the storage, the target resolver and the clock answer arbitrarily at every call.
- `socket.disconnect(true)` runs `handleDisconnect` at once, and only once.
- Reconciliation jobs run no earlier than their delay; in the lease model every
  pass ends within its lease.
- A blocklist entry lasts as long as the access token it blocks.
- Discount conditions carry the verdict of their schema; texts, enum values and ids
  of discounts are such as their columns take. Integers, amounts and timestamps
  have the ranges of their columns.
- A signing failure is a rejected promise, so it is cached like a success.

## Where code and documentation differ

The model follows the code.

- The expiry statement also takes paused discounts, which the repository contract
  and the service comment do not mention (`DiscountExpiry.PausedRowsExpireToo`).
- `update` checks neither the priority nor the ranges of the columns: an amount or
  a cap past its range passes and fails in the statement
  (`DiscountRuns.CheckedUpdateLandsExactlyWhen`, `CapOfThreeThousandMillion`).
- Day windows are right only from year 100 on
  (`CivilCalendar.DayWindowExactlyFromYear100`), and so is the recomputed status
  (`DailyStatusView.PatchKeepsPresentExactlyFromYear100`).
- The jti index is described as holding live sockets. A socket that leaves during
  its subscription, or whose token has no expiry or runs out by its end, is
  indexed all the same (`GatewaySockets.OnlyLiveExactlyWhen`).
- A revocation is meant to reach every socket of its jti. One that is past its
  blocklist lookup and still subscribing escapes it, and only such a one
  (`GatewaySockets.OnlyPastLookupEscapes`, `PastLookupEscapes`).
- A parent login over several kindergartens is meant to stay unscoped, but its
  first refresh binds the token to one of them
  (`AuthRoles.RefreshKeepsTheRoleExactlyWhen`, `AuthRoles.GuardianOfSeveralNarrows`).
- Role selection does not look at the app the pending login was for
  (`AuthSessions.PendingStaffLoginSelectsAdmin`).

## Model

| member | source | states |
|---|---|---|
| `CivilCalendar.TomorrowIsNextDay` | src/modules/attendance/attendance.service.ts:1279-1296 | day numbers and civil dates agree with the calendar: the date of the next day number is tomorrow, across month ends and leap years |
| `CivilCalendar.PrintParse` | src/modules/attendance/attendance.service.ts:1279-1296 | reading back a printed date of year 100 or later, plus any number of days, gives that midnight: printing and parsing are inverse |
| `CivilCalendar.PrintInjective` | src/modules/attendance/attendance.service.ts:1279-1286 | different civil dates print differently |
| `CivilCalendar.DayWindow` | src/modules/attendance/attendance.service.ts:793-794 | from year 100 on, an instant lies in `[from, to)` of a printed date exactly when that is its own local day and its own printed date |
| `CivilCalendar.DayWindowExactlyFromYear100` | src/modules/attendance/attendance.service.ts:1293-1296 | the previous property holds for all instants if and only if the date is of year 100 or later |
| `CivilCalendar.EarlyYearMisread` | src/modules/attendance/attendance.service.ts:1293-1296 | before year 100 no instant lies in the window of its own printed date (`Date.UTC` reads years 0 to 99 as 1900 to 1999, a sign splits off) |
| `CivilCalendar.NextMidnight` | src/modules/attendance/attendance.service.ts:1288-1296 | `addDays = 1` reaches the midnight that the next civil date starts at |
| `AuditReplay.StepKeepsReplay` | src/modules/attendance/attendance.service.ts:338-346 | every call of either service, successful or not, keeps the log a replay of the events table |
| `AuditReplay.ReplayRebuildsEvents` | src/modules/audit/audit.service.ts:48-62 | in every run, folding the audit rows of attendance events in order rebuilds the live events with their contents and the ids of the deleted ones |
| `AuditReplay.ReplayMeaning` | src/modules/audit/audit.service.ts:48-62 | a log folds if and only if each event has one create first, every later before-image is the preceding after-image and nothing follows a delete; the fold then holds the last after-images |
| `AuditReplay.AuditTrailIsExact` | src/modules/attendance/attendance.service.ts:590-599 | both together, for every run: the log is chained, and the last after-image of an id is its live row, if any |
| `TimelineMirror.StepKeepsMirror` | src/modules/attendance/attendance.service.ts:696-750 | one call of either service keeps the mirror sound, and keeps it complete unless it edits or deletes a timeline row |
| `TimelineMirror.MirrorsStaySound` | src/modules/attendance/timeline.service.ts:158-161 | in every run, timeline edits included, an event has at most one mirror, each mirror is of a live event with the same child, type and author, and every check-in or check-out entry is one |
| `TimelineMirror.MirrorsStayComplete` | src/modules/attendance/attendance.service.ts:269-284 | in every run without timeline edits each live event has a mirror at its own time |
| `TimelineMirror.ExactlyOneMirror` | src/modules/attendance/attendance.service.ts:423-438 | in every run without timeline edits a live event has exactly one mirror, agreeing on child, type, time and original author, and a deleted one has none |
| `DailyStatusView.WriteKeepsView` | src/modules/attendance/attendance.service.ts:757-771 | writing and logging one event and settling the buckets it left and entered keeps the whole status table equal to the derived one |
| `DailyStatusView.StatusIsDerived` | src/modules/attendance/attendance.service.ts:297-335 | in every run without explicit statuses: present exactly on buckets with a live check-in, absent exactly on those that had one at some moment of the run and no longer do, missing elsewhere |
| `DailyStatusView.PatchKeepsPresentExactlyFromYear100` | src/modules/attendance/attendance.service.ts:580-588 | the date restriction of the previous row is exact: after a check-in and an empty patch the status is present if and only if the check-in is of year 100 or later |
| `DailyStatusView.ChangesAreAutomatic` | src/modules/attendance/attendance.service.ts:773-854 | one call other than `setDailyStatus` moves a status only from missing, absent or late to present with a live check-in, or from present to absent with none |
| `DailyStatusView.RunsChangeAutomatically` | src/modules/attendance/attendance.service.ts:773-889 | in every run, `setDailyStatus` included, each other call changes each status automatically, as above, or not at all |
| `DailyStatusView.EverCheckedInMeans` | src/modules/audit/audit.service.ts:48-62 | the log shows a check-in in a bucket exactly when a live one was there at some moment of the run |
| `DailyStatusView.ExplicitStatusesStay` | src/modules/attendance/attendance.service.ts:858-889 | in every run a bucket is sick, on vacation or picked up early exactly when that is the last status an operator set, and late only then |
| `DailyStatusView.OrderIsIrrelevant` | src/modules/attendance/attendance.service.ts:763-770 | recomputing buckets one after another equals settling the set of them: order and repetition do not matter |
| `DailyStatusView.RecomputeIsIdempotent` | src/modules/attendance/attendance.service.ts:787-854 | a second recompute of the same buckets, by anyone at any time, changes nothing |
| `RegisterDatabase.Database.UpdatePresentIfAbsentOrLate` | src/modules/attendance/infrastructure/persistence/relational/repositories/child-daily-status.relational.repository.ts:124-154 | the conditional update promotes absent or late and nothing else, a missing row included, and returns the row as it then is |
| `RegisterDatabase.Database.FindBySourceEventId` | src/modules/attendance/infrastructure/persistence/relational/repositories/timeline-entry.relational.repository.ts:92-105 | finds a mirror if and only if there is one |
| `RegisterDatabase.AuditService.Record` | src/modules/audit/audit.service.ts:48-62 | appends one row and touches nothing else |
| `AttendanceServices.AttendanceService.CheckIn` | src/modules/attendance/attendance.service.ts:235-368 | the statement-by-statement method does what the check-in call does to all four tables as a whole, or throws its error and changes nothing; the log still replays and the mirror is still sound |
| `AttendanceServices.AttendanceService.CheckOut` | src/modules/attendance/attendance.service.ts:370-474 | the same for a check-out, with the pickup checks |
| `AttendanceServices.AttendanceService.PatchEvent` | src/modules/attendance/attendance.service.ts:478-602 | the same for a correction: checks in the order of the service, then event, mirror, both buckets and log |
| `AttendanceServices.AttendanceService.CheckPatch` | src/modules/attendance/attendance.service.ts:484-578 | the checks before a correction report the first that fails, and write nothing |
| `AttendanceServices.AttendanceService.DeleteEvent` | src/modules/attendance/attendance.service.ts:617-663 | the same for a soft delete |
| `AttendanceServices.AttendanceService.CascadeTimeline` | src/modules/attendance/attendance.service.ts:696-750 | the mirror follows its event, is replaced under its original author when the type flips, and stays missing when it was missing |
| `AttendanceServices.AttendanceService.RecomputeAffectedDailyStatuses` | src/modules/attendance/attendance.service.ts:757-771 | the loop over the bucket map settles exactly the bucket left and the one entered |
| `AttendanceServices.AttendanceService.RecomputeDailyStatus` | src/modules/attendance/attendance.service.ts:787-854 | settles one bucket from the live check-ins in its window and leaves the others alone |
| `AttendanceServices.AttendanceService.SetDailyStatus` | src/modules/attendance/attendance.service.ts:858-913 | overwrites one bucket and logs it as create or update |
| `TimelineServices.TimelineService.CreateEntry` | src/modules/attendance/timeline.service.ts:151-222 | reserved types are refused; an entry of the staff service never mirrors an event; the register stays sound |
| `TimelineServices.TimelineService.UpdateEntry` | src/modules/attendance/timeline.service.ts:226-277 | changes content and time only, for its author or an admin; the register stays sound |
| `TimelineServices.TimelineService.DeleteEntry` | src/modules/attendance/timeline.service.ts:281-309 | removes the row, for its author or an admin; the register stays sound |
| `TimelineServices.TimelineService.CheckWriter` | src/modules/attendance/timeline.service.ts:233-252 | the shared guard of update and delete reports the first failing check |
| `Discounts.AggregateRefusal` | src/modules/billing/domain/entities/custom-discount.entity.ts:114-168 | building the aggregate succeeds exactly when amount, validity, priority, target shape and conditions are all acceptable |
| `DiscountRuns.RunsAreSound` | src/modules/billing/infrastructure/persistence/relational/repositories/custom-discount.relational.repository.ts:281-330 | in every interleaving of all steps: counters between zero and the cap and within their column, drafts unused and unseen, one announcement per discount at most, rows storable |
| `DiscountRuns.CapIsNeverExceeded` | src/modules/billing/custom-discount.repository.ts:148-217 | in every interleaving `0 <= used_count`, and `used_count <= total_max_uses` for every cap that is set and not negative |
| `DiscountRuns.CapIsReached` | src/modules/billing/custom-discount.repository.ts:168-190 | the cap is tight: for every cap the column holds and every number of uses up to it there is a run that uses it so often |
| `DiscountRuns.UnguardedCapEdit` | src/modules/billing/custom-discount.repository.ts:112-125 | why the cap is edited in draft only: from any state of any run, an unguarded update that sets a cap leaves the row within it exactly when it is not below the uses already made |
| `DiscountRuns.UsedIsGrantedLessReturned` | src/modules/billing/custom-discount.repository.ts:183-217 | in every run the counter is the number of reservations granted less the number of releases that found a slot |
| `DiscountRuns.RunsEvolve` | src/modules/billing/custom-discount.service.ts:198-397 | between any two moments of a run: never back to draft, terms frozen after draft, cancelled and expired final, no row deleted, no announcement withdrawn |
| `DiscountRuns.AnnouncedWithTheFlip` | src/modules/billing/custom-discount.service.ts:294-335 | the outbox grows exactly when a step flips a draft that announces itself to at least one child, and then by that announcement alone |
| `DiscountRuns.ActivationIsAllOrNothing` | src/modules/billing/custom-discount.service.ts:263-339 | an activation flips the row and files its announcement, if any, or changes nothing at all; it changes nothing exactly when the row is no draft of the kindergarten, or it would announce and the resolver throws |
| `DiscountRuns.AnnouncedAtMostOnce` | src/modules/billing/custom-discount.service.ts:263-339 | over any run a discount is announced at most once, and never as a draft |
| `DiscountRuns.StoredRowsAreAcceptable` | src/modules/billing/infrastructure/persistence/relational/repositories/custom-discount.relational.repository.ts:175-182 | in every interleaving, overtaken updates included, every stored row is one the columns hold and the aggregate accepts: an update reads its row back and undoes itself otherwise |
| `DiscountRuns.CheckedUpdateLandsExactlyWhen` | src/modules/billing/custom-discount.service.ts:198-255 | an update whose check passed lands, with nothing in between, exactly when the priority it leaves is not negative and the columns hold the merged terms: the check looks at everything else |
| `DiscountRuns.OversizedCapPassesTheCheck` | src/database/migrations/1777890000000-B16CustomDiscounts.ts:53-84 | inputs it fails on: on any draft, any cap past the integer range passes the check and is refused by the statement |
| `DiscountRuns.OversizedAmountPassesTheCheck` | src/database/migrations/1777890000000-B16CustomDiscounts.ts:58 | and so is any amount that the aggregate accepts and numeric(10,2) does not hold |
| `DiscountRuns.OtherTenantsUntouched` | src/modules/billing/infrastructure/persistence/relational/repositories/custom-discount.relational.repository.ts:200-203 | steps of other kindergartens never change a kindergarten's row |
| `DiscountServices.CustomDiscountRepository.Update` | src/modules/billing/infrastructure/persistence/relational/repositories/custom-discount.relational.repository.ts:123-183 | the conditional update throws on parameters or an amount out of range, lands on a row of an expected status if the merged terms read back as acceptable, and otherwise leaves nothing behind |
| `DiscountServices.CustomDiscountRepository.TransitionStatus` | src/modules/billing/infrastructure/persistence/relational/repositories/custom-discount.relational.repository.ts:185-211 | the conditional flip, returning the row or null |
| `DiscountServices.CustomDiscountRepository.TryReserveUsage` | src/modules/billing/infrastructure/persistence/relational/repositories/custom-discount.relational.repository.ts:281-310 | takes one slot if there is one, and says whether it did; throws when an uncapped counter is at the end of its column |
| `DiscountServices.CustomDiscountRepository.ReleaseUsage` | src/modules/billing/infrastructure/persistence/relational/repositories/custom-discount.relational.repository.ts:312-330 | gives one slot back, never below zero |
| `DiscountServices.CustomDiscountRepository.FindActiveCustomDiscounts` | src/modules/billing/infrastructure/persistence/relational/repositories/custom-discount.relational.repository.ts:332-349 | returns exactly the active rows whose window covers the time |
| `DiscountServices.CustomDiscountRepository.MarkExpiredBatch` | src/modules/billing/infrastructure/persistence/relational/repositories/custom-discount.relational.repository.ts:368-394 | expires exactly the overdue active and paused rows of the kindergarten and returns their ids |
| `DiscountServices.CustomDiscountService.Create` | src/modules/billing/custom-discount.service.ts:131-187 | validates, then stores a draft with no uses, if the columns hold it |
| `DiscountServices.CustomDiscountService.CheckPatch` | src/modules/billing/custom-discount.service.ts:203-240 | the read half of `update`: what it refuses, and that it writes nothing |
| `DiscountServices.CustomDiscountService.ApplyPatch` | src/modules/billing/custom-discount.service.ts:241-254 | the write half of `update`, from whatever state the row is in by then |
| `DiscountServices.CustomDiscountService.Activate` | src/modules/billing/custom-discount.service.ts:263-339 | has the effect of one atomic activation step, roll-back included |
| `DiscountServices.CustomDiscountService.ConditionalTransition` | src/modules/billing/custom-discount.service.ts:449-470 | a flip, or the error for the row as it is found |
| `DiscountServices.CustomDiscountService.Cancel` | src/modules/billing/custom-discount.service.ts:361-376 | cancels a draft, active or paused discount |
| `DiscountServices.CustomDiscountService.ExpireOverdue` | src/modules/billing/custom-discount.service.ts:383-397 | has the effect of one expiry step and returns the ids flipped |
| `DiscountExpiry.DiscountExpireProcessor.Process` | src/modules/billing/discount-expire.processor.ts:82-132 | one tick expires exactly the overdue rows of the kindergartens whose transaction commits; it reports the number of rows flipped, and processed = successes + errors |
| `DiscountExpiry.DiscountExpireProcessor.RunForKindergarten` | src/modules/billing/discount-expire.processor.ts:140-152 | one kindergarten's transaction, undone when it throws |
| `DiscountExpiry.TickLeavesNothingOverdue` | src/modules/billing/discount-expire.processor.ts:102-132 | after a tick nothing is overdue where it succeeded, failing kindergartens are untouched, and a second tick at the same time flips nothing |
| `DiscountExpiry.LaterTickSubsumes` | src/modules/billing/discount-expire.processor.ts:62-64 | a later tick expires all an earlier one would have, and only what became overdue since if the earlier one ran |
| `BccReconciliation.ConfigFromEnv` | src/modules/billing/bcc-reconciliation.constants.ts:11-26 | whatever the environment holds, all settings are positive and the first delay is at least five minutes |
| `BccReconciliation.DelayIsMonotone` | src/modules/billing/bcc-reconciliation.constants.ts:28-34 | the delay never shrinks with more attempts and lies between min(base, max) and max |
| `BccReconciliation.DelayDoubles` | src/modules/billing/bcc-reconciliation.constants.ts:28-34 | for attempts 1 to 30 the next delay is twice this one, capped at the maximum |
| `BccReconciliation.DelaySaturates` | src/modules/billing/bcc-reconciliation.constants.ts:28-34 | from attempt 31 on the delay is constant, and it is the maximum if and only if base * 2^30 reaches it |
| `BccReconciliation.PaymentRepository.ClaimBccReconciliation` | src/modules/billing/infrastructure/persistence/relational/repositories/payment.relational.repository.ts:424-456 | claims exactly a pending payment that is due and not under review, counting the attempt and taking the lease |
| `BccReconciliation.BccReconciliationService.ReconcileOnce` | src/modules/billing/bcc-reconciliation.service.ts:40-168 | the statement-by-statement pass has the outcome, row and bank query of the pass as a whole |
| `BccReconciliation.BccReconciliationProcessor.Process` | src/modules/billing/bcc-reconciliation.processor.ts:23-57 | ignores a job of another name; otherwise runs one pass and queues the next tick exactly on a reschedule, under the next tick's id, due when the pass asked |
| `BccReconciliation.JobIdsAreDistinct` | src/modules/billing/bcc-reconciliation.processor.ts:41-45 | job ids of a queue determine payment and tick |
| `BccChain.TickProgress` | src/modules/billing/bcc-reconciliation.service.ts:56-68 | before the cap a due tick asks the bank and moves the next time strictly forward, at most to the cap; at or after it the bank is not asked and the payment goes to review |
| `BccChain.SilentChainTerminates` | src/modules/billing/bcc-reconciliation.service.ts:151-168 | a chain without a verdict has strictly increasing ticks, at most ceil(cap / min(base, max)) + 1 of them, and only the last can reach the cap |
| `BccChain.ChainEndsInReview` | src/modules/billing/bcc-reconciliation.service.ts:60-68 | such a chain stops only in manual review, at the cap, having asked the bank once at every earlier tick |
| `BccLeases.LeaseIsExclusive` | src/modules/billing/bcc-reconciliation.service.ts:70-95 | for any number of workers, crashes and outside settlements included: if each pass ends within its lease, at most one worker holds a lease at any moment |
| `BccLeases.QueriesNeedClaims` | src/modules/billing/bcc-reconciliation.service.ts:79-101 | every bank query, by a worker that crashes later too, is paid for by a claim counted on the row: a worker that loses the claim never asks |
| `BccLeases.RescheduleStaysInLease` | src/modules/billing/bcc-reconciliation.service.ts:156-165 | a holder's reschedule never moves the next time past its own lease |
| `BccLeases.NewcomerClaimsExactlyAfterTheLease` | src/modules/billing/bcc-reconciliation.service.ts:70-78 | the timing assumption is exact: while one worker holds the lease a newcomer gets one too if and only if time has run past its end |
| `BccLeases.UndisturbedPass` | src/modules/billing/bcc-reconciliation.service.ts:40-149 | the steps of one worker with nothing in between are the service's pass |
| `KaspiPolling.CadenceFromEnv` | src/modules/billing/kaspi-payment-status.constants.ts:39-76 | every setting is positive, and the defaults have ordered windows |
| `KaspiPolling.KaspiPaymentStatusProcessor.Process` | src/modules/billing/kaspi-payment-status.processor.ts:48-90 | ignores a job of another name; otherwise queues the next tick exactly on a reschedule, with the delay for the payment's age, and reports the outcome |
| `KaspiPolling.JobIdsNeverRepeat` | src/modules/billing/kaspi-payment-status.processor.ts:67-81 | the ticks of a chain are consecutive and its job ids never repeat |
| `KaspiPolling.PollsAreBounded` | src/modules/billing/kaspi-payment-status.processor.ts:100-109 | for ordered windows, the ticks at ages below the cap number at most the sum over the three windows of length over interval, rounded up |
| `GatewaySockets.StepKeepsValid` | src/websocket/notification.gateway.ts:84-158 | every step, at every await, keeps the index exact, its sets non-empty and every record sound |
| `GatewaySockets.RunsAreValid` | src/websocket/notification.gateway.ts:84-268 | the same for every interleaving of connections, disconnects, timers and revocations |
| `GatewaySockets.LiveSocketIsIndexedAndTimed` | src/websocket/notification.gateway.ts:117-127 | every live socket that finished its handshake is in the index under exactly its jti and has a timer due at min(exp, handshake + 24 h) |
| `GatewaySockets.OnlyLiveAfter` | src/websocket/notification.gateway.ts:115-127 | a step keeps the index free of dead sockets if and only if it is not the end of a subscription, with a jti, on a socket that has gone or whose token has no expiry or has run out; once broken it stays broken |
| `GatewaySockets.OnlyLiveExactlyWhen` | src/websocket/notification.gateway.ts:115-127 | the same for runs: the index holds only live sockets if and only if the run has no such step |
| `GatewaySockets.DropWhileSubscribing` | src/websocket/notification.gateway.ts:115-127 | a run in which it fails, for any client and token: the client leaves during its subscription |
| `GatewaySockets.ExpiryWhileSubscribing` | src/websocket/notification.gateway.ts:225-233 | another: the client stays, but its token runs out during the subscription |
| `GatewaySockets.RevokeDisconnectsAll` | src/websocket/notification.gateway.ts:176-191 | a revocation leaves no live finished socket with the jti and no other finished socket changed |
| `GatewaySockets.EscapesFinishLater` | src/websocket/notification.gateway.ts:176-191 | in every run, a socket live under a jti at any moment after its revocation finished its handshake after it |
| `GatewaySockets.OnlyPastLookupEscapes` | src/websocket/notification.gateway.ts:96-127 | and if the blocklist knows the jti from then on, it was between its lookup and the end of its subscription at the revocation |
| `GatewaySockets.PastLookupEscapes` | src/websocket/notification.gateway.ts:96-127 | for any client and unexpired token, a run in which such a socket does escape |
| `NotificationGateways.NotificationGateway.RevokeJti` | src/websocket/notification.gateway.ts:165-191 | the loop over a snapshot, while disconnects shrink the set, has the effect of revoking them all at once and returns the snapshot's size |
| `NotificationGateways.NotificationGateway.OnSubscribed` | src/websocket/notification.gateway.ts:115-127 | the last segment of a handshake: timer, then index |
| `NotificationGateways.NotificationGateway.OnBlocklistReply` | src/websocket/notification.gateway.ts:96-115 | the segment after the blocklist lookup |
| `NotificationGateways.NotificationGateway.Disconnect` | src/websocket/notification.gateway.ts:143-158 | disconnecting clears the timer and the index entry, once |
| `NotificationGateways.NotificationGateway.ScheduleExpiryDisconnect` | src/websocket/notification.gateway.ts:214-249 | schedules the expiry, or disconnects at once without an expiry or when it has passed |
| `NotificationGateways.NotificationGateway.UnindexSocketByJti` | src/websocket/notification.gateway.ts:260-267 | removes the socket and drops a set it emptied |
| `AuthRoles.AssembleRoles` | src/modules/auth/auth.service.ts:863-945 | the loops over assignments, staff rows and guardian links build the assembled roles and their distinct kindergartens |
| `AuthRoles.KindergartensFromRoles` | src/modules/auth/auth.service.ts:812-824 | the kindergartens of a role list in order of first appearance |
| `AuthRoles.OneRolePerKindergarten` | src/modules/auth/auth.service.ts:901-932 | assembled roles are never empty, at most one per kindergarten, staff winning over parent; only a user with neither gets the unscoped parent role |
| `AuthRoles.MentorGroup` | src/modules/auth/auth.service.ts:877-895 | a mentor's group is the last assignment flagged primary there, else the first there, and none only without any |
| `AuthRoles.RolesForApp` | src/modules/auth/auth.service.ts:842-856 | only roles the app allows remain, and for the parent app always at least one |
| `AuthRoles.LoginPendsExactlyWhen` | src/modules/auth/auth.service.ts:699-723 | a login pends exactly for staff or admin with two or more roles of which none is in the requested kindergarten |
| `AuthRoles.LoginChoosesAnAllowedRole` | src/modules/auth/auth.service.ts:689-720 | the chosen role is allowed by the app and, for staff and admin, bound to a kindergarten |
| `AuthRoles.RotationStaysInTenant` | src/modules/auth/auth.service.ts:970-983 | a session bound to a kindergarten rotates only to it, an unbound one only to the parent role |
| `AuthRoles.RefreshKeepsTheRoleExactlyWhen` | src/modules/auth/auth.service.ts:700-712 | with unchanged roles a refresh picks the very role the login chose, if and only if it is not a parent login over several kindergartens, which narrows to one |
| `AuthRoles.GuardianOfSeveralNarrows` | src/modules/auth/auth.service.ts:970-978 | the inputs it fails on: a user who is only a guardian, in two kindergartens or more, logs in bound to none and is refreshed into the first |
| `AuthSessions.RunsAreSound` | src/modules/auth/auth.service.ts:279-479 | every run of login, role selection, refresh and logout, from rows without an audience, keeps chains and tokens sound |
| `AuthSessions.TokensStayInAudienceAndTenant` | src/modules/auth/auth.service.ts:318-349 | in every run a token with an audience carries a role that audience allows, stays in its session's kindergarten, and is a parent's when the session has none |
| `AuthSessions.ChainsNeverDrift` | src/modules/auth/infrastructure/persistence/relational/repositories/refresh-token.repository.ts:79-116 | along a rotation chain user, kindergarten and audience never change and at most one row is still usable |
| `AuthSessions.HonouredAtMostOnce` | src/modules/auth/infrastructure/persistence/relational/repositories/refresh-token.repository.ts:79-116 | over any run a refresh token is honoured at most once, and never when it was revoked before |
| `AuthSessions.SelectionKeepsTheAppExactlyWhen` | src/modules/auth/auth.service.ts:379-428 | a selection begins a session of the app the pending login was for if and only if that app allows the selected role |
| `AuthSessions.ReplacedTokensStayBlocked` | src/modules/auth/auth.service.ts:299-304 | in every run each access token that a successful selection or refresh replaced, or a logout presented, is on the blocklist at the end |
| `AuthSessions.BlocklistOnlyGrows` | src/modules/auth/auth.service.ts:372-374 | nothing in a run unblocks a token |
| `AuthServices.AuthService.IssueTokensForUser` | src/modules/auth/auth.service.ts:660-776 | a pending login gets a token and no refresh row, any other a row and a token bound to the chosen role |
| `AuthServices.AuthService.SelectRole` | src/modules/auth/auth.service.ts:379-479 | role selection by the holder of a token: the old access token is blocked and the row committed before the user lookup |
| `AuthServices.AuthService.RefreshToken` | src/modules/auth/auth.service.ts:279-360 | rotation, blocklisting, re-resolved roles and the errors in between |
| `AuthServices.AuthService.Logout` | src/modules/auth/auth.service.ts:362-375 | revokes one session or all of a user's, and blocks the access token |
| `OtpAttempts.GuessesAreBounded` | src/modules/auth/auth.service.ts:634-658 | over any run comparisons never exceed three per code stored, and acceptances never the codes stored |
| `OtpAttempts.EachCodeIsSpent` | src/modules/auth/auth.service.ts:634-658 | code by code, until the next is stored: acceptances made and possible, and comparisons made and possible, never grow |
| `OtpAttempts.EachCodeIsAcceptedOnce` | src/modules/auth/auth.service.ts:634-658 | each stored code is compared at most three times and accepted at most once, after which it is gone |
| `OtpAttempts.StoresAreRateLimited` | src/modules/auth/auth.service.ts:230-241 | within a rate window at most the remaining requests store a code |
| `OtpAttempts.ThirdWrongGuessLocks` | src/modules/auth/auth.service.ts:651-656 | any wrong guesses at a fresh code lock the phone and remove the code exactly at the third |
| `OtpAttempts.LockedMeansNothingHappens` | src/modules/auth/auth.service.ts:227-229 | until the lock expires nothing is stored, compared or accepted |
| `OtpAttempts.OtpService.RequestOtp` | src/modules/auth/auth.service.ts:204-255 | stores a fresh code unless the app is closed to the phone, the phone is locked, or the counted requests exceed the limit |
| `OtpAttempts.OtpService.ConsumeOtp` | src/modules/auth/auth.service.ts:634-658 | compares once, then accepts, counts or locks |
| `OtpAttempts.OtpService.IncrementAttempts` | src/modules/auth/infrastructure/redis/redis-otp-store.adapter.ts:63-65 | counts on the stored hash, which is created anew if it has just expired |
| `MediaTree.TransformIsOneMap` | src/common/interceptors/media-sign.interceptor.ts:182-281 | for every body, collect, sign and replace together are one structural map: each link of ours below the root becomes the signed URL of its key or stays when signing fails; all else and the shape are unchanged |
| `MediaSigning.CollectMediaUrls` | src/common/interceptors/media-sign.interceptor.ts:224-241 | the walk gathers exactly the strings of the body that are links of ours, shared containers included, and changes nothing |
| `MediaHeap.AdvancedView` | src/common/interceptors/media-sign.interceptor.ts:244-266 | where some slots below a container have been replaced already, what it reads as once all are is the same, and a container fully replaced does not change |
| `MediaSigning.ReplaceMediaUrls` | src/common/interceptors/media-sign.interceptor.ts:244-266 | overwriting slots in place yields the replaced tree, for trees, and for bodies that share containers when no signed URL in the map is replaced by another |
| `MediaSigning.MediaSignInterceptor.SignAll` | src/common/interceptors/media-sign.interceptor.ts:196-219 | every link gets its entry, and the storage is asked once for each distinct key and for no other |
| `MediaSigning.MediaSignInterceptor.Transform` | src/common/interceptors/media-sign.interceptor.ts:182-188 | in the heap, the body ends as the structural map of what it was, each of its keys asked for once; a body may share containers unless a URL its links are signed to is itself a link in it, signed to another |
| `MediaSigning.SignedMapIsSettled` | src/common/interceptors/media-sign.interceptor.ts:196-219 | enough for any sharing: the signed URL of each link in the body, read as a link, is to its own key if to any |
| `CivilCalendar.MonthLengths` | src/modules/attendance/attendance.service.ts:1293-1296 | the lengths of the months, leap years included |
| `CivilCalendar.Epoch` | src/modules/attendance/attendance.service.ts:1279-1286 | day 0 is 1 January 1970, which with the step to the next day fixes every date |
| `CivilCalendar.AlmatyDay` | src/modules/attendance/attendance.service.ts:1271-1281 | a local day runs from 19:00 UTC to 19:00 UTC |
| `CivilCalendar.Midnight` | src/modules/attendance/attendance.service.ts:1293-1296 | the midnight of a printed date, and those some days later, in milliseconds |
| `CivilCalendar.PrintedForm` | src/modules/attendance/attendance.service.ts:1279-1286 | a date of years 1000 to 9999 prints as `YYYY-MM-DD` |
| `AttendanceOutcomes.CheckInRefusal` | src/modules/attendance/attendance.service.ts:235-262 | when a check-in is refused, and with which error first |
| `AttendanceOutcomes.CheckInLeaves` | src/modules/attendance/attendance.service.ts:244-346 | the rows a check-in leaves, field by field, and that it leaves no other |
| `AttendanceOutcomes.CheckOutRefusal` | src/modules/attendance/attendance.service.ts:370-403 | when a check-out is refused: without a pickup request the pickup must be one of the child |
| `AttendanceOutcomes.CheckOutLeaves` | src/modules/attendance/attendance.service.ts:405-451 | the rows a check-out leaves, and that no status changes |
| `AttendanceOutcomes.PatchThrowsItsRefusal` | src/modules/attendance/attendance.service.ts:478-588 | a correction fails exactly with the error of its checks |
| `AttendanceOutcomes.PatchRefusals` | src/modules/attendance/attendance.service.ts:484-570 | the checks of a correction of a live event, in order |
| `AttendanceOutcomes.PatchNeedsALiveEvent` | src/modules/attendance/attendance.service.ts:484-500 | and of any other |
| `AttendanceOutcomes.PatchLeaves` | src/modules/attendance/domain/entities/attendance-event.entity.ts:234-253 | each field a correction sets reads its value, each absent one its old value; method, author and creation time never change, and a check-in ends without pickup |
| `AttendanceOutcomes.CorrectionMovesTheCheckIn` | src/modules/attendance/attendance.service.ts:572-588 | after a correction exactly the buckets with another live check-in, and the one of the new child and time if it is a check-in, hold one |
| `AttendanceOutcomes.CorrectionMovesTheStatus` | src/modules/attendance/attendance.service.ts:787-854 | and of the two buckets touched, one with a live check-in no longer reads missing, absent or late, one without not present |
| `AttendanceOutcomes.PatchLeavesTheTimeline` | src/modules/attendance/attendance.service.ts:696-737 | other timeline rows stay; the mirror keeps its text and follows child and time, or goes when the type flips |
| `AttendanceOutcomes.FlipMakesTheMirrorAnew` | src/modules/attendance/attendance.service.ts:727-750 | a flipped event gets a new mirror with its text, under the original author |
| `AttendanceOutcomes.DeleteRefusal` | src/modules/attendance/attendance.service.ts:617-630 | when a deletion is refused |
| `AttendanceOutcomes.DeleteLeaves` | src/modules/attendance/attendance.service.ts:627-662 | a deletion marks the row, drops its mirror alone and logs what it was |
| `AttendanceOutcomes.SettledRow` | src/modules/attendance/attendance.service.ts:787-854 | what a recompute makes of a row: a demotion keeps the note, and each change names who and when |
| `AttendanceOutcomes.SetDailyStatusRefusal` | src/modules/attendance/attendance.service.ts:858-875 | when an explicit status is refused |
| `AttendanceOutcomes.SetDailyStatusLeaves` | src/modules/attendance/attendance.service.ts:866-903 | an explicit status overwrites its row and logs both |
| `AttendanceOutcomes.CreateEntryRefusal` | src/modules/attendance/timeline.service.ts:151-190 | when a timeline entry is refused, and with which error first |
| `AttendanceOutcomes.CreateEntryLeaves` | src/modules/attendance/timeline.service.ts:192-209 | the entry it leaves, without a source event |
| `AttendanceOutcomes.EntryRefusals` | src/modules/attendance/timeline.service.ts:233-252 | who may touch an entry, and with which error first |
| `AttendanceOutcomes.UpdateEntryRefusal` | src/modules/attendance/timeline.service.ts:254-265 | the further checks of an update |
| `AttendanceOutcomes.UpdateEntryLeaves` | src/modules/attendance/timeline.service.ts:267-275 | each field an update sets reads its value, each absent one its old value; child, type, author and source never change |
| `AttendanceOutcomes.DeleteEntryLeaves` | src/modules/attendance/timeline.service.ts:281-309 | a deletion removes its row alone |
| `DiscountOutcomes.PauseOutcome` | src/modules/billing/custom-discount.service.ts:341-349 | pausing takes an active discount of the kindergarten to paused and changes nothing else, or reports the row as it is |
| `DiscountOutcomes.ResumeOutcome` | src/modules/billing/custom-discount.service.ts:351-359 | resuming takes a paused one to active |
| `DiscountOutcomes.CancelOutcome` | src/modules/billing/custom-discount.service.ts:361-376 | cancelling takes a draft, active or paused one to cancelled |
| `DiscountOutcomes.ResumeUndoesPause` | src/modules/billing/custom-discount.service.ts:341-359 | pausing and resuming undo each other |
| `DiscountOutcomes.ActivateOutcome` | src/modules/billing/custom-discount.service.ts:263-339 | activation takes a draft to active and announces it once, with its texts and to the children resolved, if it is to be announced and reaches somebody |
| `DiscountOutcomes.AggregateErrors` | src/modules/billing/domain/entities/custom-discount.entity.ts:114-168 | the errors of the aggregate, in order |
| `DiscountOutcomes.CreateOutcome` | src/modules/billing/custom-discount.service.ts:131-187 | a new discount is a draft with the given terms and no uses |
| `DiscountOutcomes.UpdateOutcome` | src/modules/billing/infrastructure/persistence/relational/repositories/custom-discount.relational.repository.ts:131-183 | each term an update sets reads its value, each absent one its old value; status, counter and kindergarten never change |
| `DiscountOutcomes.UpdateErrors` | src/modules/billing/infrastructure/persistence/relational/repositories/custom-discount.relational.repository.ts:166-182 | the errors of an update that finds its draft, in order |
| `DiscountOutcomes.UpdateMisses` | src/modules/billing/custom-discount.service.ts:247-253 | an update that does not find its draft reports the row as it is |
| `DiscountOutcomes.CheckOutcome` | src/modules/billing/custom-discount.service.ts:203-240 | what the check before an update looks at, and what it does not |
| `DiscountOutcomes.ReserveOutcome` | src/modules/billing/infrastructure/persistence/relational/repositories/custom-discount.relational.repository.ts:297-309 | a slot is taken exactly when the row is the kindergarten's and below its cap |
| `DiscountOutcomes.ReleaseOutcome` | src/modules/billing/infrastructure/persistence/relational/repositories/custom-discount.relational.repository.ts:322-329 | a slot given back leaves one use less, never below none |
| `DiscountOutcomes.ActiveOutcome` | src/modules/billing/infrastructure/persistence/relational/repositories/custom-discount.relational.repository.ts:338-347 | invoicing is given the kindergarten's active discounts that have begun and not ended |
| `DiscountOutcomes.ExpireOutcome` | src/modules/billing/infrastructure/persistence/relational/repositories/custom-discount.relational.repository.ts:377-389 | a row reads expired after the statement exactly when it did before, or is of the kindergarten, active or paused, and past its end; nothing else changes |
| `DiscountOutcomes.RangeOutcome` | src/database/migrations/1777890000000-B16CustomDiscounts.ts:58-67 | the ranges of the columns in figures |
| `DiscountExpiry.WholeTick` | src/modules/billing/discount-expire.processor.ts:102-132 | the same over a whole tick for the kindergartens that succeed; the rows counted are those whose status changed |
| `DiscountOutcomes.SucceedingOutcome` | src/modules/billing/discount-expire.processor.ts:109-121 | which kindergartens succeed |
| `BccOutcomes.ConfigMeans` | src/modules/billing/bcc-reconciliation.constants.ts:11-41 | the settings in figures |
| `BccOutcomes.FirstDelay` | src/modules/billing/bcc-reconciliation.constants.ts:28-34 | the first wait is the base delay, or the maximum if that is less |
| `BccOutcomes.IdlePass` | src/modules/billing/bcc-reconciliation.service.ts:44-54 | a payment that is not a pending BCC one is left alone |
| `BccOutcomes.ReviewPass` | src/modules/billing/bcc-reconciliation.service.ts:60-68 | at the cap the payment goes to review, is not asked about and not retried |
| `BccOutcomes.LosingPass` | src/modules/billing/bcc-reconciliation.service.ts:79-95 | a pass that loses the claim changes nothing, does not ask, and comes back when the row says |
| `BccOutcomes.ClaimingPass` | src/modules/billing/bcc-reconciliation.service.ts:97-168 | a pass that claims asks the bank and settles as completed exactly on a full answer of success for this order, as failed exactly on one of terminal failure; otherwise it comes back after the delay of its attempt, at most at the cap |
| `BccOutcomes.OnlyVerdictsSettle` | src/modules/billing/bcc-reconciliation.service.ts:118-144 | over any run of workers a payment reads completed or failed only if it began so or a step settled it so |
| `BccOutcomes.FinishSettles` | src/modules/billing/bcc-reconciliation.service.ts:118-144 | and a worker that finishes on a verdict does settle a payment still processing |
| `BccOutcomes.LateRescheduleIsLost` | src/modules/billing/infrastructure/persistence/relational/repositories/payment.relational.repository.ts:464-476 | a reschedule after settlement or review changes nothing |
| `KaspiPolling.CadenceMeans` | src/modules/billing/kaspi-payment-status.constants.ts:39-76 | the settings in figures |
| `KaspiPolling.DefaultPolls` | src/modules/billing/kaspi-payment-status.constants.ts:39-67 | with the fallbacks a chain runs at most 1418 ticks below the cap |
| `GatewaySockets.HandshakeOutcome` | src/websocket/notification.gateway.ts:84-141 | step by step, who is turned away, who goes on, and when a finished socket is cut off |
| `GatewaySockets.CutOffOutcome` | src/websocket/notification.gateway.ts:143-158 | a drop or a fired timer cuts off its socket and nothing more of it |
| `GatewaySockets.OthersUntouched` | src/websocket/notification.gateway.ts:84-268 | steps of one socket leave all others alone |
| `GatewaySockets.RevokeOutcome` | src/websocket/notification.gateway.ts:176-191 | a revocation cuts off exactly the live finished sockets of its jti |
| `GatewaySockets.TimerIsNotEarly` | src/websocket/notification.gateway.ts:225-248 | no live socket is cut off by its timer before its token's end or a day after its handshake |
| `AuthOutcomes.AppRoles` | src/modules/auth/auth.service.ts:54-58 | which roles each app admits |
| `AuthOutcomes.AssembledExactly` | src/modules/auth/auth.service.ts:887-932 | the role views a user has, one for each staff row, with its group only for a mentor, and each guardian link that counts |
| `AuthOutcomes.KindergartensExactly` | src/modules/auth/auth.service.ts:812-824 | the kindergartens of a role list are those of its roles, each once |
| `AuthOutcomes.KindergartensGrow` | src/modules/auth/auth.service.ts:812-824 | and a further role adds its own at the end, if it is new |
| `AuthOutcomes.RequestedKindergartenIsGranted` | src/modules/auth/auth.service.ts:713-717 | a staff or admin user who holds a role for the app in the requested kindergarten gets a row and a token bound to it, with that role |
| `AuthOutcomes.OnlyRoleIsGranted` | src/modules/auth/auth.service.ts:718-720 | one whose only role for the app is elsewhere gets a session bound to that one |
| `AuthOutcomes.OtherwiseTheLoginPends` | src/modules/auth/auth.service.ts:722-743 | one with two roles and none in the requested kindergarten gets a token without role or session |
| `AuthOutcomes.NoRoleNoLogin` | src/modules/auth/auth.service.ts:677-680 | a staff or admin login is refused exactly without a role for the app |
| `AuthOutcomes.ParentLogin` | src/modules/auth/auth.service.ts:700-712 | a parent login always opens a parent session, bound to the user's kindergarten as a guardian if there is exactly one, else to none |
| `AuthOutcomes.SelectedExactly` | src/modules/auth/auth.service.ts:383-406 | the role a selection gives: the user's post there if it is the one named, else parent if that is named and the user is a guardian there |
| `AuthOutcomes.SelectionOutcome` | src/modules/auth/auth.service.ts:379-458 | the errors of a selection in order, and the session it opens |
| `AuthOutcomes.RefreshErrors` | src/modules/auth/auth.service.ts:288-341 | the errors of a refresh in order: the token must be known, not revoked and not expired |
| `AuthOutcomes.RefreshLeaves` | src/modules/auth/infrastructure/persistence/relational/repositories/refresh-token.repository.ts:79-116 | a refresh revokes the old row and opens one of the same user, kindergarten and audience under the new expiry |
| `AuthOutcomes.PostIsReissued` | src/modules/auth/auth.service.ts:979-982 | a session bound to a kindergarten is re-issued the post the user holds there, if its app admits it |
| `AuthOutcomes.GuardianIsReissued` | src/modules/auth/auth.service.ts:979-982 | or parent, for a guardian on the parent app, or nothing once the link is lost |
| `AuthOutcomes.LogoutOutcome` | src/modules/auth/auth.service.ts:362-375 | a logout revokes the named row, or without a name all of the user's, and nothing else |
| `OtpAttempts.AcceptedExactlyWhen` | src/modules/auth/auth.service.ts:634-650 | a submission is accepted exactly when the phone is not locked and the stored code is the one submitted; then the code is gone |
| `OtpAttempts.RejectedExactlyWhen` | src/modules/auth/auth.service.ts:651-657 | otherwise it is locked, expired or invalid, each exactly when, with what it leaves |
| `OtpAttempts.SentExactlyWhen` | src/modules/auth/auth.service.ts:204-255 | when a code is sent and when a request is refused, each exactly, with what it leaves |
| `OtpAttempts.SentCodeIsAccepted` | src/modules/auth/auth.service.ts:634-650 | a phone that got a code is let in by it, after up to two wrong guesses |
| `OtpAttempts.ExpiryOutcome` | src/modules/auth/infrastructure/redis/redis-otp-store.adapter.ts:18-69 | what runs out takes nothing else with it |
| `MediaTree.TransformedAt` | src/common/interceptors/media-sign.interceptor.ts:182-281 | place by place: the same leaf, a container of the same keys and size, or the same string, except that a link of ours whose key is signed reads as its signed URL |
| `MediaTree.TransformedRoot` | src/common/interceptors/media-sign.interceptor.ts:244-266 | the root, a string too, stays what it was |

## Left out

- DailyStatusView.StatusIsDerived: stated for instants in year 100 or later, because the recompute misreads earlier dates; `PatchKeepsPresentExactlyFromYear100` shows the bound is exact.
- DailyStatusView.RunsChangeAutomatically: for instants in year 100 or later, for the same reason; before it, as the same lemma shows, a patch demotes a status that has a live check-in.
- DiscountRuns.CapIsNeverExceeded: says nothing of a negative cap, which the service does not reject; the counter then stays zero, as `RunsAreSound` states.
- BccLeases.LeaseIsExclusive: needs every pass to end within its lease; `NewcomerClaimsExactlyAfterTheLease` shows that it is exactly what is needed.
- KaspiPolling.PollsAreBounded: assumes ordered windows and a known creation time; an unknown one counts as now, so such a chain keeps its shortest delay.
- MediaSigning.ReplaceMediaUrls: cyclic bodies are not covered, nor shared containers when a signed URL is itself a link in the body to another key, which would then be replaced twice.
- One kindergarten's rows: the register models a single tenant; row-level security is not part of this model.
- `incrementUsedCount`, the per-child usage limit and the discount engine: reservation no longer uses the first, the others only filter.
- `PaymentService` settlement beyond the status flip, invoices, refunds and webhooks.
- The Kaspi poller behind `pollOnce`: only its outcome and creation time are used.
- The super-admin sessions, which repeat login and rotation with one role.
- SMS delivery, the login throttle of super admins, code generation and hashing of codes and tokens.
- The channel from the blocklist to the gateway: a revocation reaches it as a step of its own.
- `resolveMediaKey` and URL parsing: an arbitrary function from strings to keys.
- Notifications, outbox rows of attendance calls, logging, identity overlays, listing, paging and day summaries.
- Surrogate ids and timestamps that no property needs: ids of daily-status rows (their bucket stands for them), `created_at` and `updated_at` of discounts and payments.
- Timeline metadata is a map of strings; values of other types are not modelled.
- `DiscountTargetResolver` and `WsAutoSubscribeService`: their answers are arbitrary.
- Controllers, guards, DTO validation, presenters and migrations, apart from the constraints cited.
