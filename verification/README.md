# Verified model of COD's core state machines

This project models the parts of the COD repository where state changes step by step and money, credentials or data are at stake, and proves what every step and every run of them keeps:

- **The prepaid-usage engine** of the control plane: one user's wallet, credit grants with expiry, usage reservations with leases, an append-only ledger, an idempotency map, chat requests and payment orders; and the database over all users, with reaping.
- **Synced tasks**: devices, tasks, execution leases, the event log, and the browser's side of claiming a task.
- **Registration challenges**: email code, phone code, lock, supersede, consume, replay, cleanup.
- **The 2048 game**: the in-place move, the score, spawning, win and game over, on a board of any size.
- **The launch coordinator** of the desktop sidecar, **mobile logout** over storage that may fail, and the **budgeted walk** over workspace files.

## How it is built

Every part whose source changes objects in place is a class whose methods do the same changes: `UserState.State`, `MemoryStore.MemoryDatabase`, `TaskStore.TaskState`, `TaskClient.Client`, `RegistrationStore.RegistrationDesk`, `GamePlay.Game`, `LaunchCoordinator.GooseLaunchCoordinator`, `MobileSession.Device`, `WorkspaceWalk.TraversalBudget`. Each method is proved against a function on plain values (in `Funds`, `Usage`, `TaskBoard`, `Registration`, `Lines`/`Game2048`, `LaunchCoordinator`, `WorkspaceWalk`), and the theorems are about those functions and about runs of them. The modules named `…Outcomes` say what each call answers, writes and leaves alone in terms of the records, the moment and the call alone, without the functions that compute it; `…Checks` there list the grounds of refusal in the order in which they answer. `MemoryStore.MemoryDatabase.PerformAll`, `GamePlay.Game.Play` and `MobileSession.Device.LoadsAndLogouts` carry out whole runs on the objects.

| files | contents |
|---|---|
| `Common`, `JsMap`, `Draws` | sums, a JavaScript `Map` in insertion order, taking amounts out of a row of pots |
| `Funds`, `FundsTheorems`, `ReserveSettle` | allocation over grants, its optimality, and hold-then-charge |
| `Usage`, `UsageFunds`, `UsageMoney`, `UsageBooks`, `UsageRuns` | every billing operation; the money and the books invariants; all runs |
| `UsageTheorems`, `UsageFencing`, `Reaping`, `ReapOrder` | replays and refused settlements, ended executions, reaping in any order, and which reservations a bounded reap releases |
| `UsageOutcomes`, `DatabaseOutcomes` | what every billing call answers, charges and changes, for one user and over all |
| `UserState`, `MemoryStore` | the objects behind it |
| `TaskBoard`, `TaskTheorems`, `TaskFencing`, `TaskOutcomes`, `TaskStore`, `TaskClient` | synced tasks, their event log, leases, claims and outcomes |
| `Registration`, `RegistrationSafety`, `RegistrationTheorems`, `RegistrationOutcomes`, `RegistrationCodes`, `RegistrationStore` | registration challenges, and the codes that verify them |
| `Lines`, `Game2048`, `Traversal`, `GamePlay`, `GameOutcomes` | the 2048 game |
| `LaunchCoordinator`, `MobileSession`, `WorkspaceWalk`, `WorkspaceOutcomes` | the three smaller cores |

## Conventions of the model

- The clock is a parameter `now`, read once per call. Fencing theorems assume it never runs back; the money, book and registration theorems hold for any clock.
- Records that are never deleted (grants, tasks, devices, events, ledger entries) have their position or a serial number for an id; random ids and tokens are only ever compared for equality. Lease tokens and verification codes stand for their hashes.
- Client idempotency keys and the keys of payment orders live in separate name spaces (the datatype `LedgerKey`).
- A usage entry's reference text is represented by its parts: source, model and task.
- Errors are values (`Err`), and what a failing call leaves behind is part of its specification.
- Grants may be given any expiry; amounts are unbounded integers, as the source's cents stay far below the range where its numbers lose precision.

## Findings

Four properties do not hold without a condition. For each there is a concrete case and the exact condition.

- *An idempotency key creates at most one identity.* The record of a key is deleted by a cleanup a day after its use, and the key then works again (`KeyCreatesTwice`). A step loses the record in exactly two ways: a cleanup from the end of the day on that reaches it within its limit, or an email code that goes out under the id of its challenge (`StepLosesIff`); over a run the record is kept exactly when no call does that (`RecordKeptIff`), and then the key creates nothing more and replays return the same identity (`OneIdentityPerKey`). A completion creates exactly when no stored challenge carries its key and the challenge is ready (`CompleteCreatesIff`).
- *A logout marker keeps the app out.* A later logout that expects another token than the stored one, with the marker written ahead, removes the marker and leaves the token (`MarkerIsLifted` is a case from a signed-in device on): `MarkerLiftedIff` states that this is the only way, and `FencedUntilLifted` that otherwise no load yields a token. Once the tombstone is written there is no exception (`DurableLogout`).
- *The omission marker of the file list means something is missing.* It is also appended when the nodes just fit the budget and the last of them is an (empty) directory above the depth limit (`MarkerWithoutOmission`); that is the only exception (`MarkerIsExact`). Without a marker the list is complete.
- *A claim the browser drops can no longer start an execution.* A task list drops a claim, and a new attempt replaces it, when the task is missing or idle at any other version, lower ones included; lists are fetched while claims are sent. What the drop may rely on is exactly that the task was seen at a version no lower than the claim's: then the claim is spent whatever has happened since, otherwise there is a continuation in which it starts an execution (`ListDropsSpentIff`; `OlderListDropsOpenClaim` has a list from before the task was created, and one from before the claim's version). On the server a claim is spent exactly when the task has moved past its version or is running (`DroppedClaimIsSpent`). A claim is also dropped when its retry is refused, while the first submission may still be under way: if the claim operation itself refused, the first submission can still start an execution exactly when the refusal was an offline device (`GivenUpClaimCanStart`); if the request was refused earlier, as for a lost login, exactly when the task is idle at the claim's version (`RefusedRetryIsSpentIff`).

A remark on a boundary the page never meets: on a board without tiles `hasMoves` is true and nothing moves (`EmptyBoardHasNoMove`); with at least one tile, as after every spawn, it is exact (`HasMovesIsExact`).

## Model

| member | source | states |
|---|---|---|
| Funds.AllocateOutcome | services/control-plane/src/memory-database.ts:317 | an allocation succeeds exactly when amount ≤ balance + usable credit; it draws max(0, amount − usable credit) from the wallet; a refusal leaves the balance and only marks expired grants |
| Funds.AllocateGrants | services/control-plane/src/memory-database.ts:317 | the allocation records name distinct, unexpired grants with positive amounts within what they have, every grant changes by exactly its record, and the remainders drop by the total |
| Funds.RestoreUndoesDebit | services/control-plane/src/memory-database.ts:317-318 | the inner rollback of a refused allocation is exact |
| FundsTheorems.EarliestExpiryFirstIsOptimal | services/control-plane/src/memory-database.ts:317 | for every moment T, no other way of leaving the same usable credit leaves more credit expiring after T |
| ReserveSettle.HoldThenChargeIsDirectCharge | services/control-plane/src/memory-database.ts:239 | charging held funds succeeds exactly when charging directly does, with the same split and the same funds after, for every estimate and cost |
| UsageTheorems.ReserveThenSettleIsRecord | services/control-plane/src/memory-database.ts:189-241 | with nothing to reap, reserving and then settling, as two calls on the database, succeeds exactly when recording the usage directly does and the completion, if one is given, fits; then answer, ledger, keys, balance and every grant of that user are the same, for every estimate, cost, completion and key, new or billed before, and every other user is the same too |
| UsageTheorems.UserReserveThenSettle | services/control-plane/src/memory-database.ts:189-241 | the same refinement on one user's state, for every state that keeps the money and chat invariants |
| UsageTheorems.ReplayRefundsInFull | services/control-plane/src/memory-database.ts:236 | settling usage already billed, through any live reservation, posts nothing, returns the entry on record and refunds wallet and every grant in full, the cap of a restore never biting |
| UsageTheorems.MatchesSameBillOnly | services/control-plane/src/database.ts:540-550 | a ledger entry matches a report exactly when it bills the same cost for the same task, model and terms |
| UsageTheorems.RefusedSettlementIsAtomic | services/control-plane/src/memory-database.ts:231-241 | a settlement that is refused leaves the user as it was; one refused for lack of funds only marks expired grants |
| UsageRuns.MoneyIsConserved | services/control-plane/src/memory-database.ts:158-242 | in every reachable state wallet + held wallet = Σ ledger wallet parts, grant remainders + held credit = Σ ledger credit parts, every entry adds up, nothing is negative, and no grant with what is held of it exceeds its original amount |
| UsageRuns.RunMove | services/control-plane/src/memory-database.ts:158-242 | over every run the ledger only grows at the front and no idempotency entry is ever changed or dropped |
| UsageRuns.InconsistencyBranchesUnreachable | services/control-plane/src/memory-database.ts:175-241 | the chat_cache_invalid, chat_billing_inconsistent and payment_ledger_missing branches are never taken in any reachable state |
| UsageRuns.CompletedChatsAreBilled | services/control-plane/src/memory-database.ts:195-214 | in every reachable state a complete chat request has its payload, and its key remembers a usage charge that stands in the ledger |
| UsageRuns.PaymentsCreditedOnce | services/control-plane/src/memory-database.ts:175-188 | no provider payment is bound to two orders, and an order is paid exactly when its ledger entry is in the books |
| UsageRuns.ChargedAtMostOnce | services/control-plane/src/memory-database.ts:189-241 | over every run, from whatever calls and retries, all reports under a user's usage key together add at most one ledger entry |
| UsageRuns.NoChargeOnceRemembered | services/control-plane/src/memory-database.ts:189-241 | once a key is in the books no later call charges it again, and its entry never changes |
| UsageFencing.FinalReservations | services/control-plane/src/memory-database.ts:215-242 | a reservation leaves the reserved state at most once, and never changes after that |
| UsageFencing.EndedExecutionNeverSpends | services/control-plane/src/memory-database.ts:215-241 | after an execution has ended, its id never reserves and never adds a ledger entry by settling task usage, at any later point of any run |
| UsageOutcomes.AllocationTakes | services/control-plane/src/memory-database.ts:317 | taking an amount succeeds exactly when balance and spendable credit cover it, and lowers balance plus remainders by exactly that amount; otherwise only expired grants are marked |
| UsageOutcomes.NewUsageIsCharged | services/control-plane/src/memory-database.ts:189-194 | usage reported under a new key is accepted exactly when what can be spent covers its bill; then one entry with the bill, direction and commission is posted in front and remembered, funds fall by exactly the bill, and nothing else changes |
| UsageOutcomes.OrdinaryUsageIsCharged | services/control-plane/src/database.ts:534-538 | an ordinary user pays the reported cost, with the reported direction and commission, exactly when it can be spent |
| UsageOutcomes.AdminUsageIsFree | services/control-plane/src/database.ts:534-538 | usage of an administrator is always accepted, moves no money and says that it is exempt, without commission |
| UsageOutcomes.KnownUsageIsLookedUp | services/control-plane/src/memory-database.ts:191 | a report that is invalid or under a known key changes nothing; it gets the entry on record back exactly when that carries the same bill |
| UsageOutcomes.NewSettlementCharges | services/control-plane/src/memory-database.ts:231-241 | the eleven refusals of a settlement in the order in which they answer; without one, a new key charges the bill to the hold and to what can be spent, gives the rest of the hold back, settles the reservation, posts one entry and completes the chat |
| UsageOutcomes.SettlementCostsWhatIsReported | services/control-plane/src/memory-database.ts:232-240 | an ordinary user settles for the reported cost exactly when hold and spendable funds cover it; an administrator settles for nothing and gets the whole hold back |
| UsageOutcomes.KnownSettlementGivesBack | services/control-plane/src/memory-database.ts:236 | settling a key that is in the books answers with its entry, gives back what is still held, completes a chat request still pending, and charges nothing |
| UsageOutcomes.KnownReservationIsConfirmed | services/control-plane/src/memory-database.ts:219 | reserving under a known id changes nothing, and is confirmed exactly while the reservation is live and for the same execution |
| UsageOutcomes.NewReservationHolds | services/control-plane/src/memory-database.ts:218-222 | a new reservation is made exactly when the task is worked on under the given execution and the amount can be spent; exactly the amount is taken and held, for 90 seconds |
| UsageOutcomes.HoldIsRefused | services/control-plane/src/memory-database.ts:218-222 | otherwise the first failing check answers, and at most expired grants are marked |
| UsageOutcomes.RenewalAnswers | services/control-plane/src/memory-database.ts:224 | a lease of a reservation is extended exactly while it is live |
| UsageOutcomes.ReleaseGivesBack | services/control-plane/src/memory-database.ts:242 | releasing gives back exactly what is still held, and does nothing otherwise |
| UsageOutcomes.ReleaseRestoresEachGrant | services/control-plane/src/memory-database.ts:318-319 | each grant gets back exactly what was held of it and is active again unless it has run out; every other grant stays as it is |
| UsageOutcomes.TopUpAdds | services/control-plane/src/memory-database.ts:159-164 | a top-up adds exactly its amount once per key; a known key answers exactly when the entry is that of the same top-up |
| UsageOutcomes.PurchaseBrings | services/control-plane/src/memory-database.ts:158 | each of the four packs costs its price, if the wallet has it, and brings a grant of its credit for 180 days |
| UsageOutcomes.PurchaseElse | services/control-plane/src/memory-database.ts:158 | what an unknown pack, a bad key and a known key answer |
| UsageOutcomes.NewUserHas | services/control-plane/src/memory-database.ts:313 | a new user has the trial credit for 30 days, its entry, and nothing else |
| UsageOutcomes.ChatIsClaimedOnce | services/control-plane/src/memory-database.ts:195-209 | a chat request is claimed exactly when none is on record or the same one has failed; while one is pending nobody else runs it, a complete one is answered from its record, and another request under the key conflicts |
| UsageOutcomes.ChatFailsOnlyUnbilled | services/control-plane/src/memory-database.ts:210-214 | a chat request fails exactly while it is pending, the same, and not in the books |
| UsageOutcomes.SweepDropsExpired | services/control-plane/src/memory-database.ts:198 | a sweep drops the first expired records up to its budget, and keeps all others in order |
| UsageOutcomes.OrderRequestAnswers | services/control-plane/src/memory-database.ts:165-173 | an order request under a new key makes a pending order of its amount and channel; under a known key it answers exactly when both are the same |
| UsageOutcomes.PaymentAnswers | services/control-plane/src/memory-database.ts:178-185 | the refusals of a payment event in order; a pending order is credited when none applies, and a paid one answers with its entry |
| UsageOutcomes.PaymentCreditsWhatWasOrdered | services/control-plane/src/memory-database.ts:175-188 | a pending order is credited exactly when event and payment are not used elsewhere and amount, currency and channel are those of the order; the wallet gains exactly the reported amount, one top-up entry without credit is posted, the order is paid and bound to the payment; otherwise the database is as before |
| UsageOutcomes.OtherPaymentsMoveNothing | services/control-plane/src/memory-database.ts:175-188 | an event for an unknown order or one no longer pending leaves the whole database as it is |
| DatabaseOutcomes.CallChangesOwnRecords | services/control-plane/src/memory-database.ts:158-242 | a call changes the records of its principal, who comes into being if new, and of nobody else; one refused for its input does not even make the user |
| DatabaseOutcomes.UsageIsChargedToItsPrincipal | services/control-plane/src/memory-database.ts:189-194 | usage costs its principal the reported cost, an administrator nothing |
| DatabaseOutcomes.SettlementIsChargedToItsPrincipal | services/control-plane/src/memory-database.ts:231-241 | so does a settlement, out of what that principal holds and can spend |
| DatabaseOutcomes.ReservingReapsFirst | services/control-plane/src/memory-database.ts:215-223 | reserving first reaps up to a hundred overdue reservations of all users, then reserves for the principal |
| DatabaseOutcomes.ClaimingSweepsFirst | services/control-plane/src/memory-database.ts:195-209 | claiming a chat first drops up to a thousand expired records of all users, then answers from what is left |
| DatabaseOutcomes.SweepTotal | services/control-plane/src/memory-database.ts:198 | the sweep over all users drops min(budget, expired) records, the first users first |
| DatabaseOutcomes.OrderIsMadeOnce | services/control-plane/src/memory-database.ts:165-173 | an order request that nothing answers makes one order under the next number, for its principal only |
| Reaping.OrderDoesNotMatter | services/control-plane/src/memory-database.ts:225-230 | releasing all expired reservations in any two orders gives the same state |
| Reaping.FinalStateIsUnique | services/control-plane/src/memory-database.ts:225-230 | however expired reservations were released, once none is left the state is one closed form |
| Reaping.ReapCount | services/control-plane/src/memory-database.ts:225-230 | one reap releases exactly min(batch, backlog) reservations over all users |
| Reaping.RepeatedReapsReleaseAll | services/control-plane/src/memory-database.ts:225-230 | repeated bounded reaps at one moment end with every expired reservation released once and no other touched |
| Reaping.SummedRefundIsSame | services/control-plane/src/database.ts:1619-1634 | restoring all grants row by row and refunding the summed wallet amount, as the Postgres reaper does, gives the funds of releasing one by one |
| ReapOrder.LongestOverdueFirst | services/control-plane/src/memory-database.ts:227 | of two overdue reservations of which a reap releases one and leaves the other, the released one has the earlier lease, or the same lease and comes first in the maps |
| ReapOrder.ReapReleases | services/control-plane/src/memory-database.ts:225-230 | the backlog falls by the limit, at least one and at most a hundred, or to nothing |
| ReapOrder.ReapTouchesOverdueOnly | services/control-plane/src/memory-database.ts:225-230 | a reap changes nothing of a reservation but the status of an overdue one, to released |
| UserState.State.ExpireGrants | services/control-plane/src/memory-database.ts:316 | the loop marks exactly the active grants that have run out |
| UserState.State.DrawGrants | services/control-plane/src/memory-database.ts:317 | the loop over usable grants takes the front-loaded draw in payment order |
| UserState.State.AllocateFunds | services/control-plane/src/memory-database.ts:317 | draws grants, then the wallet; on a short wallet rolls the grants back |
| UserState.State.RestoreGrant | services/control-plane/src/memory-database.ts:318 | credits a known grant up to its original amount and re-derives its status |
| UserState.State.ReleaseReservation | services/control-plane/src/memory-database.ts:319 | gives back the held wallet amount and every held allocation |
| UserState.State.TopUp | services/control-plane/src/memory-database.ts:159-164 | credits once per key; a replay must match |
| UserState.State.PurchasePack | services/control-plane/src/memory-database.ts:158 | buys one grant per key and posts purchase and credit |
| UserState.State.RecordUsage | services/control-plane/src/memory-database.ts:189-194 | charges usage once per key; a replay must match |
| UserState.State.Reserve | services/control-plane/src/memory-database.ts:218-222 | holds funds under a lease, once per id, for a live execution only |
| UserState.State.RenewReservation | services/control-plane/src/memory-database.ts:224 | extends the lease of a live reservation |
| UserState.State.ReleaseUsage | services/control-plane/src/memory-database.ts:242 | releases a reservation that is still held |
| UserState.State.ConsumeGrants | services/control-plane/src/memory-database.ts:239 | the settle loop uses up held allocations in order and restores the rest of each |
| UserState.State.ChargeHeld | services/control-plane/src/memory-database.ts:239 | settles a cost against held funds, allocating what is missing |
| UserState.State.SettleUsage | services/control-plane/src/memory-database.ts:231-241 | the whole settlement: refusals in order, replay, charge, chat completion |
| UserState.State.ClaimChat | services/control-plane/src/memory-database.ts:197-208 | claims, re-claims a failed, or reports a chat request |
| UserState.State.FailChat | services/control-plane/src/memory-database.ts:210-214 | fails a pending request that is not billed |
| UserState.State.SweepChats | services/control-plane/src/memory-database.ts:198 | deletes expired chat records in order up to the budget and counts them |
| UserState.State.KnownOrder | services/control-plane/src/memory-database.ts:165-173 | the answers to an order request that make no new order |
| UserState.State.BoardCall | services/control-plane/src/memory-database.ts:290-315 | a call on devices, tasks, leases and events changes the task part of the user as the board operation says, and nothing else |
| UserState.State.PayOrder | services/control-plane/src/memory-database.ts:178-185 | credits a pending order once, or answers for a paid one |
| MemoryStore.MemoryDatabase.State | services/control-plane/src/memory-database.ts:313 | finds or creates a user with its trial grant |
| MemoryStore.MemoryDatabase.SettleUsage | services/control-plane/src/memory-database.ts:231-241 | changes only that user's object, and only as the settlement does |
| MemoryStore.MemoryDatabase.RecordUsage | services/control-plane/src/memory-database.ts:189-194 | changes only that user's object, and only as recording does |
| MemoryStore.MemoryDatabase.ReapExpiredUsageReservations | services/control-plane/src/memory-database.ts:225-230 | releases the longest overdue reservations of all users, at most a batch, and returns by how many the backlog shrank |
| MemoryStore.MemoryDatabase.ReserveUsage | services/control-plane/src/memory-database.ts:215-223 | reaps first, then reserves |
| MemoryStore.MemoryDatabase.ClaimChatRequest | services/control-plane/src/memory-database.ts:195-209 | sweeps expired records of all users, then claims |
| MemoryStore.MemoryDatabase.CreatePaymentOrder | services/control-plane/src/memory-database.ts:165-173 | one order per key; a replay must match |
| MemoryStore.MemoryDatabase.CompletePaymentOrder | services/control-plane/src/memory-database.ts:175-188 | completes an order unless its payment or event is bound to another |
| MemoryStore.MemoryDatabase.PerformAll | services/control-plane/src/memory-database.ts:158-321 | any sequence of calls on the object, of every operation and user, is a run of the database; so all invariants over runs hold of it, and its ledgers only grow |
| TaskTheorems.SyncRebuildsTasks | services/control-plane/src/memory-database.ts:308 | for every cursor up to the end of the log, replaying the events after it over what the events up to it make gives the current tasks, and at every moment of a run the tasks are what the log makes; cursors are 1..n and each task's events carry versions 1, 2, 3, … |
| TaskTheorems.SameVersionSameRecord | services/control-plane/src/memory-database.ts:297-302 | two observations of a task with the same version are the same record |
| TaskFencing.ExecutionExactlyWhileRunning | services/control-plane/src/memory-database.ts:294-302 | in every reachable state a task has an execution record exactly while it is running or waiting, and no execution id is on two tasks |
| TaskFencing.StoppingEndsExecution | services/control-plane/src/memory-database.ts:294-302 | the step that takes away a task's execution record ends that execution |
| TaskFencing.LeavingLiveEndsExecution | services/control-plane/src/memory-database.ts:294-302 | the step that takes a task out of running or waiting, by completion, failure, cancel or expiry, ends the execution it ran under |
| TaskFencing.EndedCredentialsAreRefused | services/control-plane/src/memory-database.ts:294-302 | ended credentials renew no lease, pass no assertion, and move no running or waiting task except to cancelled |
| TaskFencing.FencedForever | services/control-plane/src/memory-database.ts:294-315 | from the moment an execution has ended, by a step or by the clock alone, its credentials stay refused, however the run goes on |
| TaskFencing.OneStartPerVersion | services/control-plane/src/memory-database.ts:298 | of all claim messages for one version of a task at most one ever starts an execution |
| TaskFencing.RedeliveredClaim | services/control-plane/src/memory-database.ts:298 | while the execution is alive each redelivery returns it and changes nothing and every rival is refused; after its end the old message starts nothing |
| TaskStore.TaskState.ExpireTaskLeases | services/control-plane/src/memory-database.ts:314 | the loop fails exactly the running and waiting tasks whose lease has run out |
| TaskStore.TaskState.Heartbeat | services/control-plane/src/memory-database.ts:294 | renews a device, and a lease under its credentials |
| TaskStore.TaskState.ListDevices | services/control-plane/src/memory-database.ts:292 | marks exactly the devices not seen for a while as offline |
| TaskStore.TaskState.CreateTask | services/control-plane/src/memory-database.ts:297 | creates a draft on a device that is online |
| TaskStore.TaskState.ClaimTask | services/control-plane/src/memory-database.ts:298 | starts an execution, or returns the one already held under the same secrets |
| TaskStore.TaskState.AssertTaskLease | services/control-plane/src/memory-database.ts:300 | checks an execution and its lease token |
| TaskStore.TaskState.RenewTaskExecution | services/control-plane/src/memory-database.ts:301 | extends the lease of a live execution |
| TaskStore.TaskState.UpdateTask | services/control-plane/src/memory-database.ts:302 | the refusals in order, the outcome rules, the new record, the end of the execution, the event |
| TaskStore.TaskState.EventsAfter | services/control-plane/src/memory-database.ts:308 | the filter loop returns the events after the cursor |
| TaskClient.Client.StartRemoteTask | apps/web/src/api.ts:931-992 | which claim is sent, and what the answer that counts leads to: an accepted answer with the sent token starts, another token or a refusal gives up and drops the claim, no answer keeps it |
| TaskClient.Client.OnTaskList | apps/web/src/api.ts:914-924 | which leases and claims a task list drops |
| TaskClient.LostStartIsRecovered | apps/web/src/api.ts:931-974 | a start whose answer was lost is recovered as long as its claim is still pending and its execution alive: the next attempt sends the same secrets and gets that execution back |
| TaskClient.LiveClaimStaysPending | apps/web/src/api.ts:914-924 | while that execution is alive, no list read since the start drops the claim (one read before the claim's version may) |
| TaskClient.DroppedClaimIsSpent | apps/web/src/api.ts:914-938 | for a list or a new attempt that goes by any earlier state: an attempt replaces the claim exactly when a list would drop it; if what was seen is not older than the claim, a dropped claim is spent; in any case it is spent exactly when the task has moved past its version or is running |
| TaskClient.ListDropsSpentIff | apps/web/src/api.ts:914-924 | the claims a list drops are spent whatever has happened since exactly when the list shows the task at a version no lower than the claim's |
| TaskClient.OlderListDropsOpenClaim | apps/web/src/api.ts:920-923 | two cases: a list from before the task was created, and one from before the claim's version, drop a claim that then starts an execution |
| TaskClient.RefusedRetryIsSpentIff | apps/web/src/api.ts:967-973 | a claim dropped because its retry was refused can still start an execution exactly when the claim operation refused for an offline device, or, if the request was refused before it, when the task is idle at the claim's version |
| TaskClient.GivenUpClaimCanStart | apps/web/src/api.ts:967-973 | a case: offline retry, device back, then the late first submission starts an execution |
| TaskFencing.SpentIff | services/control-plane/src/memory-database.ts:298 | a version of a task that was seen can no longer be claimed exactly when the task has moved past it or is running |
| TaskOutcomes.LapsedTaskFails | services/control-plane/src/memory-database.ts:314 | a running or waiting task without a live lease fails, with the text for its case and without result, and loses its execution; any other task is left alone |
| TaskOutcomes.UpdateIsRefused | services/control-plane/src/memory-database.ts:302 | the seven checks of an update in the order in which they answer; a refused one changes nothing, and one that says nothing new returns the task |
| TaskOutcomes.UpdateWrites | services/control-plane/src/memory-database.ts:302 | every other update writes exactly this record, version and event: a result is kept only for a task that goes on or completes, an error only for one that goes on or fails, each as given or as it was |
| TaskOutcomes.CompletingNeedsAResult | services/control-plane/src/database.ts:498-503 | completing under live credentials succeeds exactly when the result it ends with, given or kept, says something; the error is cleared and the execution ends |
| TaskOutcomes.FailingNeedsAnError | services/control-plane/src/database.ts:498-503 | the mirror image for failing |
| TaskOutcomes.AnyoneMayCancel | services/control-plane/src/memory-database.ts:302 | a draft, running or waiting task can be cancelled without credentials, and keeps neither result nor error |
| TaskOutcomes.ResumingClearsBoth | services/control-plane/src/memory-database.ts:302 | a waiting task that goes on running loses result and error, and keeps its execution |
| TaskOutcomes.ReportSetsFields | services/control-plane/src/memory-database.ts:302 | any other report keeps, clears or sets each field as it is given |
| TaskOutcomes.EndedTasksTellTheirOutcome | services/control-plane/src/memory-database.ts:294-315 | in every reachable state a complete task has a result that says something and no error, a failed one the reverse, a cancelled one neither |
| TaskOutcomes.ClaimOfAWorkingTask | services/control-plane/src/memory-database.ts:298 | a claim of a task being worked on changes nothing and gives the execution back exactly to who presents its claim and token |
| TaskOutcomes.ClaimOfAnIdleTask | services/control-plane/src/memory-database.ts:298 | an idle task is started exactly at its current version and on a device that can be reached, for 90 seconds, without result or error |
| TaskOutcomes.RenewalAnswers | services/control-plane/src/memory-database.ts:301 | a lease is renewed exactly for the execution that runs under it |
| TaskOutcomes.HeartbeatAnswers | services/control-plane/src/memory-database.ts:294 | a heartbeat puts the device online, and renews a lease exactly for its credentials and device |
| TaskOutcomes.AssertionsAnswer | services/control-plane/src/memory-database.ts:299-300 | an execution, and a lease, is confirmed exactly while the task is worked on under it |
| TaskOutcomes.CreationAnswers | services/control-plane/src/memory-database.ts:297 | a task is created as a draft of version one exactly when its device can be reached |
| TaskOutcomes.DevicesAnswer | services/control-plane/src/memory-database.ts:292-293 | listing puts a device offline exactly when it was last seen more than 45 seconds ago; one that registers is online |
| RegistrationTheorems.RegistrationIsSafe | services/control-plane/src/memory-database.ts:89-150 | in every reachable state: one pending challenge per email and per phone, budgets kept, consumed only after both verifications, keys and phones unique |
| RegistrationTheorems.RecordsOnlyEvolve | services/control-plane/src/memory-database.ts:89-150 | along every run a finished challenge never changes, counts never fall, and neither phone nor verification is withdrawn |
| RegistrationTheorems.ResendKeepsTheCount | services/control-plane/src/memory-database.ts:94-99 | sending the code again keeps the record and its wrong guesses |
| RegistrationTheorems.GuessesAreBounded | services/control-plane/src/memory-database.ts:104-123 | over every run no challenge is guessed at wrongly (live, unverified, with a code that is not the stored one) more often than the limit, over both channels together |
| RegistrationTheorems.GuessCounts | services/control-plane/src/memory-database.ts:104-123 | each code that is not the stored one counts once, and the one that reaches the limit locks |
| RegistrationTheorems.CompleteCreatesIff | services/control-plane/src/memory-database.ts:128-135 | a completion creates an identity exactly under the stated conditions |
| RegistrationTheorems.HeldKeyReplays | services/control-plane/src/memory-database.ts:130 | while a key is held, completing with it creates nothing and the same data get the same identity back |
| RegistrationTheorems.ReplayIsConsistent | services/control-plane/src/memory-database.ts:130 | the registration_replay_inconsistent branch is never taken |
| RegistrationTheorems.OneIdentityPerKey | services/control-plane/src/memory-database.ts:128-147 | one key creates at most one identity, and replays within a day return it, over every run on which no call loses the record of the key; once one does, the record is gone for good |
| RegistrationTheorems.StepLosesIff | services/control-plane/src/memory-database.ts:91-147 | a step loses the record of a key exactly when it is a cleanup at or after the end of its day that reaches it within its limit, or an email code under its id |
| RegistrationTheorems.RecordKeptIff | services/control-plane/src/memory-database.ts:91-147 | over every run the record is there unchanged at the end exactly when no call loses it |
| RegistrationTheorems.KeyCreatesTwice | services/control-plane/src/memory-database.ts:139-147 | after such a cleanup the key creates a second identity |
| RegistrationCodes.VerifiedByTheCodeLastSent | services/control-plane/src/memory-database.ts:89-123 | over every run, a verified email or phone was verified by a call that brought, for that very record, the code last sent for it before that call |
| RegistrationCodes.StoredWasLastSent | services/control-plane/src/memory-database.ts:89-150 | in every reachable state a stored code is the one last sent for its record |
| RegistrationOutcomes.EmailVerifiedIffCode | services/control-plane/src/memory-database.ts:107 | a live, unverified email is verified exactly by the stored code; any other code adds one failure, and the one that reaches the limit locks |
| RegistrationOutcomes.EmailVerificationElse | services/control-plane/src/memory-database.ts:104-109 | what an unknown, a closed and a verified challenge answer |
| RegistrationOutcomes.PhoneVerifiedIffCode | services/control-plane/src/memory-database.ts:122 | the same for the phone, once the email is verified and not before |
| RegistrationOutcomes.PhoneVerificationElse | services/control-plane/src/memory-database.ts:119-123 | what every other phone answer is |
| RegistrationOutcomes.EmailCodeGoesOutIff | services/control-plane/src/memory-database.ts:89-103 | an email code goes out exactly when the email has no account and its live challenge, if any, is unverified, past its resend time and within the number of sends |
| RegistrationOutcomes.NoCodeBeforeResendTime | services/control-plane/src/memory-database.ts:96 | before the resend time no code goes out and nothing changes |
| RegistrationOutcomes.EmailStartRefusals | services/control-plane/src/memory-database.ts:91-98 | the refusals in order; the limit of sends locks |
| RegistrationOutcomes.CodeGoesOutAgain | services/control-plane/src/memory-database.ts:99 | a code that goes out again keeps the record, with its failures and phone, under the new id, and touches no other |
| RegistrationOutcomes.FirstCodeStartsARecord | services/control-plane/src/memory-database.ts:92-102 | any other code starts a record with nothing verified or guessed, and closes what ran out |
| RegistrationOutcomes.PhoneCodeGoesOutIff | services/control-plane/src/memory-database.ts:110-118 | the seven refusals of a phone code in order; without one the record has the phone, the code, one more send and the new times |
| RegistrationOutcomes.PhoneStartElsewhere | services/control-plane/src/memory-database.ts:114-115 | on the way exactly the challenges of that phone that ran out are closed, and nothing else is touched |
| RegistrationOutcomes.PhoneStartNotLive | services/control-plane/src/memory-database.ts:110-113 | what an unknown or closed challenge answers |
| RegistrationOutcomes.ReadyIff | services/control-plane/src/memory-database.ts:124-127 | a challenge is ready exactly while it is live with both channels verified |
| RegistrationOutcomes.CompletionAnswers | services/control-plane/src/memory-database.ts:128-135 | the refusals of a completion under a new key in order |
| RegistrationOutcomes.CreationChanges | services/control-plane/src/memory-database.ts:133-135 | what a creating completion writes: one account with password and phone, the used challenge with key, data and account for a day |
| RegistrationOutcomes.RefusedCompletion | services/control-plane/src/memory-database.ts:128-135 | any other completion leaves the desk as it is, except that a challenge that ran out is closed |
| RegistrationOutcomes.WithdrawnIffStored | services/control-plane/src/memory-database.ts:148-150 | a code is withdrawn exactly while it is the stored one |
| RegistrationOutcomes.CleanupHandles | services/control-plane/src/memory-database.ts:139-147 | a cleanup handles the first records that are due, up to its limit, closes or deletes each as its state says, counts them, and leaves the rest alone |
| RegistrationOutcomes.EnrolmentGives | services/control-plane/src/memory-database.ts:80-88 | another sign-up route gives an account or a password, and takes neither away |
| RegistrationStore.RegistrationDesk.StartEmailRegistration | services/control-plane/src/memory-database.ts:89-103 | issue, supersede, resend under a new id, or lock |
| RegistrationStore.RegistrationDesk.VerifyRegistrationEmail | services/control-plane/src/memory-database.ts:104-109 | verify, count a wrong guess, lock, or close what is over |
| RegistrationStore.RegistrationDesk.StartPhoneRegistration | services/control-plane/src/memory-database.ts:110-118 | close stale rivals, refuse live ones, send or lock |
| RegistrationStore.RegistrationDesk.VerifyRegistrationPhone | services/control-plane/src/memory-database.ts:119-123 | as for email, once email is verified |
| RegistrationStore.RegistrationDesk.AssertVerifiedRegistration | services/control-plane/src/memory-database.ts:124-127 | ready, consumed, or why not |
| RegistrationStore.RegistrationDesk.CompleteVerifiedRegistration | services/control-plane/src/memory-database.ts:128-135 | replay or create one identity and consume the challenge |
| RegistrationStore.RegistrationDesk.CleanupRegistrationChallenges | services/control-plane/src/memory-database.ts:139-147 | the bounded loop closes what ran out and deletes what is a day past its end |
| RegistrationStore.RegistrationDesk.EnrolIdentity | services/control-plane/src/memory-database.ts:80-88 | another sign-up route gives an email an account, or an account without password a password, and keeps its phone |
| RegistrationStore.RegistrationDesk.InvalidateRegistrationCode | services/control-plane/src/memory-database.ts:148-150 | closes or withdraws a code that could not be delivered |
| Lines.SlideIsSlid | cod-2048-game/game.js:201-269 | visiting every position of a line with merged flags gives the compressed, merged-once and padded line, and gains the merged values |
| Lines.MovedMeansChanged | cod-2048-game/game.js:243-271 | a move is reported exactly when some value on the line changed |
| Lines.PotentialOfPower | cod-2048-game/game.js:167-180 | a tile 2^k was built with a score of (k − 1)·2^k |
| Game2048.MoveTotals | cod-2048-game/game.js:201-269 | a move keeps the tile sum and raises the potential by exactly what it gains |
| Game2048.SlidFixedPoint | cod-2048-game/game.js:299-312 | sliding leaves a line as it is exactly when it has no gap before a tile and no equal neighbours |
| Game2048.HasMovesIsExact | cod-2048-game/game.js:299-312 | on a board with a tile a move is left exactly when one of the four directions changes the board |
| Game2048.EmptyBoardHasNoMove | cod-2048-game/game.js:299-312 | on every board without tiles the answer is yes although nothing moves |
| GameOutcomes.TilesStandAgainstTheEdge | cod-2048-game/game.js:182-199 | after a move no gap is between a tile and the edge the move was made towards, in each of the four directions |
| GameOutcomes.NearestPairMerges | cod-2048-game/game.js:243-262 | of three equal tiles the two nearest the edge merge, four merge in two pairs, and a merged tile does not merge again |
| GameOutcomes.BoundsAre | cod-2048-game/game.js:97-104 | a spawned tile is a two or a four, a four exactly when its random number is at least 0.9; the win is at 2048 |
| Traversal.ProgressEnd | cod-2048-game/game.js:195-269 | after the edge-first traversal every line is slid, the flag says whether the direction changes anything, and the gain is what the lines merged |
| Traversal.FlagsDoNotMatter | cod-2048-game/game.js:205-210 | merged flags left from an earlier move play no part |
| GamePlay.PowerHasExponent | cod-2048-game/game.js:97-104 | every tile value is some 2^k with k at least one, built with (k − 1)·2^k |
| GamePlay.SpawnAccounted | cod-2048-game/game.js:97-104 | a spawned two costs nothing, a spawned four brings four unscored points |
| GamePlay.Game.EmptyCells | cod-2048-game/game.js:88-95 | exactly the empty cells, in reading order |
| GamePlay.Game.Spawn | cod-2048-game/game.js:97-104 | the empty cell that the first random number picks, in reading order, gets a two, or a four exactly when the second is at least 0.9; nothing else changes |
| GamePlay.Game.UpdateScore | cod-2048-game/game.js:167-180 | adds to the score and keeps the best |
| GamePlay.Game.FindFarthest | cod-2048-game/game.js:221-241 | the stepping loop finds the farthest cell and whether the tile merges there |
| GamePlay.Game.SlideTile | cod-2048-game/game.js:215-268 | one visit changes one line as the line model says and no other |
| GamePlay.Game.Move | cod-2048-game/game.js:201-277 | nothing while locked; otherwise every line slides, the tile sum stays, the score grows by the gain, and the board is locked exactly when some value changed |
| GamePlay.Game.CheckWin | cod-2048-game/game.js:287-297 | the win is announced once, and never after going on |
| GamePlay.Game.AnyMoves | cod-2048-game/game.js:299-312 | the scan answers whether a move is left |
| GamePlay.Game.OnTimer | cod-2048-game/game.js:277-284 | releases the lock; the empty cell picked by the random number gets a two or a four, if there is one, and nothing else changes; win and game over are checked |
| GamePlay.Game.Restart | cod-2048-game/game.js:328-343 | no score, no overlays; the best score stays; on a board with room exactly two cells hold a tile, each a two or a four by its random number |
| GamePlay.Game.Play | cod-2048-game/game.js:201-343 | over any sequence of keys, timers and buttons: tiles are powers of two, and score = Σ (k − 1)·2^k − 4 per spawned four |
| LaunchCoordinator.OneAtATimeInOrder | apps/desktop/src/goose-lifecycle.ts:46-56 | for every schedule operations start in call order, never overlap, and pass assertCurrent exactly when no invalidation was called after them |
| LaunchCoordinator.NothingBeginsDuringAStop | apps/desktop/src/goose-lifecycle.ts:58-64 | no operation begins between the call of an invalidation and the end of its stop |
| LaunchCoordinator.OutdatedNeverStarts | apps/desktop/src/goose-lifecycle.ts:46-64 | an operation called before an invalidation and not started by then never starts |
| LaunchCoordinator.NoDeadlock | apps/desktop/src/goose-lifecycle.ts:46-64 | while an operation waits, something can always go on |
| LaunchCoordinator.TurnComesIff | apps/desktop/src/goose-lifecycle.ts:46-64 | in every reachable state an operation may begin exactly when everything called before it has ended, and is then interrupted exactly if an invalidation was called after it; a stop begins at once |
| LaunchCoordinator.GooseLaunchCoordinator.RunOperation | apps/desktop/src/goose-lifecycle.ts:46-56 | chains an operation behind everything called so far |
| LaunchCoordinator.GooseLaunchCoordinator.CallStop | apps/desktop/src/goose-lifecycle.ts:58-64 | outdates what was called, and makes what is called later wait for the stop |
| LaunchCoordinator.GooseLaunchCoordinator.OnSettled | apps/desktop/src/goose-lifecycle.ts:48-52 | the callback interrupts exactly the operations an invalidation has outdated |
| MobileSession.DurableLogout | apps/web/src/api.ts:373-430 | after a logout that returned true, or reported the credential cleared, no later load yields a token, whatever storage does |
| MobileSession.FencedUntilLifted | apps/web/src/api.ts:373-518 | a marker alone keeps the app out too, until a logout with the wrong token lifts it |
| MobileSession.MarkerLiftedIff | apps/web/src/api.ts:407-410 | that is the exact condition, and the stored token is then loaded again |
| MobileSession.MarkerIsLifted | apps/web/src/api.ts:407-410 | a trace from a signed-in device: a logout that throws leaves the marker, a logout with another expected token lifts it, a load yields the token |
| MobileSession.SignInRoundTrip | apps/web/src/api.ts:452-806 | when storage behaves, signing in then loading returns the token; logging out then loading returns none |
| MobileSession.LogoutLeaves | apps/web/src/api.ts:373-430 | what a logout leaves in each store when storage behaves, with and without a mismatch of the expected token |
| MobileSession.LoadYieldsIff | apps/web/src/api.ts:452-518 | when storage behaves, a load yields a token exactly if no clean-up is asked for and the secure record, or a valid plaintext token with an empty record, has it |
| MobileSession.Device.WriteAndVerify | apps/mobile/src/session-store.ts:75-78 | a write that is reported done is done, even over storage that loses writes |
| MobileSession.Device.LoadSessionCleanupPending | apps/mobile/src/session-store.ts:84-93 | what each answer means for the record |
| MobileSession.Device.LoadSessionToken | apps/mobile/src/session-store.ts:95-111 | what each answer means for the record |
| MobileSession.Device.SaveSessionToken | apps/mobile/src/session-store.ts:113-125 | stored, or the old record, or the tombstone |
| MobileSession.Device.ClearSessionToken | apps/mobile/src/session-store.ts:127-136 | true means the tombstone is written, false means another token is stored and stays |
| MobileSession.Device.ClearMobileSession | apps/web/src/api.ts:373-430 | every outcome under faults, and the exact result without; a write-ahead logout without mismatch leaves the app fenced as long as one of the two stores works |
| MobileSession.Device.LogoutCod | apps/web/src/api.ts:782-806 | the same for the exported call, with or without the native bridge; an explicit logout that clears nothing throws; so it fails closed too |
| MobileSession.Device.LoadPersistedSessionToken | apps/web/src/api.ts:452-518 | a token comes only from the record or a migrated plaintext token, never past a marker or tombstone; a load that throws leaves the app fenced as long as one store works |
| MobileSession.Device.PersistCodSession | apps/web/src/api.ts:752-780 | success means token stored, marker gone, plaintext gone |
| MobileSession.Device.LoadsAndLogouts | apps/web/src/api.ts:452-806 | any sequence of loads and logouts over failing storage yields no token once logged out |
| WorkspaceWalk.ListedSortsTheVisible | apps/desktop/src/workspace-files.ts:42-47 | the order shown is a sorting of exactly the visible entries, directories first |
| WorkspaceWalk.CollectDirectory | apps/desktop/src/workspace-files.ts:34-64 | the recursive walk spends the shared budget on the first nodes of the pruned preorder and notes an omission exactly when something happens after it is spent or a directory is over its cap |
| WorkspaceWalk.CollectWorkspaceFiles | apps/desktop/src/workspace-files.ts:66-91 | the list is the first maximumNodes − 1 nodes, and never longer than maximumNodes with its marker |
| WorkspaceWalk.PrunedOrEverything | apps/desktop/src/workspace-files.ts:34-64 | the pruned walk visits every visible node within the depth limit exactly when no opened directory is over its cap |
| WorkspaceWalk.MarkerIsExact | apps/desktop/src/workspace-files.ts:34-91 | the marker is there exactly when something is missing, or in the one stated case |
| WorkspaceWalk.MarkerWithoutOmission | apps/desktop/src/workspace-files.ts:36-39 | that case is real |
| WorkspaceOutcomes.ShowsExactlyVisiblePaths | apps/desktop/src/workspace-files.ts:34-64 | without the caps the walk shows exactly the entries whose path is visible all the way and within the depth limit, under name, path and kind |
| WorkspaceOutcomes.DirectoriesComeFirst | apps/desktop/src/workspace-files.ts:49-63 | however the budget cuts the list, every entry on it comes after the directory it is in |
| WorkspaceOutcomes.OwnEntriesInOrder | apps/desktop/src/workspace-files.ts:42-50 | the entries of one directory appear directories first and by collation, as many as the cap allows |
| WorkspaceOutcomes.LimitsAre | apps/desktop/src/workspace-files.ts:66-73 | at most 5000 nodes, 200 entries a directory and a depth of 4, and never less than 2, 1 and 0 |
| WorkspaceWalk.BoundedOption | apps/desktop/src/workspace-files.ts:25-28 | an option falls back when absent and is clamped otherwise |

## Left out

- SQL, migrations, locks and connections of `database.ts`: the Postgres methods appear only as the summed refund of its reaper; a simulation between the two databases is not attempted, as they differ in check order.
- HTTP, WebSocket, OIDC, payment providers, model gateway and renderer code: plumbing around the state machines.
- Audit trail, project tasks, compute requests, referral summaries, rate-limit buckets and account display fields: separate maps without shared invariants.
- Field validators (patterns, trimming, length of titles and names): the model takes inputs that passed them, except where a check is one of the refusals of a modelled operation.
- Invite codes of a registration: whether the code names an inviter is an input; who referred whom is not modelled.
- Randomness, hashing and the wall clock: inputs, equality and `now`.
- Card-hour conversions in credit summaries: arithmetic on display values only.
- Promise queues that serialise session operations on a device: operations are modelled as atomic with respect to each other, their storage calls are not.
- `decodeSession`'s JSON: the secure record is modelled decoded (empty, tombstone, token, raw token, invalid).
- Tile ids, animation and rendering of the 2048 page, and `isNew`: not part of the board.
- Reading the directory of a workspace may fail; the walk then fails as a whole, which is not modelled.
- Updates of a task under a lease the browser already holds (`updateRemoteTask` without a claim): one request without retry; its server side is `TaskStore.TaskState.UpdateTask`.
- UserState.State.BoardCall: the source's user state holds devices, tasks, executions and events in its own fields; here they are one value of the object, taken out as a `TaskStore.TaskState` for the length of a call, so aliasing inside a user is not captured.
- Explicit logout forgets all leases and claims of the browser at once, whatever the server has seen of them (`logoutCod`): outside the model of claims.
- The heartbeat of the browser for an active task (`heartbeatDevice`), which forgets lease and claim when the server says the lease is lost.
- MemoryStore.MemoryDatabase.ReapExpiredUsageReservations: the sort of candidates is the function `SortByLease`, not a library sort.
- LaunchCoordinator.GooseLaunchCoordinator.OnSettled: the event loop is a list of promises with their phases; microtask order among callbacks that are ready together is left open, so the theorems hold for every order.
