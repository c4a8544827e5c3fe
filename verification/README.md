# Power IoT: verified model of the state machines and sums that matter

This project models, in Dafny, seven parts of the power-monitoring system and proves what each of them promises
over every input or over every run.

- **Provider ledger** (`ProviderLedger`, `ProviderStore`, `ProviderRuns`, `ProviderConsumption`, `ProviderLaws`):
  one-time authorizations that are issued, consumed in three transactions, resolved, revoked, expired, and poisoned when a
  new authority epoch starts. The store's transactions are written statement by statement, with their branches for
  mixed row states; their contracts say what they decide on a well-formed ledger, so those branches are never
  taken. Commits may be lost before or after taking effect, and any other step may fall between BEGIN, CLAIM and
  FINALIZE.
- **Refresh-token families** (`RefreshFamilies`, `RefreshRuns`): login, rotation, replay revocation and logout under
  a policy that commits denials and rolls back infrastructure errors.
- **Admin binding and device lifecycle** (`AdminBinding`, `AdminRuns`): five binding commands and three lifecycle
  commands over one assignment table and one idempotency ledger, with an arbitrary earlier state behind the first plan.
- **Energy evidence** (`Coverage`, `CoverageOrder`, `CoverageStates`, `BillingEnergy`, `BillingEnergyQuery`,
  `BillingReadings`, `BillingShop`): the proven prefix of a period, the measure of a union of intervals, the overlap
  sweep, and the candidate filter that ties evidence to assignments.
- **Billing plans and tariff** (`PlanSchedule`, `Tariff`): a month-indexed plan schedule and the progressive charge.
- **ACK protocol of the device simulator** (`AckProtocol`, `AckRuns`, `AckSessions`, `AckAttempts`, `AckDelivery`,
  `AckExamples`): waiters, epochs, deferred ACKs and who may remove a queued item.
- **Abuse limiter** (`Limiter`): a bounded table of counters with moving expiry.

Classes carry the fields the program updates in place; each method is proved against a function on the value of the
whole state, and the theorems about runs are proved about that function. Beside the theorems about runs, laws state what
those functions decide without naming them: when each command succeeds, which rows it changes and how, and what each
refusal, report, warning and amount says of the rows and readings themselves.

The ACK protocol is proved twice. `AckRuns` and `AckSessions` say what holds for every interleaving of the critical
sections, with exact conditions where an authorization or a waiter can outlive its session. `AckAttempts` adds the
order in which the program lets them occur: one lock held from the registration of an attempt to its withdrawal, items
queued under it, a client installed only after the old one was detached, a restoration begun only before the session is
ready. In every such run an item leaves the queue only in the ready session in which the open attempt for it was granted
its authorization, no identity stays authorized once its attempt has revoked, and at most one waiter exists, so that the
comment at `tools/device-simulator/main.go:607-609` holds. `AckExamples` has a run of the program, and interleavings
that the attempt lock and the client handover exclude.

Where a promise does not hold in general, the project says exactly when it does and gives a failing case:

- A replayed refresh token revokes its family exactly when the decision time is not before the issue time of the
  family's latest token (`RefreshRuns.ReplayRevokes`, `RefreshRuns.ReplayWithLateClock`); a logout likewise, with the
  application's clock (`RefreshRuns.LogoutRevokes`).
- A refresh that ends in an infrastructure error leaves everything unchanged unless only the acknowledgement of its
  commit was lost; then it did what it does without a fault (`RefreshRuns.CommitPolicy`,
  `RefreshRuns.LostAcknowledgement`).
- The state reported by the coverage evaluation is independent of arrival order exactly when the members of a tie that
  the evaluation reaches agree on it (`CoverageOrder.StateOrderFreeIff`, `CoverageOrder.StateDependsOnTieOrder`).
- The proven chain is all the evidence that starts in the reported window exactly when the first interval that does not
  extend it does not both start inside it and end past the snapshot, and no inverted interval starts there
  (`Coverage.WindowIsChainIff`, `Coverage.PastSnapshotMayStartInside`).

## Model

| member | source | states |
|---|---|---|
| `ProviderLedger.StepKeepsInv` | power-iot-a3-deployment-control-plane/internal/store/consume_v2.go:76-419 | every step keeps at most one intent ever per authorization, the intent's state determined by its parent's, equal bindings, live rows in the current epoch, and no request left REQUESTED |
| `ProviderLedger.SettleKeepsInv` | power-iot-a3-deployment-control-plane/internal/store/lifecycle.go:86-131 | moving an authorization and its intent together keeps the joint state set |
| `ProviderLedger.TakeoverKeepsInv` | power-iot-a3-deployment-control-plane/internal/store/store.go:166-188 | poisoning at an epoch change leaves no live row and no mismatched pair |
| `ProviderStore.Store.BeginConsume` | power-iot-a3-deployment-control-plane/internal/store/consume_v2.go:76-284 | decides exactly as on a well-formed ledger: durable outcome for a known request, expiry with abort, the other request in progress, or one new PENDING intent; a lost commit reports unknown |
| `ProviderStore.Store.BeginStatements` | power-iot-a3-deployment-control-plane/internal/store/consume_v2.go:117-283 | the mixed-state branches of BEGIN are never taken |
| `ProviderStore.Store.StopExpired` | power-iot-a3-deployment-control-plane/internal/store/consume_v2.go:222-252 | an expired presentation ends the authorization and its pending intent together |
| `ProviderStore.Store.ClaimConsume` | power-iot-a3-deployment-control-plane/internal/store/consume_v2.go:286-419 | claims an unexpired ISSUED/PENDING pair for its own request, expires a late one, and otherwise reports the rows as they are |
| `ProviderStore.Store.ClaimStatements` | power-iot-a3-deployment-control-plane/internal/store/consume_v2.go:309-418 | the branches for a pending intent under another parent state, or a claimed intent with another owner, are never taken |
| `ProviderStore.Store.FinalizeConsume` | power-iot-a3-deployment-control-plane/internal/store/lifecycle.go:86-131 | consumes exactly a CLAIMED intent under its CONSUME_PENDING parent, and reports unknown in every other case |
| `ProviderStore.Store.FinalizeStatements` | power-iot-a3-deployment-control-plane/internal/store/lifecycle.go:92-126 | the ownership tuple always matches when the states do |
| `ProviderStore.Store.Consume` | power-iot-a3-deployment-control-plane/internal/store/consume_v2.go:18-57 | the three transactions with arbitrary steps of others in between, including normalisation of a missing authority to an unknown outcome |
| `ProviderStore.Store.ResolveConsume` | power-iot-a3-deployment-control-plane/internal/store/lifecycle.go:151-322 | reconciles a live pair to REVOKED, EXPIRED or CONSUME_UNKNOWN, for the owner or in recovery, and never produces CONSUMED |
| `ProviderStore.Store.Reconcile` | power-iot-a3-deployment-control-plane/internal/store/lifecycle.go:235-316 | the rejected mixed states of a resolved pair never occur |
| `ProviderStore.Store.ChangeLifecycle` | power-iot-a3-deployment-control-plane/internal/store/authority_lifecycle.go:13-138 | revokes or expires exactly an ISSUED authorization, expiry only once it is due, together with its pending intent; claimed work is untouched |
| `ProviderStore.Store.Issue` | power-iot-a3-deployment-control-plane/internal/store/store.go:338-464 | mints only for an unknown request and attempt under a current epoch; a known request is answered without a secret or refused |
| `ProviderStore.Store.ResolveIssue` | power-iot-a3-deployment-control-plane/internal/store/lifecycle.go:324-417 | tombstones an unknown request, revokes an issued authorization without intent, and leaves live intents in progress |
| `ProviderStore.Store.AcquireAuthority` | power-iot-a3-deployment-control-plane/internal/store/store.go:111-203 | the bulk updates, run in order, amount to one takeover of the whole ledger, or to nothing |
| `ProviderStore.Store.PoisonStatements` | power-iot-a3-deployment-control-plane/internal/store/store.go:168-182 | parents before children: the five updates equal the simultaneous poisoning |
| `ProviderStore.ParentsAreDone` | power-iot-a3-deployment-control-plane/internal/store/store.go:171-182 | after the parent updates every intent has a matching, finished parent, so the child updates miss none |
| `ProviderRuns.ReachableInv` | power-iot-a3-deployment-control-plane/internal/store/consume_v2.go:76-419 | every ledger reachable by any run satisfies the joint state set |
| `ProviderRuns.RunGrows` | power-iot-a3-deployment-control-plane/internal/store/lifecycle.go:86-322 | over any stretch of a run terminal rows, identities, bindings and owners never change |
| `ProviderRuns.OnlyFinalizeConsumes` | power-iot-a3-deployment-control-plane/internal/store/lifecycle.go:86-131 | a row becomes CONSUMED only by FINALIZE of the request that owns it |
| `ProviderRuns.ConsumedOnce` | power-iot-a3-deployment-control-plane/internal/store/lifecycle.go:86-131 | in one run no authorization is finalized twice, by whichever requests |
| `ProviderRuns.TakeoverPoisons` | power-iot-a3-deployment-control-plane/internal/store/store.go:166-188 | what was not consumed when an epoch began is never consumed afterwards |
| `ProviderRuns.ConsumedWasClaimedInTime` | power-iot-a3-deployment-control-plane/internal/store/consume_v2.go:346-410 | every owned authorization was claimed by that owner before it expired |
| `ProviderRuns.ConsumedInItsEpoch` | power-iot-a3-deployment-control-plane/internal/store/lifecycle.go:86-131 | FINALIZE happens only in the epoch that issued the authorization |
| `ProviderRuns.NoSecretForKnownRequest` | power-iot-a3-deployment-control-plane/internal/store/lifecycle.go:324-417 | once an issuer request has a row, tombstone included, nothing mints for it |
| `ProviderRuns.OneSecret` | power-iot-a3-deployment-control-plane/internal/store/store.go:338-464 | at most one secret per issuer request in any run |
| `ProviderConsumption.CallsAreARun` | power-iot-a3-deployment-control-plane/internal/store/consume_v2.go:76-419 | whatever transactions are attempted, in any order and with any fate of their commits, the ledger is one that a legal run reaches |
| `ProviderConsumption.OneSecretPerRequest` | power-iot-a3-deployment-control-plane/internal/store/store.go:338-464 | over every run of calls, once a secret was returned for an issuer request or the request was resolved, no Issue call returns a secret for it |
| `ProviderConsumption.ConsumedOncePerAuthorization` | power-iot-a3-deployment-control-plane/internal/store/lifecycle.go:86-131 | over every run of calls, two finalizations that answer CONSUMED concern different authorizations |
| `ProviderConsumption.ConsumptionReportsTruth` | power-iot-a3-deployment-control-plane/internal/store/consume_v2.go:18-43 | the states a consumption reports are those of its rows when it returns, whatever others did |
| `ProviderConsumption.OnlyUnknownHidesConsumption` | power-iot-a3-deployment-control-plane/internal/store/consume_v2.go:45-72 | if the call consumed the authorization it answers CONSUMED or unknown; any other answer means that it did not |
| `ProviderConsumption.UndisturbedConsumption` | power-iot-a3-deployment-control-plane/internal/store/consume_v2.go:18-43 | alone and acknowledged, one call consumes exactly the matching, unexpired presentations with no other request ahead |
| `ProviderLaws.AnswersAreTrue` | power-iot-a3-deployment-control-plane/internal/store/lifecycle.go:324-417 | over every run of calls, every answer that is no failure says what the rows are when it is given: states of the authorization and of its intent, no live intent unreported, the bound terms of a minted or known one, a closed request without authorization |
| `ProviderLaws.ResolvedIssueIsSettled` | power-iot-a3-deployment-control-plane/internal/store/lifecycle.go:361-411 | after a resolution that did not fail the request is known, and its authorization is ISSUED exactly if a pending intent was reported |
| `ProviderLaws.ReportedEndIsFinal` | power-iot-a3-deployment-control-plane/internal/store/lifecycle.go:398-408 | once any call reported an authorization revoked, expired or unknown it stays so in every later run, and no finalization of it answers CONSUMED |
| `ProviderLaws.RefusalIsExplained` | power-iot-a3-deployment-control-plane/internal/store/lifecycle.go:151-322 | over every run of calls a failure has its cause in the rows or the call, unless the commit or its acknowledgement was lost |
| `ProviderLaws.LifecycleChanges` | power-iot-a3-deployment-control-plane/internal/store/authority_lifecycle.go:13-138 | rows change exactly if the authorization is ISSUED and, for an expiry, due; then it and its intent end and nothing else changes |
| `ProviderLaws.ResolveChanges` | power-iot-a3-deployment-control-plane/internal/store/lifecycle.go:151-322 | a resolution succeeds exactly for an intent of the same terms, named or live in recovery, by its consumer or in recovery; nothing live is left of the pair |
| `ProviderLaws.ResolveIssueChanges` | power-iot-a3-deployment-control-plane/internal/store/lifecycle.go:342-411 | an unknown request gets a tombstone, an ISSUED authorization without intent is revoked, and nothing else changes |
| `ProviderLaws.IssueChanges` | power-iot-a3-deployment-control-plane/internal/store/store.go:338-464 | a secret is minted exactly for a well-formed new request and attempt in an epoch, with the rows it asked for |
| `ProviderLaws.BeginChanges` | power-iot-a3-deployment-control-plane/internal/store/consume_v2.go:117-283 | one PENDING intent is added exactly for a matching presentation in time with nobody ahead; a late one ends the pair |
| `ProviderLaws.ClaimChanges` | power-iot-a3-deployment-control-plane/internal/store/consume_v2.go:309-418 | an unexpired pending pair is claimed for the request that opened it, an expired one ends, nothing else changes |
| `ProviderLaws.FinalizeChanges` | power-iot-a3-deployment-control-plane/internal/store/lifecycle.go:86-131 | rows change exactly for a CLAIMED intent of the authorization, which becomes CONSUMED |
| `ProviderLaws.TakeoverChanges` | power-iot-a3-deployment-control-plane/internal/store/store.go:166-188 | ISSUED becomes REVOKED, claimed work becomes unknown, their intents follow, and what had ended stays as it was |
| `RefreshFamilies.StepKeepsInv` | backend/internal/adapters/persistence/auth.go:389-648 | every command keeps each family one acyclic replacement chain, digests unique, and revocation all or nothing per family |
| `RefreshFamilies.CurrentIsLast` | backend/internal/adapters/persistence/auth.go:452-495 | an unused token is the last of its family's chain |
| `RefreshFamilies.NoSibling` | backend/internal/adapters/persistence/auth.go:474-484 | the sibling check never rejects: every other token of the family is consumed |
| `RefreshFamilies.AuthRepository.RunRefresh` | backend/internal/application/auth/transaction.go:82-107 | refresh commits denials and successes and restores everything after an infrastructure error, whether the commit fails or only its acknowledgement is lost |
| `RefreshFamilies.AuthRepository.RefreshCallback` | backend/internal/application/auth/application.go:229-280 | the answer after rotation, the session check with the request's own clock, and signing |
| `RefreshFamilies.AuthRepository.RotateRefreshToken` | backend/internal/adapters/persistence/auth.go:389-548 | unknown, rejected, replayed or accepted, decided by the token's use, the session and both expiries; the lineage checks never reject a current token |
| `RefreshFamilies.AuthRepository.Replace` | backend/internal/adapters/persistence/auth.go:506-547 | consume, insert and link amount to one rotation, or fail where the storage refuses |
| `RefreshFamilies.AuthRepository.RevokeSessionFamilyLocked` | backend/internal/adapters/persistence/auth.go:620-648 | revokes the session and all its unrevoked tokens exactly when the instant precedes none of them |
| `RefreshFamilies.AuthRepository.RunLogin` | backend/internal/application/auth/application.go:159-199 | login starts a family of one token that expires with its session, or changes nothing |
| `RefreshFamilies.AuthRepository.RunLogout` | backend/internal/application/auth/application.go:316-330 | logout revokes the family of the session, or changes nothing |
| `RefreshRuns.ReachableInv` | backend/internal/adapters/persistence/auth.go:389-548 | every reachable family is one chain holding all its tokens |
| `RefreshRuns.OneCurrentToken` | backend/internal/adapters/persistence/auth.go:474-484 | a family has at most one token that can be rotated |
| `RefreshRuns.RunGrows` | backend/internal/adapters/persistence/auth.go:389-648 | consumption, links and revocations are permanent, and identities and expiries are fixed |
| `RefreshRuns.CommitPolicy` | backend/internal/application/auth/transaction.go:82-107 | for every fault: unless only the acknowledgement of the commit is lost, infrastructure errors change nothing, a denial changes only revocation times of one family, and only a successful refresh consumes, and only the presented token |
| `RefreshRuns.LostAcknowledgement` | backend/internal/application/auth/transaction.go:90-106 | a rotation that took effect although its caller sees an error |
| `RefreshRuns.RefreshSucceedsIff` | backend/internal/adapters/persistence/auth.go:389-548 | a refresh succeeds exactly for the last token of an unrevoked, unexpired family with the limiter's consent, fresh identifiers and no fault |
| `RefreshRuns.RefreshRotates` | backend/internal/adapters/persistence/auth.go:506-547 | a rotation consumes the presented token, links it to the new one and changes nothing else |
| `RefreshRuns.RefreshDenied` | backend/internal/application/auth/application.go:229-275 | without a fault an unknown token is denied, and a current one exactly for a revoked or expired session or by the limiter; nothing changes |
| `RefreshRuns.LoginSucceedsIff` | backend/internal/application/auth/application.go:159-199 | a login succeeds exactly for an enabled user with the right password, fresh identifiers and no fault on its way, with the session and token it creates; otherwise invalid credentials or an error, and nothing changes |
| `RefreshRuns.SessionsComeFromLogins` | backend/internal/application/auth/application.go:159-199 | in every run each session was opened by a login of its user, enabled and with the right password |
| `RefreshRuns.EachDigestSucceedsOnce` | backend/internal/adapters/persistence/auth.go:452-463 | in any run a refresh token is accepted at most once |
| `RefreshRuns.ReplayRevokes` | backend/internal/adapters/persistence/auth.go:452-463 | presenting a used token revokes the session and every token of the family at the decision time, whatever the limiter says, exactly when that time is not before the latest issue time |
| `RefreshRuns.ReplayWithLateClock` | backend/internal/adapters/persistence/auth.go:629-636 | a concrete run in which an earlier decision time leaves the family alive |
| `RefreshRuns.ClockOkMeans` | backend/internal/adapters/persistence/auth.go:629-636 | the check of all issue times is the check of the latest token's |
| `RefreshRuns.LogoutRevokes` | backend/internal/application/auth/application.go:316-330 | logout revokes the session and every token of the family at its instant exactly when that is not before the latest issue time, and otherwise changes nothing |
| `RefreshRuns.RevokedForever` | backend/internal/adapters/persistence/auth.go:620-648 | after a revocation nothing in the family is ever accepted again |
| `RefreshRuns.NothingOutlivesTheSession` | backend/internal/adapters/persistence/auth.go:497-505 | every token ever issued in a session expires at the expiry fixed at login |
| `AdminBinding.ExecuteKeepsInv` | backend/internal/application/adminbinding/executor.go:455-824 | every command keeps assignments disjoint per device and per point, open ones on ACTIVE devices, readings covered, and the ledger committed and audited |
| `AdminBinding.TransitionKeepsRows` | backend/internal/application/adminbinding/executor.go:589-824 | the same for bind, replace, relocate and unbind on any first plan, relocate needing no eligibility check |
| `AdminBinding.ClosingKeepsRows` | backend/internal/adapters/persistence/admin_binding.go:186-208 | closing after the telemetry check leaves every committed reading covered |
| `AdminBinding.OpeningKeepsRows` | backend/internal/application/adminbinding/executor.go:615-618 | opening on a free device and point, no earlier than their last assignments ended, overlaps nothing |
| `AdminBinding.ClosingFrees` | backend/internal/application/adminbinding/executor.go:899-908 | the closed assignment was alone on its device and point |
| `AdminBinding.DecisionIgnoresLedger` | backend/internal/adapters/persistence/admin_binding.go:58-109 | claiming a key does not influence the decision made under it |
| `AdminBinding.IngestKeepsInv` | backend/internal/adapters/persistence/admin_binding.go:183-208 | readings stored where an assignment covers them keep the invariant |
| `AdminBinding.Executor.ExecuteClaimed` | backend/internal/application/adminbinding/executor.go:455-553 | replays a committed key, refuses another request under it, or commits rows, ledger and audit together or not at all |
| `AdminBinding.Executor.Conclude` | backend/internal/application/adminbinding/executor.go:826-863 | audits and commits a result under its key, or rolls back everything the attempt wrote |
| `AdminBinding.Executor.CreateMeasurementPoint` | backend/internal/application/adminbinding/executor.go:555-587 | creates the point for an existing shop and a valid name |
| `AdminBinding.Executor.MoveAssignment` | backend/internal/application/adminbinding/executor.go:589-824 | the transition planned on the current rows, at one sampled instant, with the time and telemetry refusals |
| `AdminBinding.Executor.ChangeLifecycle` | backend/internal/application/devicelifecycle/application.go:65-173 | changes the lifecycle along allowed transitions, never to DISABLED or RETIRED under an open assignment |
| `AdminBinding.Executor.Run` | backend/internal/application/adminbinding/executor.go:298-340 | transient failures are retried for any number of attempts, with commands of others in between; success is that of exactly one attempt on the rows it then finds, and an error adds nothing to what others did |
| `AdminRuns.ReachableInv` | backend/internal/application/adminbinding/executor.go:589-824 | every registry reachable satisfies the invariant when each new assignment starts no earlier than those of its device or its point ended |
| `AdminRuns.Exclusive` | backend/internal/application/adminbinding/executor.go:589-824 | at no instant do two assignments share a device or a point, so at most one is open for each, and open ones have ACTIVE devices |
| `AdminRuns.ReadingsKeepTheirAssignment` | backend/internal/adapters/persistence/admin_binding.go:186-208 | no run orphans a committed reading |
| `AdminRuns.RunGrows` | backend/internal/core/domain/device_lifecycle.go:30-46 | RETIRED devices, closed assignments, ledger rows, audits and readings are permanent |
| `AdminRuns.Idempotent` | backend/internal/application/adminbinding/executor.go:482-503 | after any further events a repeated accepted command returns the first response and changes nothing, and another request under its key is refused |
| `AdminRuns.LedgerIsCommitted` | backend/internal/adapters/persistence/admin_binding.go:148-181 | every visible ledger row is committed, with one audit row for a binding operation and none for a lifecycle operation |
| `AdminRuns.HandoverLasts` | backend/internal/application/adminbinding/executor.go:637-765 | after an accepted replace or relocate and any further events, one assignment ends and the next begins at the one instant of the response, with the same point or the same device |
| `AdminRuns.CommandSucceedsIff` | backend/internal/application/adminbinding/executor.go:455-824 | a command under a new key succeeds exactly when it is admitted, unhindered, and possible on the rows, said for each of the eight commands |
| `AdminRuns.RefusalIsExplained` | backend/internal/application/adminbinding/executor.go:555-824 | every refusal has its cause: admission, a fault, or the rows that one of its plans saw |
| `AdminRuns.SameTargetIsInvalid` | backend/internal/application/adminbinding/executor.go:637-765 | replacing a device by itself or moving it to its own point is an invalid transition |
| `AdminRuns.ChangeTakesEffect` | backend/internal/application/devicelifecycle/application.go:129-173 | an accepted lifecycle command leaves the device in the requested state and an accepted creation the point in its shop; nothing else changes |
| `AdminRuns.BindAndUnbindLast` | backend/internal/application/adminbinding/executor.go:589-824 | after an accepted bind or unbind and any further events the table still shows what it did and when |
| `AdminRuns.RetirementIsFinal` | backend/internal/application/devicelifecycle/application.go:129-161 | once retired, in every further run a device stays retired, carries no open assignment, cannot be bound or replace another, and accepts no lifecycle command |
| `AdminRuns.FirstPlanOnlyRefuses` | backend/internal/application/adminbinding/executor.go:589-609 | commands between plan and lock cannot influence what is committed, only cause a refusal |
| `AdminRuns.LocksCoverWrites` | backend/internal/application/adminbinding/executor.go:589-618 | if a first plan and a later plan of one command both succeed they name the same assignment, devices and points, so the rows locked are the rows written |
| `AdminRuns.LocksCoverWritesInRuns` | backend/internal/application/adminbinding/executor.go:637-668 | the same for a first plan made at any earlier point of a run |
| `Coverage.Evaluate` | backend/internal/core/coverage/coverage.go:173-266 | reports the energy, watermark and state of the proven chain |
| `Coverage.Retreat` | backend/internal/core/coverage/coverage.go:205-216 | retreating and truncating withdraws exactly the last link, or nothing |
| `Coverage.RetreatToContainingInterval` | backend/internal/core/coverage/coverage.go:281-291 | the start of the last containing interval, or the earlier of point and frontier |
| `Coverage.TruncateProven` | backend/internal/core/coverage/coverage.go:268-279 | the longest prefix ending by the frontier, with its energy |
| `Coverage.JudgeMeans` | backend/internal/core/coverage/coverage.go:187-258 | when one interval is skipped, taken, or stops the scan with or without a retreat |
| `Coverage.ReportedEnergyIsAChain` | backend/internal/core/coverage/coverage.go:173-266 | the energy is the sum over attributable, conflict-free evidence tiling the reported window with valid neighbours |
| `Coverage.ChainCovers` | backend/internal/core/coverage/coverage.go:281-291 | a point inside the proven window lies in a link, so the last fallback of the retreat is never taken |
| `Coverage.LongestProvenPrefix` | backend/internal/core/coverage/coverage.go:173-266 | the proven chain is the longest extendable prefix of the relevant evidence, less one link exactly when the next interval contradicts it |
| `Coverage.WindowIsChainIff` | backend/internal/core/coverage/coverage.go:201-258 | for every evidence list the chain is all evidence starting in the reported window exactly when the first interval that does not extend it does not both start inside it and end past the snapshot, and no inverted interval starts there |
| `Coverage.NothingRejectedInsideWindow` | backend/internal/core/coverage/coverage.go:201-258 | in particular nothing is rejected inside the window when all evidence is well formed and ends by the snapshot |
| `Coverage.PastSnapshotMayStartInside` | backend/internal/core/coverage/coverage.go:201-204 | an interval past the snapshot that starts inside the window |
| `Coverage.ArrivalOrderIsIrrelevant` | backend/internal/core/coverage/coverage.go:179-186 | watermark and energy are the same for every permutation of the evidence |
| `CoverageOrder.StateOrderFreeIff` | backend/internal/core/coverage/coverage.go:179-258 | the state is the same for every arrival order exactly when, at a tie the evaluation reaches, every two members in either order yield one and the same state |
| `CoverageOrder.StateNeedsNoTies` | backend/internal/core/coverage/coverage.go:179-186 | without ties chain and state are both order-independent |
| `CoverageOrder.StateDependsOnTieOrder` | backend/internal/core/coverage/coverage.go:179-186 | two tied intervals whose order decides the state |
| `CoverageStates.StateMeans` | backend/internal/core/coverage/coverage.go:187-258 | for every evidence list the state is Proven or Unknown if all relevant intervals extend the chain, and otherwise what the first interval that does not calls for |
| `CoverageStates.JudgementsMean` | backend/internal/core/coverage/coverage.go:187-258 | which intervals are passed over and which extend a chain, said of the interval itself |
| `CoverageStates.LateIntervalIsGap` | backend/internal/core/coverage/coverage.go:217-220 | a lone interval that starts after the period began is a gap |
| `CoverageStates.ReportedEnergyIsSum` | backend/internal/core/coverage/coverage.go:136-141 | the reported energy is the sum of the kWh in the chain, up to half a millionth for each interval |
| `Coverage.StableSortSorts` | backend/internal/core/coverage/coverage.go:179-186 | the interval order is a sorted permutation |
| `Coverage.StableSortIsStable` | backend/internal/core/coverage/coverage.go:179-186 | tied evidence keeps its arrival order |
| `BillingEnergy.UnionDuration` | backend/internal/core/billingenergy/energy.go:108-126 | equals the number of instants of the window covered by at least one interval |
| `BillingEnergy.UnionSortedDuration` | backend/internal/core/billingenergy/energy.go:128-146 | one pass over the sorted intervals measures their union |
| `BillingEnergy.EvaluateObserved` | backend/internal/core/billingenergy/energy.go:158-217 | accepts exactly the clipped, deduplicated intervals that overlap no other; energy, duration and warning depend only on that set |
| `BillingEnergy.SweepGroups` | backend/internal/core/billingenergy/energy.go:188-208 | the group sweep keeps exactly the intervals alone in their group |
| `BillingEnergy.GroupEnd` | backend/internal/core/billingenergy/energy.go:190-198 | a group ends where nothing later overlaps it, and nobody in a longer group is alone |
| `BillingEnergy.AloneMeansIsolated` | backend/internal/core/billingenergy/energy.go:188-208 | being alone in the order is overlapping no other member of the set |
| `BillingEnergyQuery.EvaluatePointCandidates` | backend/internal/adapters/persistence/billing_energy_query.go:267-327 | energy and duration of the accepted, isolated readings, and every kind of refusal |
| `BillingEnergyQuery.EvaluateGroup` | backend/internal/adapters/persistence/billing_energy_query.go:281-318 | one reading per device sequence, accepted when its repeats agree and one assignment contains it |
| `BillingEnergyQuery.ObservedWithinExpected` | backend/internal/adapters/persistence/billing_energy_query.go:107-129 | for all candidates and assignments the observed duration is at most the expected one |
| `BillingReadings.ParseMeans` | backend/internal/adapters/persistence/billing_energy_query.go:351-364 | a stored energy is read exactly when it is a non-negative whole number of millionths of a kWh within 64 bits |
| `BillingReadings.JudgementMeans` | backend/internal/adapters/persistence/billing_energy_query.go:281-318 | an identity counts, or is refused for its cause, by its first reading, the agreement of the others and the assignments |
| `BillingReadings.RefusalsMean` | backend/internal/adapters/persistence/billing_energy_query.go:267-327 | each refusal is reported exactly when some identity or an unprofiled reading gives cause for it |
| `BillingReadings.EnergyIsSumOfReadings` | backend/internal/adapters/persistence/billing_energy_query.go:267-327 | the energy of a point is the sum of the kWh of the readings that count and overlap no other; without any it has none |
| `BillingReadings.InstantsMean` | backend/internal/adapters/persistence/billing_energy_query.go:107-129 | the expected and the observed duration count the instants of the period inside assignments and inside billed readings |
| `BillingShop.Aggregate` | backend/internal/core/billingenergy/energy.go:243-289 | sums, ratios and warnings of the clamped points |
| `BillingShop.ClampNeverFires` | backend/internal/core/billingenergy/energy.go:243-289 | on bounded points no duration changes and every ratio lies in [0, 1] |
| `BillingShop.FindBillingEnergy` | backend/internal/adapters/persistence/billing_energy_query.go:90-136 | for every stored state each point reports the instants expected and observed, their exact ratio, in millionths the sum of the kWh of its billed readings, and exactly the warnings that are due; the shop is the sum of its points, every ratio lies in [0, 1] and nothing was clamped |
| `Tariff.ValidateTiers` | backend/internal/core/billingestimate/calculator.go:99-118 | accepts exactly contiguous non-empty tiers from zero with only the last unbounded |
| `Tariff.Calculate` | backend/internal/core/billingestimate/calculator.go:42-97 | each item is what its tier takes of the usage at the tier's rate, the items sum to the usage and to the raw charge, which is cut to tenths, lifted to the minimum and rounded; fails exactly on bad input, a bad schedule or usage beyond a bounded last tier |
| `Tariff.TotalMonotone` | backend/internal/core/billingestimate/calculator.go:42-83 | more usage never costs less, and nothing costs less than the rounded minimum |
| `Tariff.TotalNearExactCharge` | backend/internal/core/billingestimate/calculator.go:120-144 | the total differs from the exact charge only by the truncation and half-unit bounds |
| `Tariff.MarginalRate` | backend/internal/core/billingestimate/calculator.go:55-72 | inside one tier extra usage costs exactly that tier's rate |
| `Tariff.TruncateBounds` | backend/internal/core/billingestimate/calculator.go:120-130 | truncation yields a whole number of tenths and loses less than a tenth |
| `Tariff.RoundNearest` | backend/internal/core/billingestimate/calculator.go:132-144 | rounding is to the nearest whole, halves up |
| `PlanSchedule.ShopBilling.SetBillingPlan` | backend/internal/adapters/persistence/billing_configuration.go:119-212 | checks catalogue and tariff, then replaces a scheduled plan, keeps the current one, or closes it at the next month |
| `PlanSchedule.ShopBilling.UpdateShopTariff` | backend/internal/adapters/persistence/shops_query.go:102-144 | a shop with billing history keeps its tariff |
| `PlanSchedule.ShopBilling.SelectEstimatePlan` | backend/internal/adapters/persistence/billing_estimate_query.go:174-210 | the plan of the only row touching the month, or why there is none |
| `PlanSchedule.PlannedEffect` | backend/internal/adapters/persistence/billing_configuration.go:154-212 | a setting keeps every month before its target and applies from it on; the overlap constraint never refuses it |
| `PlanSchedule.SettingTakesEffect` | backend/internal/adapters/persistence/billing_configuration.go:119-212 | a setting is Done exactly for an offered plan, which is then effective from the target month on with nothing changed before; every refusal has its condition and changes nothing |
| `PlanSchedule.TariffTakesEffect` | backend/internal/adapters/persistence/shops_query.go:102-144 | a tariff is set exactly on a shop without history or to the value it has |
| `PlanSchedule.OfferedMeans` | backend/internal/adapters/persistence/billing_configuration.go:137-152 | the three pairs of tariff and plan that can be offered |
| `PlanSchedule.LastSettingGoverns` | backend/internal/adapters/persistence/billing_configuration.go:119-212 | over every run a month is served by the last accepted setting whose target is not after it |
| `PlanSchedule.EstimateUsesLastSetting` | backend/internal/adapters/persistence/billing_estimate_query.go:93-210 | after any run of a new shop an estimate uses that setting, and asks for a configuration without one |
| `PlanSchedule.StepKeepsInv` | backend/internal/adapters/persistence/billing_configuration.go:119-212 | each command keeps the tiling, the compatibility and the plans already effective |
| `PlanSchedule.RunKeepsHistory` | backend/internal/adapters/persistence/billing_configuration.go:119-212 | over every run with nondecreasing months the rows tile [first month, forever) and past plans never change |
| `PlanSchedule.SelectionIsServed` | backend/internal/adapters/persistence/billing_estimate_query.go:93-210 | after any run, selection for any month from the first on yields the effective plan |
| `AckProtocol.StepKeepsInv` | tools/device-simulator/main.go:590-757 | every critical section keeps waiters unique with empty channels, the queue bounded without repeats, and deferred ACKs terminal and for queued items |
| `AckProtocol.DeliverKeepsInv` | tools/device-simulator/main.go:1641-1650 | the one-slot send to the first waiter always succeeds |
| `AckProtocol.DeviceSimulator.InstallClient` | tools/device-simulator/main.go:644-658 | a new client changes the session without pruning |
| `AckProtocol.DeviceSimulator.StartRestoration` | tools/device-simulator/main.go:666-677 | a restoration of the current client starts a new session |
| `AckProtocol.DeviceSimulator.FinishRestoration` | tools/device-simulator/main.go:713-725 | readiness is set only for the restoration in progress |
| `AckProtocol.DeviceSimulator.OnConnectionLost` | tools/device-simulator/main.go:590-604 | loss of the current connection invalidates and prunes |
| `AckProtocol.DeviceSimulator.DisconnectForReconnect` | tools/device-simulator/main.go:727-749 | detaching the client invalidates and prunes |
| `AckProtocol.DeviceSimulator.Stop` | tools/device-simulator/main.go:1684-1698 | the first shutdown invalidates and prunes for good |
| `AckProtocol.DeviceSimulator.PruneStaleQueueWaiters` | tools/device-simulator/main.go:606-642 | exactly the waiters of publish attempts and the authorizations of queued items go |
| `AckProtocol.DeviceSimulator.HandleAck` | tools/device-simulator/internal/simulator/queue.go:111-148 | removes exactly the pending item a terminal ACK names and remembers it for a bounded time |
| `AckProtocol.DeviceSimulator.AddItem` | tools/device-simulator/internal/simulator/queue.go:69-107 | adds an item unless it is pending, recently completed, or the queue is full |
| `AckProtocol.DeviceSimulator.RegisterAckMode` | tools/device-simulator/main.go:1445-1484 | appends a waiter of the current session and withdraws the authorization of a queued item |
| `AckProtocol.DeviceSimulator.RevokeAckAttempt` | tools/device-simulator/main.go:1486-1499 | withdraws the attempt's and the item's authorization |
| `AckProtocol.DeviceSimulator.ArbitrateAckTimeout` | tools/device-simulator/main.go:1501-1517 | a delivered ACK wins over the timer; otherwise the attempt is revoked |
| `AckProtocol.DeviceSimulator.ReleaseAckAttempt` | tools/device-simulator/main.go:1519-1570 | authorizes only in the attempt's own ready session, and redeems a deferred ACK |
| `AckProtocol.DeviceSimulator.ResolveAckForSession` | tools/device-simulator/main.go:1585-1650 | completes an authorized item, defers the ACK of an unauthorized one, and tells the first waiter where allowed |
| `AckProtocol.DeviceSimulator.RemoveAck` | tools/device-simulator/main.go:1652-1669 | withdraws exactly the given waiter |
| `AckRuns.RemovalNeedsGrant` | tools/device-simulator/main.go:1519-1650 | an item leaves only by a terminal ACK for it, while it is authorized or by a release that passes its checks |
| `AckRuns.AuthorizationNeedsGrant` | tools/device-simulator/main.go:1519-1545 | only a release validated in the ready session authorizes |
| `AckRuns.RevokedUntilReleased` | tools/device-simulator/main.go:1445-1650 | in every run a revoked, re-registered, timed-out or lost attempt cannot remove its item before another granted release |
| `AckRuns.RemovableWithoutReleaseIff` | tools/device-simulator/main.go:1602-1620 | over arbitrary interleavings, an item just queued can be removed with no release granted for it exactly when its identity was authorized before |
| `AckRuns.RemovedWithoutReleaseWasAuthorized` | tools/device-simulator/main.go:1602-1620 | an item removed without a release granted since it was queued was already authorized when it was queued |
| `AckRuns.SendNeverDrops` | tools/device-simulator/main.go:1646-1649 | in every reachable state the first waiter's slot is empty |
| `AckRuns.NeverWaitsAgain` | tools/device-simulator/main.go:1445-1484 | a waiter that left its list never returns to one, so it is told at most once |
| `AckRuns.AckIsNotLost` | tools/device-simulator/main.go:1602-1620 | an accepted terminal ACK for a queued item completes it or is kept |
| `AckRuns.DeferredStays` | tools/device-simulator/main.go:1602-1620 | a kept ACK stays until its item is completed |
| `AckRuns.ReleaseRedeems` | tools/device-simulator/main.go:1540-1570 | a granted release completes the item and sends exactly the kept ACK |
| `AckRuns.KeptUntilGrant` | tools/device-simulator/main.go:1602-1620 | over every run, until a release is granted a deferred item stays queued and the latest ACK for it stays kept |
| `AckRuns.KeptAckIsDelivered` | tools/device-simulator/main.go:1540-1570 | after a deferral the first granted release completes the item and sends the first waiter the latest ACK |
| `AckRuns.QueueDiscipline` | tools/device-simulator/internal/simulator/queue.go:69-135 | the queue changes only by appending a new item or removing one, in order |
| `AckRuns.CompletedMeans` | tools/device-simulator/internal/simulator/queue.go:111-148 | completing removes one item in place and remembers its identity, at the cost of the oldest when full |
| `AckDelivery.StepTells` | tools/device-simulator/main.go:1585-1650 | a channel receives an ACK exactly when it is heard for a first waiter whose session, item and release allow it, or a granting release redeems it |
| `AckDelivery.TerminalAckNeedsRelease` | tools/device-simulator/main.go:1624-1631 | over every interleaving a terminal ACK reaches a publish attempt only after a release let that very waiter through, not withdrawn since |
| `AckDelivery.OnlyTheReleasedAttemptIsTold` | tools/device-simulator/main.go:1222-1294 | in every run of the program only the open attempt is told an ACK, for its own identity, and a terminal one only after its release |
| `AckDelivery.ForeignIsIgnored` | tools/device-simulator/main.go:1590-1594 | a release or an ACK of another client or session, or before readiness, does nothing |
| `AckDelivery.ReadyWasRestored` | tools/device-simulator/main.go:666-725 | over every interleaving a ready session is one that a restoration of its current client began |
| `AckSessions.AuthorizationIsOfThisSession` | tools/device-simulator/main.go:606-675 | over arbitrary interleavings, an authorization belongs to the current session exactly when, since its grant, no client was installed, no restoration was begun and no session ended while the identity was not queued |
| `AckSessions.WaiterEpoch` | tools/device-simulator/main.go:606-642 | a waiter is stale exactly when its session changed since its registration, and a publish attempt survives no change that prunes |
| `AckSessions.StaleAheadIff` | tools/device-simulator/main.go:606-642 | over arbitrary interleavings, a waiter of an older session stands ahead of one of the current session exactly when some waiter outlived a new client or a restoration, or, not being a publish attempt, a session end, and another was registered since |
| `AckSessions.PruningKeepsAttemptsInOrder` | tools/device-simulator/main.go:606-642 | for publish attempts, session changes that prune leave no stale waiter ahead |
| `AckAttempts.RemovedByOpenAttempt` | tools/device-simulator/main.go:1222-1294 | in every run of the program an item leaves only in a ready session, by a terminal ACK for it, while the attempt for it is open and was granted its authorization in that session |
| `AckAttempts.QueuedGrantIsCurrent` | tools/device-simulator/main.go:1312-1392 | a queued identity is authorized only in the ready session in which its open attempt was granted |
| `AckAttempts.AuthorizedWhileOpen` | tools/device-simulator/main.go:1333-1336 | an identity is authorized only while the attempt for it is open and has not revoked |
| `AckAttempts.OnlyTheAttemptWaits` | tools/device-simulator/main.go:1222-1294 | only the open attempt waits, on its own identity |
| `AckAttempts.NeverStaleAhead` | tools/device-simulator/main.go:606-611 | at most one waiter exists for an identity, so no stale waiter is ever ahead of a current one |
| `AckAttempts.FreshItemIsUnauthorized` | tools/device-simulator/main.go:1248-1257 | an item that is queued afresh is never authorized |
| `AckAttempts.NeverSlipped` | tools/device-simulator/main.go:1073-1105 | every authorization of a queued identity is one of the current session |
| `AckExamples.OrderlyDelivery` | tools/device-simulator/main.go:1312-1392 | a run of the program that queues, publishes, receives its ACK and withdraws |
| `AckExamples.GrantOutlivesSession` | tools/device-simulator/main.go:644-677 | an interleaving in which a grant of session 2 removes an item in session 4, and the handover rule it breaks |
| `AckExamples.RedeemedGrantRemovesNextItem` | tools/device-simulator/main.go:1540-1570 | an interleaving in which the authorization left by a redeeming release removes the next item of that identity, and the attempt lock it breaks |
| `AckExamples.RedeemedGrantOutlivesPruning` | tools/device-simulator/main.go:632-641 | from that excluded state the authorization outlives a session end |
| `AckExamples.StaleWaiterBlocksCurrentOne` | tools/device-simulator/main.go:644-677 | an interleaving in which a stale first waiter keeps the ACK from the current one, and the rules it breaks |
| `AckExamples.PruningSparesPlainWaiters` | tools/device-simulator/main.go:606-642 | a waiter that is no publish attempt, which no caller registers, stays first across a session end |
| `Limiter.Guarantee` | backend/internal/security/limiter.go:109-215 | in every run the table is bounded, a key not evicted has at most 5, 20, 30 or 10 acceptances by its dimension in any half-open quarter of an hour, and a full key really had that many |
| `Limiter.RunTracks` | backend/internal/security/limiter.go:169-200 | each counter summarises the acceptances since its key was last evicted |
| `Limiter.RunFits` | backend/internal/security/limiter.go:201-215 | the table never exceeds its maximum |
| `Limiter.WindowBound` | backend/internal/security/limiter.go:11-19 | spaced acceptances put at most the limit in any window |
| `Limiter.AbuseLimiter.constructor` | backend/internal/security/limiter.go:57-80 | an empty table with the configured maximum if it is in range |
| `Limiter.AbuseLimiter.CleanupLocked` | backend/internal/security/limiter.go:193-200 | removes exactly the expired entries, in any iteration order |
| `Limiter.AbuseLimiter.AllowLocked` | backend/internal/security/limiter.go:147-157 | allows exactly when no key is at its limit |
| `Limiter.AbuseLimiter.EnsureCapacityLocked` | backend/internal/security/limiter.go:201-215 | a full table loses one least recently touched key, a table with room none |
| `Limiter.AbuseLimiter.IncrementKey` | backend/internal/security/limiter.go:169-192 | counts a valid key below its limit and extends its expiry |
| `Limiter.AbuseLimiter.IncrementLocked` | backend/internal/security/limiter.go:169-192 | counts the keys in order, each with its own eviction |
| `Limiter.AbuseLimiter.Allow` | backend/internal/security/limiter.go:141-146 | cleans up and checks without counting |
| `Limiter.AbuseLimiter.Record` | backend/internal/security/limiter.go:158-168 | cleans up and counts |
| `Limiter.AbuseLimiter.AttemptAccepted` | backend/internal/security/limiter.go:109-134 | accepts exactly when both keys have room after clean-up; an accepted attempt is an acceptance of each valid key, a denied one of neither |
| `Limiter.AttemptIsAccepted` | backend/internal/security/limiter.go:109-134 | the acceptances of both keys grow by the attempt, restarting where an eviction forgot them |

## Left out

- SQL, PostgreSQL isolation, row locks and advisory locks: a committed transaction is one atomic step. Freedom from
  deadlock is not claimed; admin binding locks devices for share before locking them for update.
- Cryptography, randomness, UUIDs, digests and canonical hashes: opaque values, unique where the storage keeps them
  unique, injective where a hash is compared.
- HTTP handlers, JSON, Gin middleware, MQTT and TLS calls, goroutine scheduling and real timers.
- Authorization queries of admin binding, plan setting and tariff changes: inputs that say whether the actor may act.
- Resolution of a device reference by serial number or MAC: a command names the device it resolves to.
- Floating point in the coverage energies (NaN, infinities, rounding of the product) and int64 overflow of sums: exact
  reals and unbounded integers are used, and rounding to micro-kWh is explicit.
- Formatting of decimals, order of warnings, and the in-place sort of a caller's slice.
- Unicode white space: blank strings are blanks, tabs and line breaks; identities are not trimmed.
- Provider `Inspect`, schema admission and the deployment gates: straight-line reads and checks.
- Selection of a rate set and its tiers for an estimate: one-row lookups.
- The dashboard's SQL energy, which treats exact duplicates differently from the observed-interval sweep.
- Limiter input normalisation and hashing: a key is a dimension with a digest, or the invalid key.
- `Len` of the limiter, the read-only queue accessors and releasing the authority: plain reads and one assignment.
- Limiter.Guarantee: acceptances of a key are counted since its last eviction, as the program forgets an evicted key.
- Waiters registered outside a publish attempt: the program has no caller that does so.
