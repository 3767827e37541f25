# Verified model of the receipt backend's stateful core

This project models, in Dafny 4.11, the parts of the backend whose correctness depends on
interleavings, on whole runs, or on arithmetic and text: the transactional outbox, the credit ledger
with promotion redemptions, the due-notification scheduler, receipt listing with warranty dates, and
refresh-token sessions. `dafny verify dfyconfig.toml` checks all of it.

Two forms appear side by side. Where transactions or workers race, a component is a step system: a
state, an `Enabled` predicate, a `Next` function and runs over them. Its theorems speak about every
state of every run. Where the program updates objects or loops, the same operations are classes and
methods whose contracts tie the new state to a function of the old one. For the outbox the two forms
share their row functions; for credits, redemptions and the scheduler lemmas connect them.

* **Outbox** - `OutboxRows` holds the statements, `OutboxProtocol` the step system and its invariant,
  `OutboxGuarantees` and `OutboxAttempts` the theorems over runs, `OutboxWorkers` relay and immediate
  dispatch as code. `EventSerialization` covers payloads, the type registry and the publisher.
* **Credits and promotions** - `CreditLedger` and `Promotions` are the domain; `CreditProtocol` and
  `CreditGuarantees` cover racing grants and usages; `RedemptionProtocol`, `RedemptionInvariant` and
  `RedemptionGuarantees` add redemptions whose deferred grant shares their transaction;
  `CreditUseCases` and `RedemptionUseCases` are the commands as code; `RedemptionAnswers` says what
  they answer in terms of requests and columns; `RedemptionRuns` connects them with the protocol;
  `RedemptionKeys` holds the key strings.
* **Scheduler** - `ScheduleRules`, `ExpiryEnumeration` and `ReminderEnumeration` say who is due,
  `SchedulerProtocol` covers concurrent runs, `SchedulerUseCase` a whole run as code, `SchedulerRuns`
  connects the two; `SchedulerDueDays` says what a run sends in terms of the columns. `DueSnapshot`, `OrderedRows` and `IdSets` hold the tables they read and facts about
  ordered rows.
* **Listing and dates** - `LikePattern`, `Keyset`, `ReceiptListing`, `Warranty`.
* **Sessions** - `AuthSessions`.

## What the code does not promise

The model follows the code where the code and its description differ.

* `save` looks the balance row up again after a locking read that found none, and then overwrites a
  row that another transaction has just committed. Balances therefore agree with the ledger exactly in
  runs without such a commit (`CreditGuarantees.LedgerAgreementExactly`). `TwoFirstGrantsLoseOne` is a
  run in which they do not.
* With a retry limit of zero, the immediate path still claims a row that the relay counts as used up
  (`OutboxGuarantees.DeadLettersFrozenIffLimitPositive`).
* A list of ids, timestamps or enums does not survive serialisation, because the element type is taken
  for the field's type, and a default id or timestamp cannot stand in for a missing field. No event
  class in the repository has such a list. An enum that comes back as plain text counts as changed.
* Validation asks an inactivity rule for a repeat interval but not for a lookback, and a run that
  meets such a rule raises (`SchedulerUseCase.AValidatedRuleRaises`). The only other cause of raising is
  the notification module itself (`SchedulerUseCase.CreateDueNotifications`).
* The loser of a first-row race is told that its credit was granted although nothing is stored: a
  redemption answered as granted is stored exactly if it did not lose its user's first balance row
  (`RedemptionGuarantees.AnswerIsTrueExactly`). `RedemptionRuns.TwoFirstRedemptionsLoseOne` is a run in
  which one does.
* The docstring of the immediate dispatcher speaks of delete-then-dispatch; the code claims,
  dispatches and then deletes.

## Model

| member | source | states |
|---|---|---|
| `OutboxRows.RelayTokenIsTheClock` | app/core/db/outbox/relay.py:97-105 | for every eligible row the relay's forced token is just its clock, exactly when the lease length is not negative; only the immediate path needs the bump |
| `OutboxProtocol.InvKept` | app/core/db/outbox/relay.py:83-141 | every publish, commit, rollback, claim, return, raise, settle or crash, by any worker on any clock, keeps the placement, claim-history, fencing, retry and delivery invariants |
| `OutboxGuarantees.ClaimsOfOneEventAreALeaseApart` | app/core/db/outbox/relay.py:83-117 | two claims of one event: the later is a relay claim, more than the lease length after the earlier one's clock reading, with a strictly larger token |
| `OutboxGuarantees.SupersededWorkerChangesNothing` | app/core/db/outbox/relay.py:120-141 | once an event has a newer claim, the older worker's delete or failure mark changes no row |
| `OutboxGuarantees.AtMostOneOwner` | app/core/db/outbox/immediate_dispatch.py:57-95 | at most one claim in flight per event matches the stored row |
| `OutboxGuarantees.DispatchesDoNotOverlap` | app/core/db/outbox/relay.py:59-117 | if every claim settles within its lease, two claims of one event are never in flight together |
| `OutboxGuarantees.DispatchedExactlyOnce` | app/core/db/outbox/relay.py:59-81 | without crash or handler failure and with claims settled in time, an event is claimed at most once, and a settled event had its one dispatch return |
| `OutboxAttempts.ClaimedAtMostTheLimit` | app/core/db/outbox/relay.py:59-141 | handlers may raise and workers may die: with a positive limit and claims settled in time, an event is claimed at most as often as the retry limit says and once more for each of its claims that died; every claim but the latest ended in a counted failure or a death |
| `OutboxAttempts.RelayClaimExactly` | app/core/db/outbox/relay.py:83-117 | in every reachable state the relay can claim a stored event exactly if its counted failures are below the limit and the clock is past the lease, however often it was claimed before |
| `OutboxAttempts.ImmediateClaimExactly` | app/core/db/outbox/immediate_dispatch.py:29-62 | in every reachable state the immediate path can claim exactly a stored, readable event that nobody has claimed |
| `OutboxAttempts.FailedEventIsRetried` | app/core/db/outbox/relay.py:64-77 | an event whose latest claim failed, or did not return, is still stored, and below the limit the relay can claim it at every clock past that claim's lease |
| `OutboxAttempts.DeathMeansRedelivery` | app/core/db/outbox/relay.py:114-117 | a worker may die at any point, even after its dispatch returned: without a retry being spent, the event can be claimed again at every clock past its lease |
| `OutboxGuarantees.NothingIsLost` | app/core/db/outbox/publisher.py:23-36 | each event of a committed transaction is still a row, or was claimed, had its dispatch return, and was then deleted by that very claim, in this order |
| `OutboxGuarantees.OnlyCommittedEventsAreDispatched` | app/core/db/outbox/immediate_dispatch.py:29-37 | whatever is claimed for dispatch was inserted by a transaction that committed before |
| `OutboxGuarantees.NoPhantom` | app/core/db/outbox/publisher.py:23-36 | a committed event was inserted by some earlier committing transaction |
| `OutboxGuarantees.RolledBackIsNeverDispatched` | app/core/db/outbox/publisher.py:23-36 | no event of a transaction that rolled back is ever stored or claimed |
| `OutboxGuarantees.UnreadableStaysStored` | app/core/db/outbox/relay.py:64-79 | an event whose payload cannot be read back is never delivered, and its row is never deleted |
| `OutboxGuarantees.NobodyWaits` | app/core/db/outbox/relay.py:83-117 | publishing, committing, rolling back, raising, returning and settling wait for no other worker or transaction |
| `OutboxGuarantees.RetryColumnCountsFailures` | app/core/db/outbox/relay.py:130-141 | the retry column equals the number of failures whose mark took effect, and stays within a positive limit |
| `OutboxGuarantees.FailureIsAnEffectiveMark` | app/core/db/outbox/relay.py:130-141 | a failure is counted exactly when a raised dispatch settled and changed its row |
| `OutboxGuarantees.DeadLetterStays` | app/core/db/outbox/relay.py:86-95 | with a positive limit, a row that used up its retries is the same row in every later state |
| `OutboxGuarantees.DeadLettersFrozenIffLimitPositive` | app/core/db/outbox/immediate_dispatch.py:48-55 | used-up rows are never claimed, changed or deleted in any run exactly when the limit is at least one; with zero the immediate path still claims them |
| `OutboxWorkers.OutboxTable.ClaimNext` | app/core/db/outbox/relay.py:83-117 | finds none exactly if every row has its lease or has used up its retries; otherwise claims and stamps the lowest-id row that has neither, whatever its payload |
| `OutboxWorkers.OutboxTable.Delete` | app/core/db/outbox/relay.py:119-128 | deletes the row exactly if id, retry count and token are those of the claim |
| `OutboxWorkers.OutboxTable.BumpRetry` | app/core/db/outbox/relay.py:130-141 | raises the retry count under the same condition |
| `OutboxWorkers.OutboxTable.DispatchImmediately` | app/core/db/outbox/immediate_dispatch.py:15-95 | dispatches exactly a stored row whose payload is readable, that never failed and still has its own time; then deletes it, or stamps it and counts one failure |
| `OutboxWorkers.OutboxTable.DispatchAllImmediately` | app/core/db/outbox/immediate_dispatch.py:98-113 | over a list of events, however often one is named, each unclaimed row is handled once and every other row stays |
| `OutboxWorkers.OutboxRelay.HandleNext` | app/core/db/outbox/relay.py:59-80 | one iteration takes a row that is past its lease and below the limit; it deletes the row if its payload could be read and the handlers returned, and otherwise stamps it and counts one failure |
| `OutboxWorkers.OutboxRelay.RunOnce` | app/core/db/outbox/relay.py:56-81 | the loop leaves the rows, and handles the events, of the recursive batch specification; a short batch leaves only rows with a lease or without retries |
| `OutboxWorkers.BatchHandlesLowestIdsOnce` | app/core/db/outbox/relay.py:56-117 | with a fixed clock that batch is the min(batch size, eligible) lowest ids, once each in id order, whatever handlers do; the eligible set shrinks by one each time |
| `EventSerialization.SurvivalExactly` | app/core/db/outbox/serialization.py:75-101 | the supported field types are exactly those all of whose values survive encoding and decoding; lists of ids, timestamps or enums are not among them |
| `EventSerialization.EventRoundTrip` | app/core/db/outbox/serialization.py:104-138 | deserialising a serialised event of a registered class with supported fields gives the event back |
| `EventSerialization.DefaultsWorkExactly` | app/core/db/outbox/serialization.py:112-119 | a default that stands in for a missing field comes through the decoder unchanged exactly when it is not an id or a timestamp |
| `EventSerialization.DefaultsDecodeLikeStoredValues` | app/core/db/outbox/serialization.py:112-119 | a default that is a text, a number or None is decoded like the same value in a payload |
| `EventSerialization.OlderPayloadRestores` | app/core/db/outbox/serialization.py:112-138 | a payload stored before fields with usable defaults were added restores the event with those defaults |
| `EventSerialization.DeserializeFailsExactly` | app/core/db/outbox/serialization.py:122-138 | deserialising fails exactly for an unregistered type or a field that is missing without a usable default or holds an unreadable value, and names the unregistered type alone as such |
| `EventSerialization.PublishedRowIsUnclaimed` | app/core/db/outbox/publisher.py:23-36 | the row of a publishable event carries the event's id and time, deserialises to the event, and is recognised as never claimed until a later time is stamped on it |
| `EventSerialization.UnclaimedExactly` | app/core/db/outbox/immediate_dispatch.py:39-55 | a stored row counts as unclaimed exactly if its payload can be read back and gives the time in the row |
| `EventSerialization.EventTypeRegistry.Register` | app/core/db/outbox/serialization.py:46-47 | the class is entered under its name, replacing what was there |
| `EventSerialization.EventTypeRegistry.Merge` | app/core/db/outbox/serialization.py:49-66 | succeeds exactly without a name that stands for two classes, and is then the union; otherwise the entries before that name have been taken over |
| `EventSerialization.OutboxPublisher.Publish` | app/core/db/outbox/publisher.py:23-36 | appends one row per event in order, each carrying its event if that is publishable; stops at the first event that cannot be stored, with the rows before it pending |
| `CreditLedger.UserCredit.Debit` | app/modules/credits/domain/model.py:150-160 | refused, with nothing changed, exactly when too little remains; else moves the amount from remaining to used |
| `CreditLedger.UserCredit.Credit` | app/modules/credits/domain/model.py:162-185 | adds to total and remaining, and records one event |
| `CreditProtocol.InvKept` | app/modules/credits/infrastructure/persistence/repository.py:42-100 | every step of racing grants, usages and deletions keeps ledger identities unique, locked copies current, row locks exclusive and flushed rows free of collisions, lost updates included |
| `CreditGuarantees.AgreementKeptExactly` | app/modules/credits/infrastructure/persistence/repository.py:53-72 | a step keeps every stored balance equal to its ledger exactly when it does not commit a save that found a row its locking read had missed |
| `CreditGuarantees.LedgerAgreementExactly` | app/modules/credits/infrastructure/persistence/repository.py:42-72 | balances and ledger agree in every state of a run exactly when the run has no such commit |
| `CreditGuarantees.AloneAtFirstAgrees` | app/modules/credits/infrastructure/persistence/repository.py:42-72 | what a caller can arrange: balances and ledger agree throughout any run in which transactions of a user without a balance row do not overlap |
| `CreditGuarantees.StaleCommitLosesTheOldTotal` | app/modules/credits/infrastructure/persistence/repository.py:53-72 | such a commit leaves the balance short by the whole previous total |
| `CreditGuarantees.TwoFirstGrantsLoseOne` | app/modules/credits/infrastructure/persistence/repository.py:42-72 | a reachable state after the first grants of two redemptions by one new user, in which the balance is 3 and the ledger holds 8 |
| `CreditGuarantees.IdempotentWhateverTheRace` | app/modules/credits/infrastructure/persistence/orm.py:118-133 | in every reachable state no key is in the ledger twice, whoever it belongs to, and no source twice for one user and kind of entry; stored balances add up |
| `CreditGuarantees.OthersChangeNothing` | app/modules/credits/application/commands/grant_credit/use_case.py:57-73 | only a commit of flushed work and an account deletion change balances or ledger; losers, replays and rollbacks change nothing |
| `CreditGuarantees.AbsorbedConflicts` | app/modules/credits/infrastructure/persistence/repository.py:94-100 | a grant absorbed as a duplicate although its identity is new had found no balance row: it lost the first-row race |
| `CreditGuarantees.RepetitionIsReplayed` | app/modules/credits/application/commands/grant_credit/use_case.py:79-95 | the duplicate check turns a grant into a replay, which writes nothing, exactly if its identity is in the ledger |
| `CreditGuarantees.WaitsExactly` | app/modules/credits/infrastructure/persistence/repository.py:42-100 | a transaction waits exactly while another open one has locked its user's row or has flushed rows that collide with its own, and may always give up |
| `CreditGuarantees.NeverStuck` | app/modules/credits/infrastructure/persistence/repository.py:42-100 | grants and usages never deadlock: in every reachable state with open transactions one of them can go on |
| `CreditGuarantees.DeletionWaitsForALock` | app/modules/credits/infrastructure/persistence/repository.py:132-136 | an account can be deleted unless an open transaction has locked its balance row, which then exists |
| `CreditUseCases.GrantIsIdempotent` | app/modules/credits/application/commands/grant_credit/use_case.py:28-34 | repeating a grant that has an identity does nothing |
| `CreditUseCases.RepetitionExactly` | app/modules/credits/application/commands/grant_credit/use_case.py:79-95 | a grant is taken for a repetition exactly if a ledger row has its key, or its source, user and kind |
| `CreditUseCases.WorkKeepsTables` | app/modules/credits/application/commands/grant_credit/use_case.py:28-56 | a grant, or a covered usage, keeps balances consistent, identities unique and ledger agreement |
| `CreditUseCases.RowsDoTheWork` | app/modules/credits/application/commands/grant_credit/use_case.py:36-56 | the two rows that a grant or usage flushes amount to its whole work on the tables the session saw |
| `CreditUseCases.GrantCredit` | app/modules/credits/application/commands/grant_credit/use_case.py:28-77 | what a grant leaves in the session, the tables and its answer, from what others had stored at its save and at its flush: duplicate, conflict with and without identity, vanished row, deferred and immediate commit |
| `CreditUseCases.ReserveCredit` | app/modules/credits/application/commands/reserve_credit/use_case.py:9-14 | debits the balance without ledger row or commit, exactly when covered |
| `CreditUseCases.FinalizeUsage` | app/modules/credits/application/commands/finalize_credit_usage/use_case.py:34-52 | appends the usage row and commits it with the reserved debit |
| `CreditUseCases.ExtractReceipt` | app/modules/ocr/application/commands/extract_receipt_ocr/use_case.py:43-138 | one credit is charged exactly when it is covered, the provider answers, the receipt is accepted and the commit goes through; otherwise nothing of it is stored, whatever others commit meanwhile |
| `CreditUseCases.PolicyAcceptsExactlyCompleteReceipts` | app/modules/ocr/application/commands/extract_receipt_ocr/use_case.py:57-75 | which analyses are accepted, and which files are blamed when the evidence is incomplete |
| `CreditUseCases.BlameWithFullEvidence` | app/modules/ocr/application/commands/extract_receipt_ocr/use_case.py:58-74 | with complete evidence, which of unsupported and unreadable a rejected request is called, and which files are blamed |
| `CreditUseCases.GrantAloneRefines` | app/modules/credits/application/commands/grant_credit/use_case.py:28-56 | run alone, the six protocol steps of a grant leave exactly the tables of the command |
| `CreditUseCases.UsageAloneRefines` | app/modules/credits/application/commands/use_credit/use_case.py:32-34 | the same for reserve and finalize, refusal included |
| `RedemptionKeys.KeyTextIsInjective` | app/modules/promotions/application/commands/redeem_signup_promotion/use_case.py:94-99 | within and across the four key families, two keys have the same text only if they are the same key |
| `RedemptionAnswers.StoredKeyText` | app/modules/promotions/application/commands/create_promotion_redemption/use_case.py:86-89 | the text in the key columns of a direct, code or signup redemption and of its grant, in terms of the request's fields |
| `RedemptionAnswers.StoredKeysCollideExactly` | app/modules/promotions/application/commands/create_promotion_code_redemption/use_case.py:91-94 | the keys of two redemptions, or of their grants, have the same text exactly if promotion (or code), user and client key of the requests are equal, or both are one signup redemption |
| `RedemptionAnswers.AnswerExactly` | app/modules/promotions/application/commands/redemption_executor.py:92-104 | a direct or code request that is no repetition is granted exactly if code and promotion are open and the user has redeemed fewer times than allowed; an exhausted limit is the last reason to refuse |
| `RedemptionAnswers.ReplayedExactly` | app/modules/promotions/application/commands/redemption_executor.py:61-90 | after any history of commands a direct or code request is answered as a repetition exactly if one with the same promotion (or code), user and client key was granted before |
| `RedemptionAnswers.OtherKeyIsGranted` | app/modules/promotions/application/commands/create_promotion_redemption/use_case.py:49-89 | after a granted request the same one is a repetition, while one with another client key, user or promotion is granted exactly if code, promotion and user limit still allow it |
| `RedemptionAnswers.SignupQueryExactly` | app/modules/promotions/infrastructure/persistence/repository.py:57-82 | the signup query has exactly one answer: the open signup promotion that started last, the larger id deciding ties, or none if there is none |
| `RedemptionAnswers.LocksHeldInTheCrowd` | app/modules/promotions/infrastructure/persistence/repository.py:94-127 | whatever others do between a redemption's checks and its flush or commit, its locks keep promotion and code as they were read, and its grant stays new to the ledger: what the commands are given by their locks |
| `RedemptionAnswers.RedeemsExactly` | app/modules/promotions/application/commands/redemption_executor.py:92-104 | in every reachable state of racing redemptions an attempt that holds its promotion is let through exactly if the command, run on the tables as they are, would grant it |
| `Promotions.CurrentSignupIsRedeemable` | app/modules/promotions/infrastructure/persistence/repository.py:57-82 | the signup query returns exactly the promotions that the later check accepts |
| `RedemptionInvariant.InvKept` | app/modules/promotions/application/commands/redemption_executor.py:92-145 | every step of racing direct, code and signup redemptions, other credit work and account deletions keeps locks, counters, limits and the link between redemptions and ledger rows |
| `RedemptionInvariant.RedeemNeverConflicts` | app/modules/promotions/infrastructure/persistence/repository.py:196-198 | the checks made under the promotion lock rule out every unique constraint of the redemption table |
| `RedemptionInvariant.PendingHasNoEntry` | app/modules/credits/application/commands/grant_credit/use_case.py:79-95 | the duplicate check of a redemption's own grant never finds anything, so no redemption commits without its credit |
| `RedemptionGuarantees.EveryGrantHasOneRedemption` | app/modules/promotions/application/commands/redemption_executor.py:126-132 | a promotion-sourced ledger row pays exactly one redemption, of the same user and amount |
| `RedemptionGuarantees.EveryRedemptionIsPaidOnce` | app/modules/promotions/application/commands/redemption_executor.py:113-133 | a redemption of a user whose account still exists is paid by exactly one ledger row |
| `RedemptionGuarantees.CreditsEqualRedeemedBenefits` | app/modules/promotions/application/commands/redemption_executor.py:92-145 | for such a user the promotion credits in the ledger sum to the redeemed benefits, in every state of every run |
| `RedemptionGuarantees.CapsHold` | app/modules/promotions/domain/model.py:83-98 | counters equal the recorded redemptions, maxima of promotion and code are never passed, nor the per-user limit outside signup |
| `RedemptionGuarantees.RedeemedOnce` | app/modules/promotions/application/commands/redeem_signup_promotion/use_case.py:41-64 | one signup redemption per promotion and beneficiary, and one redemption per idempotency key |
| `RedemptionGuarantees.AttemptsLeaveNothing` | app/modules/promotions/dependencies.py:67-70 | until it commits an attempt changes no committed row, and a rollback inside the deferred grant leaves none behind |
| `RedemptionGuarantees.GivingUpLeavesNothing` | app/modules/promotions/dependencies.py:67-70 | an attempt may be given up at any point, and is then gone with its grant and all its locks, everything else being as before |
| `RedemptionGuarantees.AttemptsWaitForLocksOnly` | app/modules/promotions/infrastructure/persistence/repository.py:57-127 | an attempt waits for nothing but an attempt that has locked its code or its promotion |
| `RedemptionGuarantees.EverythingElseGoesOn` | app/modules/promotions/application/commands/redemption_executor.py:92-145 | requests arrive, work without a redemption's key or source runs and accounts are deleted as without redemptions |
| `RedemptionGuarantees.CommitWritesEverything` | app/modules/promotions/application/commands/redemption_executor.py:113-133 | its commit writes counter, code counter, redemption, balance and the ledger row with its user, amount, key and source together |
| `RedemptionGuarantees.BalancesAgreeExactly` | app/modules/credits/infrastructure/persistence/repository.py:53-72 | with redemptions in the run too, balances and ledger agree in every state up to n exactly when no step before n commits a stale save |
| `RedemptionGuarantees.FlushFailsExactly` | app/modules/credits/application/commands/grant_credit/use_case.py:57-73 | the flush of a redemption's grant fails exactly when the user's first row was committed meanwhile, which is still answered as a grant, or the row was deleted meanwhile, which raises |
| `RedemptionGuarantees.AnswerIsTrueExactly` | app/modules/promotions/application/commands/redemption_executor.py:113-145 | in every run, a redemption answered as granted is stored exactly if it did not lose its user's first balance row at its flush |
| `RedemptionRuns.TwoFirstRedemptionsLoseOne` | app/modules/promotions/application/commands/redemption_executor.py:113-145 | a reachable state in which two first redemptions of one new user have both been answered as granted, and one of them is stored nowhere |
| `RedemptionUseCases.PromotionAggregate.EnsureRedeemable` | app/modules/promotions/domain/model.py:83-91 | accepts exactly an active promotion inside its window with room for one more redemption, and names the first failing check otherwise |
| `RedemptionUseCases.PromotionAggregate.RecordRedemption` | app/modules/promotions/domain/model.py:97-98 | one more redemption, everything else as before |
| `RedemptionUseCases.CodeAggregate.EnsureRedeemable` | app/modules/promotions/domain/model.py:117-125 | accepts exactly an active code inside its window with room for one more redemption, and names the first failing check otherwise |
| `RedemptionUseCases.CodeAggregate.RecordRedemption` | app/modules/promotions/domain/model.py:127-128 | one more redemption of the code, everything else as before |
| `RedemptionUseCases.RedeemAndGrant` | app/modules/promotions/application/commands/redemption_executor.py:92-133 | redemption, counters, ledger row and balance are stored together on top of what others have stored; if the first balance row was taken or the row vanished meanwhile, nothing is, and only the latter raises |
| `RedemptionUseCases.UndisturbedRedemption` | app/modules/promotions/application/commands/redemption_executor.py:92-133 | if nobody has touched the balance meanwhile, these rows are a whole redemption of the tables as they are now |
| `RedemptionUseCases.RedeemPromotion` | app/modules/promotions/application/commands/create_promotion_code_redemption/use_case.py:50-88 | the answer and the stored tables of a direct or code redemption for every case; a grant answered for a fresh id is stored exactly if the first balance row was not taken between save and flush |
| `RedemptionUseCases.RedeemAtSignup` | app/modules/promotions/application/commands/redeem_signup_promotion/use_case.py:41-91 | the same for signup, whose commit is deferred: the rows of a granted redemption stay the session's own, and nothing of it is stored yet |
| `RedemptionUseCases.SignUp` | app/modules/auth/application/commands/signup/use_case.py:115-162 | a signup around its redemption: a granted redemption is stored exactly if the signup commits and the first balance row was not taken; a signup that fails leaves nothing of it |
| `RedemptionUseCases.RedeemedIsReplayed` | app/modules/promotions/application/commands/redemption_executor.py:61-90 | the same request sent again is answered from the stored redemption and grants nothing |
| `RedemptionUseCases.ProtocolGrantsExactlyThese` | app/modules/promotions/application/commands/create_promotion_redemption/use_case.py:49-83 | under the locks the protocol lets through exactly the requests that the command grants |
| `RedemptionRuns.RedeemAloneRefines` | app/modules/promotions/application/commands/redemption_executor.py:92-145 | from any quiet reachable state, the steps of a redemption from request to commit can all be taken exactly when the command would grant it, and then leave exactly the tables of the command |
| `RedemptionRuns.CommitRefines` | app/modules/promotions/application/commands/redemption_executor.py:113-133 | in a crowd, the protocol's commit writes exactly the command's rows on top of what others have stored by then |
| `RedemptionRuns.GuardsAgree` | app/modules/credits/infrastructure/persistence/repository.py:53-72 | the two ways a flush is lost in the command are the protocol's two guards |
| `SchedulerProtocol.InvKept` | app/modules/notifications/application/commands/create_due_notifications/use_case.py:181-208 | every step of concurrent, crashing and repeated runs keeps occurrences and notifications in one-to-one correspondence and every tally exact |
| `SchedulerProtocol.AtMostOneNotification` | app/modules/notifications/infrastructure/persistence/schedule_occurrence_repository.py:20-42 | an occurrence key has at most one committed notification in every reachable state |
| `SchedulerProtocol.CommittedOccurrenceIsBound` | app/modules/notifications/infrastructure/persistence/schedule_occurrence_repository.py:44-60 | every committed occurrence is bound to a notification created for it, which is stored exactly unless its user has deleted it |
| `SchedulerProtocol.RowsAppearTogether` | app/modules/notifications/application/commands/create_due_notifications/use_case.py:197-203 | occurrence and notification become visible in one commit of the run that made them |
| `SchedulerProtocol.DryRunCommitsNothing` | app/modules/notifications/application/commands/create_due_notifications/use_case.py:187-188 | a dry run commits nothing and counts candidates only |
| `SchedulerProtocol.SummaryIsExact` | app/modules/notifications/application/commands/create_due_notifications/use_case.py:60-78 | otherwise candidates are created plus skipped plus failed, and created counts exactly the notifications that run committed |
| `SchedulerProtocol.SentStaysSent` | app/modules/notifications/infrastructure/persistence/schedule_occurrence_repository.py:20-60 | a committed occurrence stays bound to the same notification in every later state, deleted or not |
| `SchedulerProtocol.FinishedCandidateIsSent` | app/modules/notifications/application/commands/create_due_notifications/use_case.py:189-206 | a candidate that is created, or skipped by the reservation, has a committed, bound occurrence |
| `SchedulerProtocol.UnfinishedKeyIsFree` | app/modules/notifications/application/commands/create_due_notifications/use_case.py:189-206 | one that fails, lacks consent or dies with its run leaves its key free, with no other run holding it |
| `SchedulerProtocol.DeadRunIsReplaced` | app/modules/notifications/application/commands/create_due_notifications/use_case.py:181-208 | a run may die at any point; nothing uncommitted of it remains, and another run can take its candidate at once |
| `SchedulerProtocol.UserMayDelete` | app/modules/notifications/infrastructure/persistence/repository.py:180-193 | a stored notification can be deleted at any time, which takes neither its occurrence nor any other notification away |
| `SchedulerProtocol.RunsWaitOnlyForTheirKey` | app/modules/notifications/infrastructure/persistence/schedule_occurrence_repository.py:20-42 | runs start at any time and go on by themselves; only a run that wants a key another one is writing waits, and that one does not wait in turn |
| `SchedulerUseCase.CreateNotification` | app/modules/notifications/application/commands/create_due_notifications/use_case.py:181-208 | the action for each reply of the notification module, or none if it raises; one new matched pair of rows when created, unchanged tables otherwise |
| `SchedulerUseCase.CreateForRule` | app/modules/notifications/application/commands/create_due_notifications/use_case.py:137-157 | exact totals, failures being the untaken candidates found invalid; the sent occurrences are the earlier ones and the saved candidates; it stops exactly when the notification module raises for a candidate that is not taken, with the candidates before it processed |
| `SchedulerUseCase.DueNotifications` | app/modules/notifications/application/commands/create_due_notifications/use_case.py:159-179 | one candidate per key that the declared rule makes due, for every batch size, or none at all exactly when the rule raises |
| `SchedulerUseCase.CreateDueNotifications` | app/modules/notifications/application/commands/create_due_notifications/use_case.py:107-135 | a run raises exactly when one of its rules lacks its lookback or the notification module raises for a due occurrence that is not taken, and then stops there with everything before committed; otherwise it sends exactly the due occurrences that the module saves, keeps every earlier one, and its candidates are the due keys, also in a dry run |
| `SchedulerUseCase.AValidatedRuleRaises` | app/modules/notifications/domain/schedule_rule.py:138-190 | a rule that passes validation and makes an unfiltered run raise: an inactivity rule without lookback |
| `SchedulerUseCase.DeletionKeepsMatched` | app/modules/notifications/infrastructure/persistence/repository.py:180-193 | a user's deletion leaves every notification still matched with its occurrence |
| `SchedulerUseCase.SecondRunSendsNothing` | app/modules/notifications/application/commands/create_due_notifications/use_case.py:107-135 | running again on the same snapshot, with any batch size and with any notifications deleted in between, leaves nothing to send |
| `SchedulerDueDays.DueKeysByColumns` | app/modules/notifications/application/due_notification.py:25-92 | which occurrences are due under a rule on a day, in terms of the columns of receipts and users: campaign, target, day, expiry or cadence, and observed activity |
| `SchedulerDueDays.SelectedByColumns` | app/modules/notifications/application/commands/create_due_notifications/use_case.py:107-135 | a rule takes part exactly if it passes the campaign filter, is enabled and its day and time have come |
| `SchedulerDueDays.RunSendsWhatIsDue` | app/modules/notifications/application/commands/create_due_notifications/use_case.py:107-135 | a run adds exactly the occurrences that the columns make due under a rule taking part and that the notification module saves |
| `SchedulerDueDays.DaysShareNoOccurrence` | app/modules/notifications/application/due_notification.py:57-62 | runs for different days share no occurrence, for receipts and users alike |
| `SchedulerDueDays.AnotherDayIsSentToo` | app/modules/notifications/infrastructure/persistence/schedule_occurrence_repository.py:20-42 | what was sent on one day never keeps a due occurrence of another day from being sent |
| `SchedulerRuns.CreateAloneRefines` | app/modules/notifications/application/commands/create_due_notifications/use_case.py:181-208 | with no other run at the candidate, the protocol's steps for each reply can be taken and leave the action, totals and tables of the command |
| `SchedulerRuns.RuleAloneRefines` | app/modules/notifications/application/commands/create_due_notifications/use_case.py:137-157 | a run that is alone goes through the candidates of a rule as the command does: same totals, same occurrences sent |
| `SchedulerRuns.RuleAloneStops` | app/modules/notifications/application/commands/create_due_notifications/use_case.py:112-157 | at the first candidate for which the notification module raises the run dies where the command stops |
| `SchedulerRuns.CommitRefines` | app/modules/notifications/application/commands/create_due_notifications/use_case.py:197-203 | whatever other runs do, a commit of the protocol writes exactly the command's two rows |
| `ExpiryEnumeration.ExpiringPageAt` | app/modules/receipts/infrastructure/persistence/notification_candidates.py:41-69 | a page holds the next expiring receipts after the cursor, says whether more follow, and names its last row as the next cursor |
| `ReminderEnumeration.ActivityPageAt` | app/modules/receipts/infrastructure/persistence/notification_candidates.py:76-139 | the same for receipt activity, whose page is cut after users with recent receipts are left out |
| `ReminderEnumeration.RegistrationPageAt` | app/modules/users/infrastructure/persistence/user_registration_facts_reader.py:22-65 | the same for users under the two-part cursor of registration time and id |
| `ExpiryEnumeration.IterExpiring` | app/modules/notifications/application/warranty_expiry_notifications.py:38-81 | the cursor loop ends, never misses its cursor, and yields the due receipts of existing users for every batch size |
| `ExpiryEnumeration.DueReceiptsAreTheDeclaredOnes` | app/modules/receipts/infrastructure/persistence/notification_candidates.py:41-69 | those are exactly the receipts that expire on the offset day, were observed in time and whose user exists, once each in id order |
| `ReminderEnumeration.ActivitiesFor` | app/modules/notifications/application/receipt_reminder_notifications.py:123-151 | the inner loop yields the activity of every given user that was not recently active, once each, for every batch size |
| `ReminderEnumeration.IterReminders` | app/modules/notifications/application/receipt_reminder_notifications.py:51-87 | the nested loops end and yield exactly one reminder per registered user in cadence that meets the activity rule, for every batch size |
| `ReminderEnumeration.ReminderForMeansTheDeclaredRule` | app/modules/notifications/domain/due_notification.py:118-150 | what the activity rule means in terms of the user's observed receipts |
| `ReminderEnumeration.ReminderStatesTheCount` | app/modules/notifications/application/receipt_reminder_notifications.py:51-87 | a reminder goes to its user and states the number of receipts seen by the cutoff, or none if it goes to everybody |
| `ReminderEnumeration.LastCreatedIsTheMaximum` | app/modules/receipts/infrastructure/persistence/notification_candidates.py:142-191 | count and latest creation of the observed receipts say whether there is any, and any recent one |
| `ScheduleRules.DueMeansCutoffHasPassed` | app/modules/notifications/domain/due_notification.py:34-54 | a rule is due exactly when it is enabled and its observation cutoff is not in the future |
| `ScheduleRules.CadenceIsAnArithmeticProgression` | app/modules/notifications/domain/due_notification.py:99-111 | due days are the first due day and every whole interval after it |
| `ScheduleRules.DueOncePerInterval` | app/modules/notifications/domain/due_notification.py:99-111 | every window of one interval after the first due day holds exactly one due day |
| `ScheduleRules.RenderedTextFits` | app/modules/notifications/domain/due_notification.py:153-165 | the rendered text fits exactly when the template without markers does, whatever the item name; the name is cut no more than needed |
| `ScheduleRules.RenderedTextIsTheTemplateWithTheName` | app/modules/notifications/domain/due_notification.py:153-165 | a rendered text is the template with every marker, and nothing else, replaced by the item name, or by a prefix of it if the whole name does not fit |
| `ScheduleRules.ValidatedTemplateFits` | app/modules/notifications/domain/schedule_rule.py:118-120 | a validated template therefore always renders within the limit |
| `ScheduleRules.ValidatedRuleFits` | app/modules/notifications/domain/schedule_rule.py:118-204 | both texts of a validated rule render within their limits for every item name; a warranty rule has its offset and no cadence, any other rule repeats and asks for consent |
| `LikePattern.SequentialEscapeIsPerCharacter` | app/modules/receipts/infrastructure/persistence/listing.py:153-154 | the three replacements in sequence escape each special character once |
| `LikePattern.KeywordPatternMeansSubstring` | app/modules/receipts/infrastructure/persistence/listing.py:49-59 | the pattern matches a text exactly when the keyword occurs in it, for all keywords and texts |
| `ReceiptListing.KeywordFilterIsSubstringSearch` | app/modules/receipts/infrastructure/persistence/listing.py:49-59 | a keyword keeps exactly the receipts in which one of the searched texts contains it |
| `ReceiptListing.StatusFilterAgreesWithStatus` | app/modules/receipts/infrastructure/persistence/listing.py:32-48 | the status filter agrees with the status shown on a receipt |
| `ReceiptListing.CursorConditionMeansAfter` | app/modules/receipts/infrastructure/persistence/listing.py:63-104 | for each sort the cursor condition keeps exactly the rows ordered after the cursor's row |
| `ReceiptListing.ListOrderLaws` | app/modules/receipts/infrastructure/persistence/listing.py:93-104 | each sort is a strict weak order in which only one receipt under one key ties |
| `ReceiptListing.RepadUndoesStrip` | app/modules/receipts/infrastructure/persistence/listing.py:107-131 | stripping and re-padding restores exactly the texts of whole quads with at most three pads |
| `ReceiptListing.CursorRoundTrip` | app/modules/receipts/infrastructure/persistence/listing.py:107-150 | a cursor comes back unchanged for its own sort and is refused under every other |
| `ReceiptListing.RequestIsKeysetPage` | app/modules/receipts/infrastructure/persistence/repository.py:32-67 | a request with the cursor of a row is the keyset page after that row |
| `ReceiptListing.ScrollMissesNothing` | app/modules/receipts/infrastructure/persistence/repository.py:32-67 | while receipts are added, removed and edited between pages, order is kept, no key is shown twice and every receipt that keeps matching under its key is shown |
| `ReceiptListing.ScrollShowsTheWholeList` | app/modules/receipts/infrastructure/persistence/repository.py:32-67 | on an unchanging table the pages are the filtered, ordered list, for every limit |
| `ReceiptListing.ScrollShowsExactlyTheAskedFor` | app/modules/receipts/infrastructure/persistence/listing.py:31-60 | a finished scroll of a fixed table shows exactly the stored receipts of the user with the requested category, status and keyword, none twice, and every page states their number |
| `ReceiptListing.ScrollIsInOrder` | app/modules/receipts/infrastructure/persistence/listing.py:93-104 | whatever changes between pages, receipts are shown newest, latest paid, first to expire or by title first, as asked, with ties by id |
| `ReceiptListing.RefusedExactly` | app/modules/receipts/infrastructure/persistence/listing.py:121-150 | a request is refused exactly if its cursor cannot be read or was made for another sort or kind of key |
| `ReceiptListing.CursorExactlyIfMore` | app/modules/receipts/infrastructure/persistence/repository.py:32-67 | a page hands out a cursor exactly if more rows than its limit are left |
| `ReceiptListing.ScrollEnds` | app/modules/receipts/infrastructure/persistence/repository.py:32-67 | on an unchanging table every cursor handed out is answered, and following them ends after exactly as many pages as the filtered receipts fill |
| `Keyset.TraversalIsComplete` | app/modules/receipts/infrastructure/persistence/listing.py:63-104 | the same for any strict weak order and changing table |
| `Keyset.PagesAreTheListing` | app/modules/receipts/infrastructure/persistence/listing.py:63-104 | the same for any strict weak order and fixed table |
| `Keyset.FollowingEnds` | app/modules/receipts/infrastructure/persistence/listing.py:63-104 | the same for any strict weak order: never earlier or later than the page count |
| `Keyset.PageCountIsCeiling` | app/modules/receipts/infrastructure/persistence/listing.py:63-104 | that page count is the number of rows divided by the limit, rounded up, and one for an empty list |
| `Warranty.CalendarIsGregorian` | app/modules/receipts/domain/model.py:267-273 | the month lengths used add up to the proleptic Gregorian calendar |
| `Warranty.AddMonthsLandsOnTheMonth` | app/modules/receipts/domain/model.py:267-273 | the result exists exactly inside the calendar, is a valid date and lies exactly the given months on, with the day clamped only to the month's length |
| `Warranty.AddMonthsIsMonotone` | app/modules/receipts/domain/model.py:267-273 | monotone in the start, strictly monotone in the months |
| `Warranty.AddMonthsMovesByWholeMonths` | app/modules/receipts/domain/model.py:267-273 | m months move a date by 28m to 31m days |
| `Warranty.AddMonthsInTwoSteps` | app/modules/receipts/domain/model.py:267-273 | a then b months never pass a + b, and agree exactly when the stop in between does not clamp below the final month |
| `Warranty.ExpiryIsNotBeforePayment` | app/modules/receipts/domain/model.py:194-211 | a receipt never expires before its payment; exactly an earlier explicit date is refused |
| `AuthSessions.CredentialStore.RotateRefreshToken` | app/modules/auth/infrastructure/persistence/credential_repository.py:138-187 | succeeds exactly if all checks pass; on failure the token row is already gone from the session's view |
| `AuthSessions.CredentialStore.RevokeSessionByRefreshToken` | app/modules/auth/infrastructure/persistence/credential_repository.py:189-206 | an unexpired token revokes its session and removes every token of it; any other changes nothing |
| `AuthSessions.CredentialStore.DeleteAccountAuthState` | app/modules/auth/infrastructure/persistence/credential_repository.py:242-272 | removes credential, sessions and tokens exactly if the user owns the credential |
| `AuthSessions.Login` | app/modules/auth/application/commands/login/use_case.py:65-82 | one new session with one token, committed |
| `AuthSessions.Signup` | app/modules/auth/application/commands/signup/use_case.py:135-157 | a new credential with its first session and token |
| `AuthSessions.Refresh` | app/modules/auth/application/commands/refresh/use_case.py:28-47 | a failed refresh changes nothing, a successful one replaces the token |
| `AuthSessions.Logout` | app/modules/auth/application/commands/logout/use_case.py:19-23 | the revocation, committed |
| `AuthSessions.Withdraw` | app/modules/auth/application/commands/withdraw/use_case.py:34-55 | the account's auth state removed, committed |
| `AuthSessions.OneTokenPerSession` | app/modules/auth/infrastructure/persistence/credential_repository.py:122-187 | a session has at most one stored token in every reachable state |
| `AuthSessions.StoredTokensAreLive` | app/modules/auth/infrastructure/persistence/credential_repository.py:116-187 | a stored token names an existing, unrevoked session of its own, existing credential |
| `AuthSessions.RefreshSucceedsExactly` | app/modules/auth/infrastructure/persistence/credential_repository.py:157-174 | in every reachable state a refresh succeeds exactly for a stored, unexpired token: the other refusals cannot happen |
| `AuthSessions.LoginWorks` | app/modules/auth/infrastructure/persistence/credential_repository.py:116-137 | the token of a login or signup can be refreshed until it expires, and its session is active for its user |
| `AuthSessions.AnotherDeviceLogsIn` | app/modules/auth/application/commands/login/use_case.py:65-82 | a credential can log in again at any time, leaving every session and token as it was |
| `AuthSessions.AnotherUserSignsUp` | app/modules/auth/application/commands/signup/use_case.py:135-157 | a new user can sign up at any time, leaving everything there is as it was, with the new session active |
| `AuthSessions.HolderDecides` | app/modules/auth/infrastructure/persistence/credential_repository.py:138-206 | the holder of an unexpired token can at any time refresh, which keeps the session active, or log out or withdraw, which end it |
| `AuthSessions.StrangersChangeNothing` | app/modules/auth/infrastructure/persistence/credential_repository.py:189-272 | a refresh or logout with an unknown or expired token, and the withdrawal of another's credential, change nothing |
| `AuthSessions.TokenKeptExactly` | app/modules/auth/infrastructure/persistence/credential_repository.py:138-272 | a stored token stays as it is exactly until it is refreshed with, its session logs out or its account is withdrawn |
| `AuthSessions.SpentHashNeverReturns` | app/modules/auth/infrastructure/persistence/credential_repository.py:138-187 | a hash once handed out and no longer stored never succeeds again |
| `AuthSessions.RotatedHashIsSpent` | app/modules/auth/infrastructure/persistence/credential_repository.py:145-156 | a refresh token works once |
| `AuthSessions.RotationHandsOver` | app/modules/auth/infrastructure/persistence/credential_repository.py:175-187 | its replacement belongs to the same session and credential, and nothing else changes |
| `AuthSessions.LogoutEndsTheSession` | app/modules/auth/infrastructure/persistence/credential_repository.py:189-206 | after a logout every token ever handed out for the session fails |
| `AuthSessions.WithdrawalEndsTheAccount` | app/modules/auth/infrastructure/persistence/credential_repository.py:242-272 | after a withdrawal every token ever handed out for the account fails |
| `AuthSessions.SessionActiveExactly` | app/modules/auth/infrastructure/persistence/credential_repository.py:220-240 | a session stays active exactly until it is logged out with an unexpired token or its account is withdrawn, and is never active again |

## Left out

- HTTP routers, schemas, wiring and exception handlers; field-by-field validation objects; Firebase,
  OCR provider, storage, JWT and hashing, which appear only as answers or as opaque ids and hashes.
- `run_forever` and liveness: only safety is claimed, against any clock readings.
- SQLAlchemy's identity map, autoflush and per-column updates: a locked statement sequence is one step,
  and a save writes all three balance columns. Transactions run at READ COMMITTED.
- Account deletion interleaved statement by statement with grants, and logout with rotation: each is
  one atomic step. Deadlocks appear as transactions that abort.
- Changes of a promotion's benefit or limits while it runs, such as those of the monthly recharge job;
  benefits and limits are fixed in a run. The signup promotion that a redemption locks may be any
  current one, of which the query's newest is a special case.
- Grants without a promotion may carry any other key or source, but not those of a redemption. No
  caller in the repository makes such a grant.
- UUID, ISO timestamp, JSON and base64 libraries: their parsers are taken to undo their printers, and
  UUID texts to be 36 characters and distinct. Collation and case folding of titles are parameters;
  case folding works character by character.
- Push delivery, notification texts other than rendering, metadata and consent settings: the
  notification module's reply for a candidate, or that it raises, is a parameter of the scheduler.
  Failures of the database itself are not modelled there.
- Email uniqueness under concurrent signups, which is checked before any lock and is not an invariant.
- Tokens from before sessions existed occur in the repository contracts, but not in runs, which start
  from empty tables.
- OutboxGuarantees.DispatchedExactlyOnce: assumes that claims settle within their lease and that no
  worker dies and no handler raises, because otherwise the relay redelivers by design;
  `OutboxAttempts.ClaimedAtMostTheLimit` says how often then.
- OutboxAttempts.ClaimedAtMostTheLimit: assumes that claims settle within their lease, because a slow
  worker's event may be claimed again any number of times before its failure is counted.
- OutboxGuarantees.DispatchesDoNotOverlap: assumes that claims settle within their lease, because the
  table holds no other lock while a handler runs.
