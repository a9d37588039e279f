# A verified model of the messaging platform's core

The platform runs hired agents for its clients over WhatsApp, TikTok, Instagram and Telegram. This project models the
parts of it where several requests, workers or months meet, and proves what they guarantee and where they do not:

- **Billing calendar, billing runs, quotas.** `Calendar` counts Gregorian months as integers and is checked against the
  closed formula of ECMA-262; `JsDate` is the mutable Date with the rollover of `setMonth` and `setDate` (sections
  21.4.4.25 and 21.4.4.20). On it stand `QuotaPolicy` (the period of an anchor day), `BillingGenerator` (one record per
  client and period) and `QuotaEnforcement` (counting messages while others are about to insert).
- **Protocols over a shared store.** `OperatorSend`, `WebhookRegistration`, `ConversationLifecycle` and `ClientSessions`
  are transition systems: every atomic database write, network answer, crash and tick of the clock is one event, an
  event that is not enabled changes nothing, and every interleaving is a sequence of events (`Runs`). Where the source
  has an object with methods there is a class beside it, and the uninterrupted call is proved to be one of the runs.
- **Paged lists.** `KeysetPagination` is the query pattern of the three inbox lists, on a store that holds still and on
  one that changes between the pages; `InboxPages` has the filters and the writes; `CursorCodec` is the cursor text.
- **Routing.** `RoutingCandidates`, `RecentHistory` and `AgentRouting` are the cascade that picks the agent for an
  incoming message and the numbered menu it falls back to.
- **Catalog import.** `CatalogImport` cuts the input into work units, checks and merges the returned batches;
  `CatalogStore` writes the merged list in chunks that may fail.

`Wrappers`, `Lists`, `Sorting` and `Numerals` hold what several of these share. `dafny verify dfyconfig.toml` checks
everything.

Time is an integer number of milliseconds, in one local zone without daylight saving for the calendar. The outside
world (clocks, the gateway, Telegram, rows returned by a language model, the order in which an unordered bulk write
proceeds, transactions that fail) enters as event parameters or method parameters and is arbitrary. MongoDB is assumed
to update single documents atomically, to keep its unique indexes and to make transactions all or nothing.

## Where the code and its own words disagree

The model follows the code in each case.

- The comment of `quota-policy.ts` promises a clamped anchor day in every month. For anchor days 29 to 31 the fallback
  branch can return an empty period or one that ends a boundary late (`PeriodTrichotomy`), and only days 1 to 28 tile
  time (`TilingIffAtMost28`).
- Comments in `client-agent.repository.ts:391-394` and in the lifecycle port say that resetting a stuck registration
  increments `attemptCount`; the reconciler passes `incrementAttempt: false` (`AttemptCountIsTerminalFailures`).
- The reconciler has a quarantine branch, but its own scan leaves out every row that could reach it (`QuarantineIsDead`).
- A webhook job that returns `registered: true` need not have registered anything: `ReportIsTrueIff` says when it has,
  `StuckJobsReportSuccess` when a new job reports so and when that stays false for good, `FalseReportRun` gives a run.
- After a change of URL or token a job still at work can record its older answer last, so that the row names the old
  fingerprint and Telegram has the new one (`StaleAnswerRun`); `StraysIffOldJob` says exactly when that can happen.
- The comment at `client-sessions.service.ts:51-55` speaks of a continuously active session that reaches the absolute
  lifetime; with the default settings the idle deadline ends before the touch throttle does, so it never moves
  (`DeadlineSlidesIff`) and no session is accepted later than the throttle after its creation (`ActivityDoesNotProlong`).
- The query for hires normalizes a WhatsApp number, the match that follows does not (`OnlyNormalizedNumbersRoute`).
  Handed to the router, digits without the plus sign never find their agent (`DigitsAloneNeverRoute`). The three WhatsApp
  adapters never hand it such an address: they normalize first, and that is enough (`AdapterNumbersRoute`).

## Model

| member | source | states |
|---|---|---|
| Calendar.MonthStartIsDayFromYear | src/core/domain/quota/quota-policy.ts:33-40 | counting Gregorian months off one by one agrees, for every year, with the closed day number formula that ECMA-262 prescribes for Date |
| JsDate.Date.SetMonth | src/core/domain/quota/quota-policy.ts:43-47 | setMonth keeps the day of the month, so a day the new month lacks spills into the next month |
| JsDate.Date.SetDate | src/core/domain/quota/quota-policy.ts:44-50 | setDate places the date within the month the Date is in by then |
| JsDate.MidnightFields | src/core/domain/quota/quota-policy.ts:33-40 | a local midnight reads back as the month and day it was built from, or as a day of the next month when built past the end |
| JsDate.FieldsIff | src/core/domain/quota/quota-policy.ts:33-35 | an instant lies in a day of a month, at any time of that day, if and only if its fields name that month and day |
| JsDate.SetMonthReadsBack | src/core/domain/quota/quota-policy.ts:43-47 | for every instant setMonth keeps the time of day and the day of the month, or spills by as many days as the month asked for lacks |
| JsDate.SetDateReadsBack | src/core/domain/quota/quota-policy.ts:44-50 | for every instant setDate keeps month and time of day, with the same spilling |
| JsDate.FieldsReadBack | src/core/domain/quota/quota-policy.ts:39-40 | the year, month and day given to the constructor read back, a year below 100 as one of the twentieth century |
| QuotaPolicy.ClampDayIsMin | src/core/domain/quota/quota-policy.ts:6-9 | the zeroth day of the next month yields the length of this one, so the clamp is the minimum of day and month length |
| QuotaPolicy.ComputeCurrentBillingPeriod | src/core/domain/quota/quota-policy.ts:28-54 | the sequence of Date mutations computes the boundary arithmetic that the results below are about, for the day on which the anchor lies, at whatever time of that day |
| QuotaPolicy.AnchorTimeOfDayIsIrrelevant | src/core/domain/quota/quota-policy.ts:32-35 | an anchor at any time of a day gives at every instant the period of that day's midnight |
| QuotaPolicy.TruePeriodContains | src/core/domain/quota/quota-policy.ts:23-27 | the documented clamped period contains now, for every anchor day |
| QuotaPolicy.TruePeriodsTile | src/core/domain/quota/quota-policy.ts:23-27 | two documented periods of an anchor day are identical or disjoint |
| QuotaPolicy.TruePeriodsMeet | src/core/domain/quota/quota-policy.ts:23-27 | the documented period computed at the end of a period starts there |
| QuotaPolicy.PeriodTrichotomy | src/core/domain/quota/quota-policy.ts:37-51 | for anchor days 1-31 the result is exactly one of: empty, ending one boundary late, or the documented period, with the exact condition of each |
| QuotaPolicy.ComputedIsTrueIffRegular | src/core/domain/quota/quota-policy.ts:28-54 | the computed period is the documented one if and only if a guard on now and the neighbouring month lengths holds |
| QuotaPolicy.ComputedContainsNow | src/core/domain/quota/quota-policy.ts:28-54 | start <= now < end holds for the computed period except exactly in the empty case and in years 0-99 |
| QuotaPolicy.ShortYearsLookAhead | src/core/domain/quota/quota-policy.ts:39-40 | in years 0-99 the Date constructor displaces the period into the future |
| QuotaPolicy.RegularPeriodsTile | src/core/domain/quota/quota-policy.ts:28-54 | computed periods at instants that meet the guard are identical or disjoint |
| QuotaPolicy.RegularPeriodsMeet | src/core/domain/quota/quota-policy.ts:28-54 | the period computed at the end of a period starts exactly there |
| QuotaPolicy.StretchedOverlapsNext | src/core/domain/quota/quota-policy.ts:42-51 | a period that ends late overlaps the different period computed at the boundary it skipped |
| QuotaPolicy.UnstretchedPeriodsTile | src/core/domain/quota/quota-policy.ts:28-54 | computed periods tile even where some are empty: only a stretched one overlaps another |
| QuotaPolicy.ComputedAgreeIff | src/core/domain/quota/quota-policy.ts:37-51 | two instants of one documented period get one computed period if and only if they are emptied alike and stretched alike |
| QuotaPolicy.TilingIffAtMost28 | src/core/domain/quota/quota-policy.ts:28-54 | the periods of an anchor day tile time if and only if the day is at most 28 |
| BillingGenerator.BuildItems | src/core/orchestrator/billing-generator.service.ts:30-123 | the two nested loops produce one item per hire and one per channel, whatever the status of the channel, and the running total is the sum of the items |
| BillingGenerator.ItemsAre | src/core/orchestrator/billing-generator.service.ts:70-104 | an invoice has for each hire, in order, one line with its agent and price, then one line for each channel with its price, and no others |
| BillingGenerator.InvoiceTotal | src/core/orchestrator/billing-generator.service.ts:30-123 | an invoice adds up every agent price and every channel price of the hires, inactive channels included |
| BillingGenerator.InvoiceEqualsQuote | src/features/client-agents/client-agents.service.ts:668-704 | the client is quoted the invoiced total if and only if all hires are priced in its currency and no inactive channel has a price |
| BillingGenerator.QuoteIsActiveInvoice | src/features/client-agents/client-agents.service.ts:668-704 | there is a quote if and only if all hires are priced in the currency of the client, and it is the invoice of the same hires without their inactive channels |
| BillingGenerator.RecordsAreDisjoint | src/core/orchestrator/billing-generator.service.ts:30-123 | in every interleaving and for every anchor day, as long as no read of the clock stretched a period, two records of one client never overlap, and every total is the sum of its items |
| BillingGenerator.NoInstantBilledTwice | src/core/persistence/schemas/billing-record.schema.ts:51-54 | for anchor days 1-28 no instant lies in two of a client's records, however runs interleave |
| BillingGenerator.GenerateIsARun | src/core/orchestrator/billing-generator.service.ts:30-123 | an uninterrupted call is one of those interleavings, for a known client and for an unknown one |
| BillingGenerator.GenerateMeans | src/core/orchestrator/billing-generator.service.ts:30-123 | a record is stored if and only if there is a client with hires and no record of the period, and it has that period, the client's currency, the lines of its hires and their sum |
| BillingGenerator.GenerateIsIdempotent | src/core/orchestrator/billing-generator.service.ts:30-123 | a second call within the period adds nothing, whatever was hired meanwhile |
| BillingGenerator.StretchedBillsTwice | src/core/domain/quota/quota-policy.ts:42-51 | a call at a stretched instant and one at the boundary it skips leave two records that share an instant |
| BillingGenerator.EmptiedBillsTwice | src/core/domain/quota/quota-policy.ts:43-46 | a call at an emptied instant stores a second full-price record, of an empty period, beside the record of the true period it falls in |
| BillingGenerator.OneInvoicePerPeriodIff | src/core/orchestrator/billing-generator.service.ts:30-123 | two calls within one true period leave two invoices if and only if one instant is emptied or stretched and the other not in the same way |
| BillingGenerator.BilledTwiceIff | src/core/orchestrator/billing-generator.service.ts:30-123 | from every start, some run bills an instant twice if and only if the anchor day is beyond 28, and some run invoices a client twice for one true period if and only if it is |
| BillingGenerator.BillingGeneratorService.GenerateForClient | src/core/orchestrator/billing-generator.service.ts:30-123 | stores exactly the record of the current period, unless client, hires or period rule it out |
| BillingGenerator.BillingGeneratorService.GenerateForAllClients | src/core/orchestrator/billing-generator.service.ts:129-148 | every client is counted once, as generated or as skipped, and each new record is the invoice of one of the clients for its own hires |
| QuotaEnforcement.QuotaOverrunIsBounded | src/core/orchestrator/incoming-message.orchestrator.ts:108-177 | with at most C handlers between check and insert, no period counts more than max(quota, 1) - 1 + C user messages, in any interleaving |
| QuotaEnforcement.BoundIsReached | src/core/orchestrator/incoming-message.orchestrator.ts:108-177 | for every quota and every C from 1 on there is a run that reaches the bound |
| QuotaEnforcement.NoBoundBeyond28 | src/core/domain/quota/quota-policy.ts:43-46 | with an anchor day beyond 28, from every start and for every n, a run counts n messages in one true period, with a single handler at a time |
| QuotaEnforcement.BoundHoldsIff | src/core/orchestrator/quota-enforcement.service.ts:29-76 | the bound holds in every run if and only if the anchor day is at most 28, or the quota admits nothing, or there is no handler |
| QuotaEnforcement.EmptiedPeriodNeverBlocks | src/core/orchestrator/quota-enforcement.service.ts:29-76 | while the computed period is empty a message quota of 1 or more never blocks, however much was sent |
| QuotaEnforcement.CheckPassesIff | src/core/orchestrator/quota-enforcement.service.ts:29-76 | a check passes if and only if neither quota is reached, a missing one never being so; only the user's active messages of the channel within the period count |
| OperatorSend.OneDispatchPerKey | src/features/inbox/inbox-operator-message.service.ts:115-288 | in every interleaving with crashes, the gateway is called at most once per conversation and key, by the request that inserted the row, with the stored text |
| OperatorSend.StoredBeforeDispatch | src/features/inbox/inbox-operator-message.service.ts:175-236 | when the gateway is called the row exists, is pending and was never dispatched |
| OperatorSend.ReplaysLeaveNoTrace | src/features/inbox/inbox-operator-message.service.ts:114-130 | a request answered with another request's row has neither dispatched nor touched |
| OperatorSend.AnswersAgree | src/features/inbox/inbox-operator-message.service.ts:177-297 | all answers for one key carry one message id, author and first-written text |
| OperatorSend.RecoveryNeverFails | src/features/inbox/inbox-operator-message.service.ts:186-208 | reading back after a duplicate key always finds the row, so the branch for a missing one is unreachable |
| OperatorSend.StatusIsTheGatewaysAnswer | src/features/inbox/inbox-operator-message.service.ts:238-250 | a row is sent only if the gateway accepted it and failed only if it did not |
| OperatorSend.StatusMovesOnce | src/core/persistence/repositories/message.repository.ts:306-315 | although the write has no guard, a status moves once from pending and nothing else of a row or of an answer ever changes |
| OperatorSend.NothingPendingWithoutCrashes | src/features/inbox/inbox-operator-message.service.ts:238-250 | when all requests ran to their end no row is pending |
| OperatorSend.StrandedForever | src/features/inbox/inbox-operator-message.service.ts:114-130 | a row whose request crashed stays pending for good and replays never dispatch it |
| OperatorSend.NeverFinalIffCrashed | src/features/inbox/inbox-operator-message.service.ts:175-250 | in every reachable state a pending row gets a final status in no continuation if and only if the request that inserted it has crashed |
| OperatorSend.StrandedRun | src/features/inbox/inbox-operator-message.service.ts:175-236 | five events that strand a row: a crash between insert and dispatch |
| OperatorSend.ScriptResult | src/features/inbox/inbox-operator-message.service.ts:73-297 | the eight steps of a request that nobody interrupts end in the answer and the state its inputs call for |
| OperatorSend.UninterruptedSend | src/features/inbox/inbox-operator-message.service.ts:73-297 | case by case: the error of each gate, the stored row for a taken key, otherwise the row, the gateway call, the touch with a preview of at most 280 characters, and the answer |
| OperatorSend.InboxOperatorMessageService.CreateOperatorMessage | src/core/persistence/repositories/message.repository.ts:258-284 | inserts a pending row unless the key is taken, and then reports the conflict and changes nothing |
| OperatorSend.InboxOperatorMessageService.UpdateDeliveryStatus | src/core/persistence/repositories/message.repository.ts:306-315 | writes the status of one row and nothing else, whatever the status was |
| OperatorSend.InboxOperatorMessageService.SendOperatorMessage | src/features/inbox/inbox-operator-message.service.ts:73-297 | the method leaves the state and returns the answer of the uninterrupted run, case by case |
| WebhookRegistration.RegisteredImpliesAccepted | src/core/channels/telegram/webhook/telegram-webhook.registrar.ts:136-227 | in every interleaving of stamps, ticks, jobs and retries, a registered row carries a fingerprint that Telegram accepted earlier |
| WebhookRegistration.AtMostOneSetWebhook | src/core/persistence/repositories/client-agent.repository.ts:423-481 | while URL and token stay fixed at most one setWebhook call is started for a row, and a registered row means that this call was accepted |
| WebhookRegistration.NeverRegistersIffStuck | src/core/persistence/repositories/client-agent.repository.ts:459-463 | exactly when registration is out of reach: the fingerprint is stored, the row is not registered and no worker is between starting and recording an accepted answer |
| WebhookRegistration.StuckForever | src/core/persistence/repositories/client-agent.repository.ts:459-463 | such a row is never registered and never tried again while URL and token stay fixed |
| WebhookRegistration.TransientFailureIsFinal | src/core/channels/telegram/webhook/telegram-webhook.registrar.ts:199-207 | one passing failure of the first call is enough, whatever retries follow |
| WebhookRegistration.ReportIsTrueIff | src/core/channels/telegram/webhook/telegram-webhook.registrar.ts:169-211 | a job comes to report success by one of three steps, and its row is registered then if and only if it was before or the step writes the job's accepted answer to an active row |
| WebhookRegistration.StuckJobsReportSuccess | src/core/channels/telegram/webhook/telegram-webhook.registrar.ts:169-189 | in every reachable state, while URL and token stay fixed, a new job on an active row that is not registered reports success if and only if the fingerprint is stored, does nothing else then, and its report stays false for good if and only if the row is stuck |
| WebhookRegistration.FalseReportRun | src/core/channels/telegram/webhook/telegram-webhook.registrar.ts:184-207 | a run to such a report: one passing failure, then a second job |
| WebhookRegistration.ChangeBoundsCalls | src/core/persistence/repositories/client-agent.repository.ts:459-463 | from any state in which no job of another fingerprint is at work, one start at most and one call beside those already started follow, all for the fingerprint now configured, which the row keeps from that start on |
| WebhookRegistration.QuietChangeIsFollowed | src/core/persistence/repositories/client-agent.repository.ts:459-463 | if a change finds no job at work, at most one call follows it, and the row carries the fingerprint of that call |
| WebhookRegistration.RegisteredIsLastAccepted | src/core/channels/telegram/webhook/telegram-webhook.registrar.ts:179-218 | over any number of changes, each made while no job of another fingerprint can still register the row, a registered row carries the fingerprint Telegram accepted last |
| WebhookRegistration.StraysIffOldJob | src/core/channels/telegram/webhook/telegram-webhook.registrar.ts:179-218 | after such a run, with every further load computing one fingerprint, some continuation leaves the row registered under another fingerprint than the one accepted last if and only if a job of another fingerprint is loaded, started or accepted and has not ended |
| WebhookRegistration.StaleAnswerRun | src/core/channels/telegram/webhook/telegram-webhook.registrar.ts:211-217 | a run in which a job left over from before a change records its answer last, and the registered row carries a fingerprint Telegram no longer has |
| WebhookRegistration.LateFailureOverwrites | src/core/channels/telegram/webhook/telegram-webhook.registrar.ts:97-119 | in every reachable state, while URL and token stay fixed, a step takes a registered row out of that status if and only if it is the terminal write of a job that failed for good, and a row so lost is never registered again |
| WebhookRegistration.LateFailureRun | src/core/channels/telegram/webhook/telegram-webhook.registrar.ts:97-119 | a run in which it happens: a job fails early, another registers the row, then the first one's terminal write arrives |
| WebhookRegistration.QuarantineIsDead | src/core/orchestrator/lifecycle/webhook-registration.reconciler.ts:130-145 | no run ever quarantines a row |
| WebhookRegistration.TicksSpareSettledRows | src/core/orchestrator/lifecycle/webhook-registration.reconciler.ts:86-164 | with any number of reconcilers and no lock, no tick changes a row that is registered or quarantined at the moment of its write |
| WebhookRegistration.ClaimsAreSeparated | src/core/orchestrator/lifecycle/webhook-registration.reconciler.ts:147-159 | two claims of a row are always separated by a write that is no claim |
| WebhookRegistration.OneTerminalWritePerAttempt | src/core/channels/telegram/webhook/telegram-webhook.registrar.ts:97-119 | in every run an attempt of a job writes its terminal failure once at most |
| WebhookRegistration.WriteIsDated | src/core/persistence/repositories/client-agent.repository.ts:423-481 | a write that goes through leaves its own time as the last attempt and its status, counts an attempt if it says so, and changes fingerprint, error and registration time only as it names them |
| WebhookRegistration.FreshAttemptIsLeftAlone | src/core/orchestrator/lifecycle/webhook-registration.reconciler.ts:86-128 | in every run, after any step that changed the row no tick resets it and no scan hands it out as a stuck registration until the clock has passed that step by thirty minutes |
| WebhookRegistration.UndisturbedTick | src/core/orchestrator/lifecycle/webhook-registration.reconciler.ts:67-172 | a tick on its own changes a row if and only if it is active and absent, pending or failed with attempts left, or registering for more than thirty minutes with attempts left; it fails the last and claims the others |
| WebhookRegistration.UndisturbedJob | src/core/channels/telegram/webhook/telegram-webhook.registrar.ts:136-227 | a job on its own: nothing on an inactive row or a stored fingerprint, otherwise one call and a row registered or failed as Telegram answers, with an attempt counted exactly if the job fails for good |
| WebhookRegistration.StampMeans | src/features/client-agents/client-agents.service.ts:103-114 | a hire sets the status to pending unless the row is registered, quarantined or inactive, and keeps fingerprint and counter |
| WebhookRegistration.RowTellsItsState | src/core/persistence/repositories/client-agent.repository.ts:423-438 | in every run a registered row was registered by its last write and carries no error, a failed one carries an error, and none is longer than 500 characters |
| WebhookRegistration.AttemptCountIsTerminalFailures | src/core/channels/telegram/webhook/telegram-webhook.registrar.ts:97-111 | the attempt counter equals the number of terminal failures that were written |
| WebhookRegistration.FindReconcilable | src/core/persistence/repositories/client-agent.repository.ts:536-638 | a page holds reconcilable rows only, each bot once, and misses none when it is not full |
| WebhookRegistration.QuarantineThreshold | src/core/orchestrator/lifecycle/webhook-registration.reconciler.ts:174-182 | a setting of one or more is kept, anything else falls back to four, so the threshold is at least one |
| WebhookRegistration.ClientAgentRepository.UpdateWebhookRegistrationByTelegramBotId | src/core/persistence/repositories/client-agent.repository.ts:386-482 | field by field the update is the conditional write of the transition system, whose effect WriteIsDated states, and reports a match only for a change |
| WebhookRegistration.ClientAgentRepository.QuarantineWebhookRegistration | src/core/persistence/repositories/client-agent.repository.ts:489-524 | the same for quarantining |
| WebhookRegistration.QuarantineMeans | src/core/persistence/repositories/client-agent.repository.ts:489-524 | an active row is quarantined whatever its status was, with the error given, its fingerprint and its counter kept |
| WebhookRegistration.ClientAgentRepository.Tick | src/core/orchestrator/lifecycle/webhook-registration.reconciler.ts:67-172 | an undisturbed tick acts on every row of its page, quarantines none and probes exactly the rows it claimed |
| ConversationLifecycle.AtMostOneOpen | src/core/persistence/schemas/conversation.schema.ts:139-149 | in every interleaving of calls, touches and operator status changes there is at most one open conversation per client, contact and channel, and every returned one has the caller's triple |
| ConversationLifecycle.ReturnedWasOpen | src/core/domain/conversation/conversation.service.ts:25-129 | a returned conversation was open at some moment of the call |
| ConversationLifecycle.RacingCallsAgree | src/core/domain/conversation/conversation.service.ts:98-129 | from any state on, as long as nothing closes, all calls of a triple that had no answer yet return the same open conversation, whatever was answered before; only a call that had been refused by then, with nothing open any more, may fail |
| ConversationLifecycle.RefusedCallFails | src/core/domain/conversation/conversation.service.ts:98-129 | a run in which it does: the winner's conversation is closed before the refused call reads it back |
| ConversationLifecycle.RacingOnTimedOutAgree | src/core/domain/conversation/conversation.service.ts:53-69 | any number of calls that find the same conversation timed out return one and the same successor and none fails, whatever other calls were answered or are under way, whoever closes the old one and however often, as long as no touch or operator's write names it before and nothing closes its successor |
| ConversationLifecycle.RaceIsReached | src/core/domain/conversation/conversation.service.ts:53-69 | a reachable state in which such a race is on, with the call that created the conversation answered long ago |
| ConversationLifecycle.CloseOverrules | src/core/domain/conversation/conversation.service.ts:53-63 | in every run, when a call closes, its conversation is no longer open and timed out if and only if since the lookup the last touch left a time that is not timed out or the last status write left another status than open; it is closed either way |
| ConversationLifecycle.CloseOverrulesAMessage | src/core/domain/conversation/conversation.service.ts:53-63 | a run in which a message revives the conversation between lookup and close, and it is closed |
| ConversationLifecycle.ResolveIsARun | src/core/domain/conversation/conversation.service.ts:25-69 | the uninterrupted call is one of the runs and ends with an open conversation of the triple |
| ConversationLifecycle.ResolveMeans | src/core/domain/conversation/conversation.service.ts:25-96 | entry by entry: a recent open conversation is returned and nothing changes, otherwise what is open of the triple is closed and a new one with the time of the caller comes last |
| ConversationLifecycle.NextCallReturnsIt | src/core/domain/conversation/conversation.service.ts:53-59 | the next call for the triple returns the same conversation and changes nothing if and only if it comes less than a day after the last message, which is the call before if that one created it |
| ConversationLifecycle.NextMessageFindsIt | src/core/domain/conversation/conversation.service.ts:53-96 | in every run a created conversation that no touch or operator names stays open for a day from the beginning of the creating call, and every call that looks while it is open returns it or finds it timed out exactly by its last message |
| ConversationLifecycle.OperatorWriteMeans | src/core/persistence/repositories/conversation.repository.ts:588-604 | an operator's write changes one conversation of its own client, or nothing if it would open a second one of the triple |
| ConversationLifecycle.FindLatestOpen | src/core/persistence/repositories/conversation.repository.ts:119-133 | finds an open conversation of the triple whenever there is one, the last updated of them |
| ConversationLifecycle.ConversationService.ResolveOrCreate | src/core/domain/conversation/conversation.service.ts:25-69 | returns an open conversation of the triple and keeps at most one open; changes nothing if a recent one is open, and otherwise creates one with the time of the caller |
| ConversationLifecycle.ConversationService.UpdateStatus | src/core/persistence/repositories/conversation.repository.ts:135-147 | writes status and update time of one conversation |
| ConversationLifecycle.ConversationService.TouchConversation | src/core/persistence/repositories/conversation.repository.ts:155-171 | writes the last message time of one conversation, earlier or later, and nothing else |
| Sorting.SortForgetsOrder | src/core/domain/routing/agent-routing.service.ts:132-134 | sorting by a total order gives one result for every order of the input |
| Sorting.SortAscends | src/core/domain/routing/agent-routing.service.ts:132-134 | with equal names allowed, no element comes after one it precedes |
| Sorting.SortIsStable | src/core/domain/routing/agent-routing.service.ts:132-134 | elements equal to each other stay in the order they came in |
| KeysetPagination.ListingIs | src/core/persistence/repositories/conversation.repository.ts:217-245 | the query returns exactly the matching rows past the cursor, strictly ordered on timestamp and id |
| KeysetPagination.NextPageContinues | src/core/persistence/repositories/conversation.repository.ts:242-258 | a page is the head of the list past its cursor, a next cursor is given exactly if rows remain, and the next page starts with the first of them |
| KeysetPagination.PagesAreTheListing | src/core/persistence/repositories/message.repository.ts:207-248 | following cursors on a still store ends, and the pages laid end to end are the whole list; pages are full but the last, which is empty only if the list is |
| KeysetPagination.NothingIsReadTwice | src/core/persistence/repositories/conversation.repository.ts:280-365 | if rows only move towards the front between reads, no id is on two pages |
| KeysetPagination.UntouchedIsReadOnce | src/core/persistence/repositories/conversation.repository.ts:280-365 | a row that stands still and matches throughout is on exactly one page when the reading ends, whatever happens to the others |
| InboxPages.ReadAllReadsEverything | src/features/inbox/inbox.service.ts:52-94 | with cursors passed through their text form, no request is refused and the pages are the filtered list in order |
| InboxPages.InboxIsReadInFull | src/core/persistence/repositories/conversation.repository.ts:280-365 | read through the wire to the end, the inbox shows exactly the client's own conversations of the status asked for, and of the channel, agent and part of a name if asked for, latest first and the greater id first among equals |
| InboxPages.InboxFromCursor | src/core/persistence/repositories/conversation.repository.ts:312-320 | read from a cursor's text on, it shows exactly those whose time lies before the cursor's or equals it with a smaller id |
| InboxPages.ThreadIsReadInFull | src/core/persistence/repositories/message.repository.ts:200-249 | ... a thread exactly its active messages that are no summaries, oldest first |
| InboxPages.ContactsAreReadInFull | src/core/persistence/repositories/contact.repository.ts:150-185 | ... and the contact list exactly the client's contacts, latest first |
| InboxPages.WriteEvolvesIffNotLowering | src/core/persistence/repositories/conversation.repository.ts:155-171 | a write keeps every conversation from moving down the list if and only if it is not a touch with an earlier time than the stored one |
| InboxPages.NoConversationTwice | src/core/persistence/repositories/conversation.repository.ts:280-365 | while others raise times, insert and change statuses, no conversation is on two pages |
| InboxPages.UntouchedConversationOnce | src/core/persistence/repositories/conversation.repository.ts:280-365 | a matching conversation that no write concerns is on exactly one page when the reading ends, even if writes move others down the list |
| InboxPages.TouchedIsReadAgainIff | src/core/persistence/repositories/conversation.repository.ts:155-171 | a conversation already read is met again exactly if a touch puts it past the cursor, which takes a lowered time |
| CursorCodec.IsoRoundTrip | src/features/inbox/utils/cursor.util.ts:25-31 | every time value a Date can have reads back from its ISO text as itself, years beyond four digits included |
| CursorCodec.IsoTextIs | src/features/inbox/utils/cursor.util.ts:25-28 | the text of every time value has the date-time string format of ECMA-262, with the fields of the Date and its time of day |
| CursorCodec.Base64RoundTrip | src/features/inbox/utils/cursor.util.ts:30-43 | base64url without padding (section 5 of RFC 4648) loses no byte |
| CursorCodec.ThreeBytes | src/features/inbox/utils/cursor.util.ts:30 | three bytes are written as the four digits of one number in the alphabet of RFC 4648; OneByte and TwoBytes say the same of what is left at the end |
| CursorCodec.CursorRoundTrip | src/features/inbox/utils/cursor.util.ts:25-73 | decoding an encoded cursor gives back its time and id, for every time value and every 12-byte id |
| CursorCodec.EncodedTextIs | src/features/inbox/utils/cursor.util.ts:25-31 | a cursor on the wire is the base64url text of the JSON object of timestamp and lower-case hexadecimal id |
| CursorCodec.DecodedIsCursor | src/features/inbox/utils/cursor.util.ts:33-73 | no text and the empty one mean the first page, and whatever else is accepted is a cursor |
| RoutingCandidates.E164Idempotent | src/shared/e164.util.ts:6-12 | normalizing a normalized number changes nothing |
| RoutingCandidates.NormalizedIs | src/shared/e164.util.ts:6-12 | a number loses the white space around it and nothing else, and gains a plus sign if only digits remain |
| RoutingCandidates.CandidatesIff | src/core/domain/routing/agent-routing.service.ts:145-226 | who is a candidate, for every kind of channel: an active hire of an active agent, on its first active channel with that address |
| RoutingCandidates.CandidatesSame | src/core/domain/routing/agent-routing.service.ts:169-226 | the same hires in another order make the same candidates, each once |
| RoutingCandidates.OnlyNormalizedNumbersRoute | src/core/persistence/repositories/client-agent.repository.ts:249-265 | a number that reaches an active hire yields a candidate if and only if it came in already normalized |
| RoutingCandidates.DigitsAloneNeverRoute | src/core/persistence/repositories/client-agent.repository.ts:249-265 | where the stored numbers are normalized, an address of digits alone gets no candidate, although normalizing would complete it with the plus sign |
| RoutingCandidates.AdapterNumbersRoute | src/core/channels/whatsapp/providers/meta.adapter.ts:30-39 | in whatever form the provider sent the number, the address an adapter makes of it gets a candidate whenever it reaches an active hire |
| RecentHistory.ResolveFromRecentHistory | src/core/domain/routing/agent-routing.service.ts:263-346 | the map of clients and the nested loops compute the candidate of a latest hit |
| RecentHistory.MostRecentIsLatestHit | src/core/domain/routing/agent-routing.service.ts:263-346 | the result belongs to a hit that no hit is later than, and is missing only if there is no hit |
| RecentHistory.NoCountedMessageIsLater | src/core/domain/routing/agent-routing.service.ts:263-346 | no message that counts for the sender is later than the one the result rests on, and nobody is picked only if no message counts |
| RecentHistory.MostRecentForgetsOrder | src/core/domain/routing/agent-routing.service.ts:263-346 | with one hire per client and agent and one message per instant the result does not depend on the order of the candidates |
| RecentHistory.MostRecentIff | src/core/domain/routing/agent-routing.service.ts:263-346 | with one hire per client and agent and one message per instant, a candidate is picked if and only if its agent has the latest message with the sender, stated on the stored records alone |
| RecentHistory.FindLatest | src/core/persistence/repositories/message.repository.ts:156-173 | returns a counted message that no counted message is later than, whenever one counts: active, spoken, of the contact, by one of the agents on one of the channels |
| AgentRouting.NameSelectsIff | src/core/domain/routing/agent-routing.service.ts:228-261 | a message that is no valid number selects a candidate if and only if it is the only one of exactly that name, or failing any such the only one whose name the message contains; agents of one name included |
| AgentRouting.ScoresIff | src/core/domain/routing/agent-routing.service.ts:353-366 | a candidate scores if and only if a whole word of its name with four characters or more appears in the message |
| AgentRouting.KeywordWinsIff | src/core/domain/routing/agent-routing.service.ts:348-381 | keywords decide for a candidate if and only if it alone scores highest, and above zero |
| AgentRouting.ScoreCounts | src/core/domain/routing/agent-routing.service.ts:353-366 | the score is the number of places in the name that hold a whole word of four characters or more of the message |
| AgentRouting.ExplicitIff | src/core/domain/routing/agent-routing.service.ts:228-261 | the text chooses by the number in the menu, zeros in front or not; failing that the one candidate of that name; failing that the one whose name appears in it |
| AgentRouting.RouteDecides | src/core/domain/routing/agent-routing.service.ts:71-140 | the whole decision branch by branch: no address, no candidate, one candidate; among several the text decides before the recent history and that before the keywords, and the menu is sent if and only if nothing decides |
| AgentRouting.SortedByNameIs | src/core/domain/routing/agent-routing.service.ts:132-134 | the menu has all candidates in the order of their names, and agents of one name as the database returned them |
| AgentRouting.RouteForgetsOrder | src/core/domain/routing/agent-routing.service.ts:71-140 | with distinct agent names, one hire per client and agent and one message per instant, the whole decision is the same for every order of the hires |
| AgentRouting.PrintedNumberSelects | src/core/domain/routing/agent-routing.service.ts:228-242 | replying with the number printed before an entry selects that entry, for every list and index, with or without white space |
| AgentRouting.MenuRoundTrip | src/core/agent/agent-context.service.ts:185-205 | after an ambiguous decision, that reply is routed to that entry, whichever of the two menus was sent |
| AgentRouting.MenuIsComplete | src/core/domain/routing/agent-routing.service.ts:132-140 | the menu lists every candidate, as many as there are, and at least two |
| CatalogImport.BuildLlmWorkUnits | src/features/client-catalog-items/catalog-import.extract.ts:224-279 | the index loops produce the slices that the partition is stated for |
| CatalogImport.UnitsPartition | src/features/client-catalog-items/catalog-import.extract.ts:224-279 | work units carry every row or character once and in order; all but the last are full, 75 rows or 12000 characters, and excerpts are numbered from one |
| CatalogImport.AssertNoConflictingDuplicatesInBatch | src/features/client-catalog-items/client-catalog-items.service.ts:257-282 | the grouping loops report the first complaint in the order of first appearance |
| CatalogImport.BatchPassesIff | src/features/client-catalog-items/client-catalog-items.service.ts:257-282 | a batch passes if and only if any two rows with the same trimmed SKU parse to the same item |
| CatalogImport.ComplaintHasReason | src/features/client-catalog-items/client-catalog-items.service.ts:257-282 | every complaint has its reason in two rows of one SKU: one of them does not parse, or both do and differ |
| CatalogImport.ParseIff | src/shared/client-catalog-item.contract.ts:13-38 | what the schema accepts and as what: lengths after trimming, no negative price and none without currency, a currency of three letters in upper case |
| CatalogImport.ParseIsStable | src/shared/client-catalog-item.contract.ts:13-38 | an item the schema has accepted is accepted again unchanged |
| CatalogImport.MergeForgetsOrder | src/features/client-catalog-items/client-catalog-items.service.ts:202-228 | a batch that passes does so in every order, and merges to the same map |
| CatalogImport.LastBatchWins | src/features/client-catalog-items/client-catalog-items.service.ts:202-228 | of all batches that mention a SKU the last decides, by any of its rows for it |
| CatalogImport.NothingFromNowhere | src/features/client-catalog-items/client-catalog-items.service.ts:202-228 | a SKU that no batch mentions is not merged |
| CatalogImport.MergedSkusAreDistinct | src/features/client-catalog-items/client-catalog-items.service.ts:226-237 | the merged list has every SKU once |
| CatalogImport.MergedInOrderOfAppearance | src/features/client-catalog-items/client-catalog-items.service.ts:202-237 | ... in the order in which the batches first mention them |
| CatalogImport.MergesIff | src/features/client-catalog-items/client-catalog-items.service.ts:202-228 | the merge goes through if and only if every batch passes the check and every row parses |
| CatalogImport.FirstFailureDecides | src/features/client-catalog-items/client-catalog-items.service.ts:202-228 | otherwise the first batch that is not in order decides the error, a conflict before a row that does not parse |
| CatalogImport.ImportReadsBack | src/features/client-catalog-items/client-catalog-items.service.ts:202-254 | after a complete import every SKU reads back as the last batch that mentions it has it, and every other entry is as it was |
| CatalogImport.ResultMeans | src/features/client-catalog-items/client-catalog-items.service.ts:230-254 | what the caller is told: the reason of a refusal, that nothing was found, how many chunks of 500 were written, or how many SKUs |
| CatalogImport.ClientCatalogItemsService.Merge | src/features/client-catalog-items/client-catalog-items.service.ts:202-228 | the merge loop computes the merge of the batches, or its first error |
| CatalogImport.ClientCatalogItemsService.ImportFromUpload | src/features/client-catalog-items/client-catalog-items.service.ts:202-254 | a refused import leaves the store alone, a broken one leaves the prefix it reports as committed, a complete one the whole list, in whatever order the bulk writes proceed |
| CatalogStore.ClientCatalogItemRepository.BulkUpsertChunked | src/core/persistence/repositories/client-catalog-item.repository.ts:33-82 | a failing chunk leaves exactly the chunks before it, and their number is reported |
| CatalogStore.CommittedChunksAreAPrefix | src/core/persistence/repositories/client-catalog-item.repository.ts:60-81 | with distinct SKUs the committed chunks are a prefix of the list, whatever order each unordered write took |
| CatalogStore.UpsertsCommute | src/core/persistence/repositories/client-catalog-item.repository.ts:66-70 | upserts of distinct SKUs give one result in any order |
| CatalogStore.UpsertsReadBack | src/core/persistence/repositories/client-catalog-item.repository.ts:38-58 | field by field: an item reads back as imported and active, a field it lacks keeps what was stored, and other SKUs and clients are untouched |
| CatalogStore.RetriesConverge | src/core/persistence/repositories/client-catalog-item.repository.ts:33-82 | after any number of attempts that broke off anywhere, a complete one leaves the store of one uninterrupted run |
| ClientSessions.AcceptedWasValid | src/features/client-auth/client-sessions.service.ts:76-126 | in every interleaving an accepted session was unrevoked and within its idle time when looked up, and within its absolute time when the clock was read after that; and it is what was stored for the token at that lookup |
| ClientSessions.RevokedStaysOut | src/features/client-auth/client-sessions.service.ts:128-134 | no validation that looks a session up after its revocation is ever accepted, late touches and reaping notwithstanding |
| ClientSessions.RevocationShutsOut | src/features/client-auth/client-sessions.service.ts:128-134 | after a logout, a revocation of all sessions of the user, or the write that follows an inactive user, no call that looks the token up later is accepted, and all other sessions are as they were |
| ClientSessions.CheckDecides | src/features/client-auth/client-sessions.service.ts:84-124 | what becomes of a session once found: refused at its absolute deadline, revoked for an inactive user, touched if last seen more than an hour ago, accepted |
| ClientSessions.DeadlineNeverMoves | src/features/client-auth/client-sessions.service.ts:110-123 | if every clock reading follows its lookup within throttle + 1 - idle milliseconds, no deadline ever moves |
| ClientSessions.DeadlineSlidesIff | src/features/client-auth/client-sessions.service.ts:10-12 | with instant validations and any settings, some deadline ever moves if and only if both lifetimes exceed the throttle by more than a millisecond and not both by exactly two; with the defaults none does |
| ClientSessions.ActivityDoesNotProlong | src/features/client-auth/client-sessions.service.ts:51-55 | with prompt validations every accepted session was looked up within the idle time of its creation and accepted within the throttle, which the default absolute lifetime exceeds |
| ClientSessions.ValidateIsARun | src/features/client-auth/client-sessions.service.ts:76-126 | the uninterrupted validation is one of the runs |
| ClientSessions.ValidateMeans | src/features/client-auth/client-sessions.service.ts:76-126 | an uninterrupted validation accepts exactly the unrevoked session of an active user within both deadlines, and what it stores, field by field |
| ClientSessions.IssueIsARun | src/features/client-auth/client-sessions.service.ts:60-74 | a login is two events and stores one session, last seen at its creation |
| ClientSessions.IssuedIsAccepted | src/features/client-auth/client-sessions.service.ts:60-126 | a session just issued is accepted up to the earlier of its two deadlines and not beyond |
| ClientSessions.RevokedIsRefused | src/features/client-auth/client-sessions.service.ts:128-130 | a revoked token is refused from then on, and presenting it changes nothing |
| ClientSessions.ClientSessionsService.Issue | src/features/client-auth/client-sessions.service.ts:60-74 | stores one session with the idle deadline and changes no other |
| ClientSessions.ClientSessionsService.ValidateAndTouch | src/features/client-auth/client-sessions.service.ts:76-126 | accepts and stores what the uninterrupted run does |
| ClientSessions.ClientSessionsService.Revoke | src/features/client-auth/client-sessions.service.ts:128-130 | marks one session revoked and changes nothing else, and no later validation of its token succeeds |

## Left out

- Time zones with daylight saving, the limits of a Date's range and invalid Dates in the billing calendar: one zone, all integers.
- Leap seconds, fractional milliseconds and money in floating point: amounts are integers.
- QuotaEnforcement.QuotaOverrunIsBounded: stated for anchor days 1 to 28, outside of which BoundHoldsIff shows that it fails, for years from 100 on and one quota per channel; the token quota enters as an arbitrary verdict.
- BillingGenerator.RecordsAreDisjoint: stated for clock reads that stretch no period and lie in years from 100 on; BilledTwiceIff says for which anchors a run can do otherwise.
- CursorCodec.DecodeCursor: accepts canonical texts only; the source's JSON, Date and base64 parsers also accept other spellings of a cursor, which no encoder of the source writes.
- ClientSessions.DeadlineSlidesIff: the settings are integers; a validation whose clock reading trails its lookup is covered by DeadlineNeverMoves only as far as it is prompt.
- ConversationLifecycle.ConversationService.ResolveOrCreate: asks for the invariant that at most one conversation of a triple is open, which every run keeps.
- CatalogStore.Overlay: an optional field that an item lacks keeps its stored value, as the database library's casting of undefined fields has it.
- CatalogImport.AssertNoConflictingDuplicatesInBatch: a row of a repeated SKU that fails the schema is refused as an invalid row; in the source the comparison lets the schema library's own error through.
- The descriptions of invoice lines, which name the agent or the channel.
- CatalogImport.ClientCatalogItemsService.ImportFromUpload: takes the returned rows as given; file checks, the language model and the text of the prompts are not modelled.
- The registrar's worker, the reconciler's races and the crashes of operator requests exist as steps of transition systems only; a class shows the undisturbed call.
- Database errors other than a duplicate key, a refused condition, a failed touch or revocation and a broken chunk transaction.
- The reconciler's lock, the queue's stable job ids and retry policy: the results hold without them, redelivery is arbitrary.
- The enrichment joins, projections and unread flags of the inbox list; the hint that pins an index.
- Semantic routing, prompt text, language detection and everything a language model returns beyond arbitrary rows.
- Collation details: names are compared by an arbitrary total order; names that collate as equal are outside RouteForgetsOrder.
- HTTP controllers, guards, validation of request bodies, logging and metrics.
- Encryption, hashing and token generation: fingerprints are arbitrary numbers, session tokens are drawn fresh.
- Phone ownership, the seeder and the migrations: the seeder keeps a number on a hire after an ownership conflict, so an invariant would have to exclude it.
- Create, update and delete operations on agents, prices, personalities, users, clients and catalog items: simple members only.
