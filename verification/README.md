# A verified model of the CRM and enterprise protocols

This project models, in Dafny, the database-backed protocols of the restaurant platform's CRM and
enterprise services, and proves what they keep over every interleaving, every run or every input.
A table is a sequence or a map, a `db.batch` or a single statement is one atomic step, and callers
are interleaved wherever a property speaks of concurrent callers. Where the source updates tables in
loops, a class holds the tables and its methods are proved against the step functions that the
lemmas are about.

| module | what it models |
|---|---|
| `Consent` | the consent log, suppressions and the four-stage eligibility check |
| `Campaign`, `CampaignSafety`, `CampaignChannels`, `CampaignOutcomes` | the delivery protocol as a state machine of workers that may crash anywhere while configurations change; what every interleaving keeps, at-most-once under a condition on channel changes alone, and what each statement and answer makes of a row |
| `CampaignRuns`, `CampaignReopening` | runs put together from pieces; what a reopened row leads to where that condition is broken |
| `CampaignWindow`, `CampaignService` | the sliding-window limit over every run, crashes included; `queueCampaign` and `processCampaign` as written |
| `Hierarchy` | the enterprise tree and its closure table |
| `Policy`, `PolicyRules`, `PolicyMeaning` | policy resolution as a fold down the path, its agreement with the query, the write check and the trace, and where what is resolved comes from |
| `Rollout` | price rollouts that trust a policy watermark |
| `GiftCards` | the gift-card ledger, its double-entry journal and the card status |
| `Points` | the loyalty-points ledger: guards, expiry and partial refunds |
| `Vouchers`, `Stacking` | voucher caps under validate-then-redeem, and how candidate vouchers combine |
| `Leads` | the lead row's compare-and-set, its event log and idempotent replay |
| `Quantity`, `Text` | the decimal quantity reader and printer, recipe scaling, trimming |

Modelling choices. Identifiers are natural numbers, or the row's place in an append-only table;
generated ids are fresh. Instants are integers. A digest is represented by what was digested, so
hashing is injective. Key strings built by different code paths are different keys. Of the schema,
the primary keys and unique constraints that the services run into are modelled, and the triggers that
keep loyalty and gift-card balances from going negative; the other triggers only repeat what the
guards of the inserts already demand, or protect tables that no code updates. A query without an
ORDER BY returns rows in the order of insertion. Clock readings, provider answers, and the verdicts
of code outside the model (schema checks, programme scope, branch access of a customer) are
parameters. A clock may run backwards everywhere; what depends on its not doing so says so.

Findings worth knowing:

- A delivery is called at most once beyond definite refusals as long as a provider's channels change
  only while no worker is in a call for it; limits and attempts may change at any moment, and fixed
  channels are a special case (`AtMostOnceWithIdleChanges`, `AtMostOnceWithFixedChannels`). A channel
  changed under running calls can make one worker's capability failure put a row that another is
  sending back to FAILED. If one of its calls is not known to be refused, or its claimer may still
  send, that breaks the guarantee at once or in a continuation (`ReopeningBreaks`,
  `ReopeningLeadsToBreak`), and `ReopenedRowIsSentTwice` is a whole run after which the provider has
  accepted two messages for one row.
- A worker counts the attempts of the row it selected, not of the row it updates. A row whose last
  attempt is refused therefore stays FAILED instead of DEAD_LETTER when another worker took an attempt in
  between (`SpentRowMayStayFailed`); it is never tried again all the same (`SpentIsForever`).
- The per-minute limit holds in every state, also after crashes in the middle of a batch, as long as
  calls of one configuration stamp in turn and no stamp is older than the reading from which its call
  counted (`RunWithinLimit`); a clock that falls behind that reading breaks it
  (`ClockStepBackBreaksLimit`).
- The ledger trigger aborts a refund whose points have been spent already, where the programme allows
  no negative balance: the call stops there, having reversed the earnings before it
  (`ReverseTransactionPoints`, `RefundMayBeRefused`). `PartialRefunds` says what is then given back.
- Expiry runs of two different days that overlap can expire the same points twice: the daily key does not
  connect them (`OverlappingDaysExpireTwice`). Runs that overlap within one day are safe
  (`ExpiredWasDue`).
- A repeated adjustment is compared by its trimmed reason but stored with the reason as sent, so a
  reason with white space around it never replays (`OwnReplay`).
- An accepted policy assignment is not applied when the exception it needed starts later than the
  assignment: the write check ignores `valid_from`, the read fold does not. `AcceptedMeansApplied`
  gives the exact condition, `AcceptedNotApplied` an instance.
- The lead log spells an omitted next action as the text `__UNCHANGED__`. A client that sends that
  very text defeats replay (`SentinelDefeatsReplay`); `ReplaysExactlyWhen` gives the exact condition.
- Validation of vouchers counts confirmed minus reversed redemptions, the insert guard confirmed ones
  only. A reversed personal voucher validates again and can never be redeemed again
  (`ReversalNeverReopens`, `ReversedValidatesAgain`), a capped voucher whose confirmed rows fill the
  cap is offered again once one of them is reversed (`GuardVersusValidation`), and a personal voucher
  that is not single use redeems once all the same (`MultiUseIsOfferedAndRefused`).
- An undated consent is stamped behind the newest row it read; a row committed between that read and
  the batch may take precedence over it (`RacedConsentWins`). An opt-out holds all the same.
- `redeemVoucher` validates without order lines, so a voucher scoped to items or categories is never
  redeemed through it (`RedemptionsAreFair`).
- A lead update that loses a race to its own key is stopped by the log's unique constraint alone:
  the event insert selects by key and version and would match (`CommitWritesOnlyFresh`).

## Model

| member | source | states |
|---|---|---|
| Consent.UndatedConsentWins | src/crm/crm-service.ts:830-866 | a consent appended without a date is the row the eligibility query reads, even when the clock stands behind the newest row |
| Consent.DatedConsentWins | src/crm/campaign-service.ts:891-899 | an explicitly dated consent is the current row if and only if no recorded row takes precedence over it |
| Consent.CommittedWins | src/crm/campaign-service.ts:891-899 | the same of a consent whose instant was computed from an older read: the order of the rows alone decides |
| Consent.RacedConsentWins | src/crm/crm-service.ts:833-866 | read and batch interleaved with other appends: an undated consent is the current row if and only if it precedes every row that came between |
| Consent.CommitIs | src/crm/crm-service.ts:847-916 | the batch leaves the consent as asked for, and for a withdrawal or denial a suppression of that channel |
| Consent.StampIs | src/crm/crm-service.ts:832-844 | an undated consent is stamped by the clock, pushed just behind every row of its customer and channel |
| Consent.EligibleExactlyWhen | src/crm/campaign-service.ts:877-920 | the check passes exactly for an active customer whose most preferred consent row for the channel grants it, with no suppression and an address of the right kind |
| Consent.OptOutIsPermanent | src/crm/crm-service.ts:894-916 | after WITHDRAWN or DENIED, however dated, no later state of the tables is eligible for that customer and channel |
| Consent.ConsentService.AppendConsent | src/crm/crm-service.ts:818-918 | refuses an unknown customer; else the read and the one batch leave exactly the consent of the canonical customer, its suppression if it is an opt-out, and the journey row |
| CampaignSafety.StepKeepsInv | src/crm/campaign-service.ts:580-781 | every statement, read, provider call, answer and crash of every worker, and every change of the configuration, keeps the protocol invariant unless a capability failure reopens a row being sent |
| CampaignSafety.SkipKeepsInv | src/crm/campaign-service.ts:663-679 | a capability failure keeps the invariant if and only if it does not put back, with attempts left, a row being sent that some worker holds or that has a call not known to be refused |
| CampaignSafety.AtMostOnce | src/crm/campaign-service.ts:680-781 | in every run in which no capability failure reopens a row being sent: every call of a delivery but possibly the last definitely failed; calls ≤ attempt_count ≤ max_attempts; a waiting row had only refused calls; a SENT row's last call was accepted |
| CampaignChannels.AtMostOnceWithFixedChannels | src/crm/campaign-service.ts:573-781 | with provider channels fixed for the run, in every interleaving and under any change of limits and attempts: the conclusions of AtMostOnce and EndedIsNotHeld |
| CampaignChannels.AtMostOnceWithIdleChanges | src/crm/campaign-service.ts:617-679 | the same when a provider's channels change only while no worker is in a call of its campaigns |
| CampaignChannels.NothingReopens | src/crm/campaign-service.ts:663-679 | under that condition on channel changes no capability failure ever lands on a row being sent |
| CampaignReopening.ReopenedRowIsSentTwice | src/crm/campaign-service.ts:663-679 | a run from the empty tables in which a lost channel reopens a row being sent and the provider accepts two messages for it |
| CampaignReopening.ReopeningBreaks | src/crm/campaign-service.ts:663-679 | a capability failure that reopens a row with a call not known to be refused violates AtMostOnce's conclusion at once |
| CampaignReopening.ReopeningLeadsToBreak | src/crm/campaign-service.ts:663-700 | one that reopens a row whose claimer can still pass its reads has a continuation that violates it |
| CampaignSafety.TerminalIsForever | src/crm/campaign-service.ts:580-590 | SENT, UNKNOWN, UNSUBSCRIBED and DEAD_LETTER rows are never written again, in any run whatever; once no worker is past its claim of such a row, its call history never grows or changes |
| CampaignSafety.EndedIsNotHeld | src/crm/campaign-service.ts:688-781 | in every run without a reopening (so in every run with fixed channels) nobody is past the claim of a SENT or UNSUBSCRIBED row, so nothing is ever sent for it again |
| CampaignOutcomes.AnswerDecides | src/crm/campaign-service.ts:719-772 | an answer recorded for a row being sent: accepted ends in SENT with its stamp, an unclear one in UNKNOWN, a refusal that may be repeated and is not the last attempt its worker knows of in FAILED with the delay, any other refusal in DEAD_LETTER with no next attempt; nothing else changes |
| CampaignOutcomes.DelayDoubles | src/crm/campaign-service.ts:968-985 | the delay starts at half a minute, doubles with every attempt and stops at an hour |
| CampaignOutcomes.PutOffIsNotDue | src/crm/campaign-service.ts:968-985 | a row put off by a refusal is not due before its delay is over |
| CampaignOutcomes.PermanentRefusalEnds | src/crm/campaign-service.ts:764-772 | after a permanent refusal, or one of the last attempt its worker knows of, the row is DEAD_LETTER without a next attempt in every later state, and nobody claims or calls for it again |
| CampaignOutcomes.SpentIsForever | src/crm/campaign-service.ts:680-687 | a row without attempts left that nobody holds is never claimed or called for again, whatever its status |
| CampaignOutcomes.SpentRowMayStayFailed | src/crm/campaign-service.ts:764-772 | a run of two workers after which a row with all its attempts refused is FAILED |
| CampaignOutcomes.CapabilityFailureDecides | src/crm/campaign-service.ts:655-668 | a missing capability costs no attempt and puts a waiting row off, or ends it at the last attempt its worker knows of |
| CampaignOutcomes.ClaimDecides | src/crm/campaign-service.ts:680-687 | a claim takes one attempt of a QUEUED or FAILED row that has one left, and changes nothing otherwise |
| CampaignOutcomes.SweepDecides | src/crm/campaign-service.ts:580-595 | exactly the campaign's rows SENDING for more than ten minutes become UNKNOWN |
| CampaignOutcomes.SelectionIs | src/crm/campaign-service.ts:629-653 | the selection returns waiting rows of the campaign with an attempt left whose time has come, each once, in queue order, up to the limit, and leaves out only younger ones |
| CampaignOutcomes.EnqueueDecides | src/crm/campaign-service.ts:535-562 | a new key becomes a QUEUED row, due at once, without attempts taken, under its campaign's configuration; a known key changes nothing |
| CampaignOutcomes.CallsAre | src/crm/campaign-service.ts:702-772 | the call history: a call is added when it is made and becomes what its answer says |
| CampaignSafety.OptOutHolds | src/crm/campaign-service.ts:688-700 | once a suppression exists, a worker whose post-claim check has not passed the suppression read never dispatches to that customer and channel |
| CampaignSafety.ConsentStopsCampaigns | src/crm/campaign-service.ts:877-920 | the step that commits an opt-out, with whatever instant it was stamped, stops every campaign worker not past its suppression read |
| CampaignWindow.CallKeepsLimit | src/crm/campaign-service.ts:618-628 | a call that stamps at most its counted allowance, none before it counted, keeps every 60-second window within the limit |
| CampaignWindow.WindowLimit | src/crm/campaign-service.ts:618-641 | over any history of non-overlapping calls, every 60-second window of every state holds at most per_minute_limit messages |
| CampaignWindow.CallSends | src/crm/campaign-service.ts:618-781 | wherever a call has got to, finished, crashed or in the middle of its batch, it has stamped no more rows than its allowance, none before it counted |
| CampaignWindow.RunWithinLimit | src/crm/campaign-service.ts:618-641 | in every state of every run in which calls of a configuration stamp in turn, under one limit and after their counting reads, every 60-second window holds at most that limit |
| CampaignWindow.AllowanceIs | src/crm/campaign-service.ts:618-628 | a call may send what the limit leaves of the last 60 seconds, at most a batch, and nothing once the limit is reached |
| CampaignWindow.ClockStepBackBreaksLimit | src/crm/campaign-service.ts:618-628 | a run of one worker, whose calls end one after the other, that exceeds the limit because a stamp is taken from a clock behind the counting read |
| CampaignService.Service.Queue | src/crm/campaign-service.ts:523-566 | queueing adds exactly the missing audience keys as fresh QUEUED rows and counts them; nothing else changes |
| CampaignService.Service.QueueCampaign | src/crm/campaign-service.ts:487-571 | the gates in the code's order; only behind an open one are the missing rows queued and the campaign made ACTIVE |
| CampaignService.OpensExactlyWhen | src/crm/campaign-service.ts:488-505 | which campaigns are queued, put off, passed over and refused |
| CampaignService.Service.SweepStale | src/crm/campaign-service.ts:579-595 | rows left SENDING for ten minutes become UNKNOWN, as one step of the protocol |
| CampaignService.Service.ParkUnregistered | src/crm/campaign-service.ts:600-616 | without an adapter everything waiting is put off and nothing is stamped |
| CampaignService.Service.SelectDue | src/crm/campaign-service.ts:629-653 | the selection is due rows only, oldest first, at most the allowance, and leaves out none that is older |
| CampaignService.Service.CurrentEligibility | src/crm/campaign-service.ts:877-920 | the staged reads pass if and only if the customer is eligible, as steps of the protocol |
| CampaignService.Service.ClaimItem | src/crm/campaign-service.ts:680-687 | the claim changes a row exactly when it is waiting with attempts left, and says so |
| CampaignService.Service.ProcessOne | src/crm/campaign-service.ts:663-781 | one turn of the send loop makes exactly the processed row, calls the provider exactly when every check passes, and counts it |
| CampaignService.TurnIs | src/crm/campaign-service.ts:655-772 | one turn of the send loop on a waiting row, in the row's own columns, from the checks to the answer |
| CampaignService.Service.SendBatch | src/crm/campaign-service.ts:629-781 | goes through exactly the selected rows, within the allowance: each ends SENT and counts as sent, ends FAILED, DEAD_LETTER or UNKNOWN and counts as failed, or ends UNSUBSCRIBED; no stamp is earlier than any lower bound of its clock, and no other campaign is touched |
| CampaignService.Service.ProcessCampaign | src/crm/campaign-service.ts:573-781 | the whole call, gates included, is a run of the protocol; it selects within the counted allowance and reports what became of each selected row, or without an adapter pauses everything; it touches no other campaign, and with a clock that does not fall behind the counting read is a call in the sense of the window theorem |
| Hierarchy.PathListsParents | src/enterprise/enterprise-service.ts:386-397 | the path from the root lists the k-th parents, and there are none beyond the root |
| Hierarchy.Acyclic | src/enterprise/enterprise-service.ts:348-404 | a node is its own k-th parent only for k = 0 |
| Hierarchy.InsertKeepsClosure | src/enterprise/enterprise-service.ts:379-397 | after the closure inserts of one node, row (a, d, k) exists exactly when a is the k-th parent of d |
| Hierarchy.ClosureDepthIsUnique | src/enterprise/enterprise-service.ts:379-397 | a pair of nodes occurs in the closure with one depth only |
| Hierarchy.MaxDepthIsDistance | src/enterprise/enterprise-service.ts:414-418 | the MAX(depth) shown for a node is its distance from its root, and is attained there |
| Hierarchy.TakenExactlyWhen | src/enterprise/enterprise-service.ts:348-378 | a node row is taken exactly when codes, branches and warehouses stay unique |
| Hierarchy.ProvisionsExactlyWhen | src/enterprise/enterprise-service.ts:1760-1840 | what a branch from a template demands of the template, the tables and the parent |
| Hierarchy.Service.CreateNode | src/enterprise/enterprise-service.ts:339-406 | succeeds exactly when parent, branch, legal entity and brand exist, the node names what its kind demands, and id, code and branch are unused; the closure stays equal to reachability |
| Hierarchy.Service.ProvisionBranch | src/enterprise/enterprise-service.ts:1729-1904 | a used key gives back its branch node; else succeeds exactly for a usable template and new branch, existing references and an active, compatible parent; the closure stays equal to reachability |
| Policy.QueryIsPath | src/enterprise/enterprise-service.ts:727-755 | the closure-join query is answered by the walk down the path, and by nothing else |
| PolicyRules.ResolveIsOneStep | src/enterprise/enterprise-service.ts:756-797 | resolving a node is one fold step on from resolving its parent |
| PolicyMeaning.QueriedExactlyWhen | src/enterprise/enterprise-service.ts:727-755 | the rows a resolution reads: for an active policy, at each node on or above the target, the highest version that has started and not ended |
| PolicyRules.LockStability | src/enterprise/enterprise-service.ts:764-787 | a lock at a node fixes value, source, lock and range at every descendant, whatever is assigned at nodes not above it |
| PolicyRules.AcceptedMeansApplied | src/enterprise/enterprise-service.ts:634-661 | an accepted non-INHERIT assignment with an explicit start is the resolved source at its node and start if and only if the exception it needs has started |
| PolicyRules.AcceptedNotApplied | src/enterprise/enterprise-service.ts:634-661 | a two-node tree with an approval lock, an exception from 100 and an assignment from 10: accepted, and not what resolution reports |
| PolicyRules.TraceDetermines | src/enterprise/enterprise-service.ts:788-797 | the published trace, read against the assignment table, gives back the value, source, lock and range resolved |
| PolicyRules.EqualTracesResolveEqually | src/enterprise/enterprise-service.ts:3160-3172 | assignments being insert-only, equal traces at two moments mean equal resolutions, whatever else changed |
| PolicyRules.Service.ResolvePolicy | src/enterprise/enterprise-service.ts:714-816 | the loop over the query's rows computes the fold and its trace |
| PolicyMeaning.ResolutionComesFrom | src/enterprise/enterprise-service.ts:747-797 | value and source are those of the last applied assignment on the path, the range that of the last applied one that opens a range and absent exactly if there is none, and the lock is that of an applied LOCKED or NOT_APPLICABLE one |
| PolicyMeaning.OutcomeIsDecided | src/enterprise/enterprise-service.ts:756-797 | the published outcome of each assignment, from the outcomes above it: INHERIT is passed over, nothing passes a lock, a pending approval without an exception in force at its own node, or a bound of the range opened last, and every other one is applied |
| PolicyMeaning.AppliedBelowRangeIsWithin | src/enterprise/enterprise-service.ts:774-786 | every assignment applied below a range, until another is opened, is an integer within its bounds |
| PolicyRules.Service.AssignPolicy | src/enterprise/enterprise-service.ts:602-712 | rejects exactly what the checks reject and otherwise inserts one row with the next version and reports what resolution then gives |
| PolicyMeaning.AcceptedExactlyWhen | src/enterprise/enterprise-service.ts:602-645 | a request is accepted if and only if it can be stored and the policy as resolved at the parent is not locked, has no bound that the value breaks, and asks for no approval without an exception that is approved, for this policy and node, and not over when the assignment starts |
| PolicyMeaning.AcceptedBringsException | src/enterprise/enterprise-service.ts:3184-3199 | below a source that requires approval every accepted assignment names such an exception |
| PolicyMeaning.StoredIs | src/enterprise/enterprise-service.ts:646-690 | an accepted request is stored as asked, from its start or else the clock, under the number after the highest at its node |
| Rollout.PreviewIsOk | src/enterprise/enterprise-service.ts:1265-1304 | a preview digests its targets, records their traces and starts under the controls that RolloutSafety needs |
| Rollout.PreviewBlocks | src/enterprise/enterprise-service.ts:1273-1304 | a previewed item is BLOCKED exactly when its branch is locked at another number or the price breaks a bound in force, and the rollout starts FAILED exactly when all are |
| Rollout.RolloutSafety | src/enterprise/enterprise-service.ts:1368-1537 | for calls run one at a time: SUCCEEDED implies confirmation with the preview hash and, where required, another person's approval; SUCCEEDED never reverts; BLOCKED stays; COMPLETE exactly when every item SUCCEEDED |
| Rollout.AppliedPricesArePermitted | src/enterprise/enterprise-service.ts:1451-1465 | every item execution may apply has a price that is the number its branch is locked at, where it is locked at a value, and breaks no bound in force there, both as resolved at the watermark check |
| Rollout.OnlyAppliedPricesChange | src/enterprise/enterprise-service.ts:1479-1516 | a branch's price changes exactly where its item succeeds in this execution |
| Rollout.ExecutesExactlyWhen | src/enterprise/enterprise-service.ts:1420-1465 | execution goes ahead exactly for a confirmed, where required approved rollout in an open state whose branches are all there with unchanged traces |
| Rollout.ExecutionEnds | src/enterprise/enterprise-service.ts:1517-1537 | the rollout ends COMPLETE when all items have succeeded, PARTIAL when some have, else FAILED |
| Rollout.Rollouts.CreatePriceRollout | src/enterprise/enterprise-service.ts:1225-1366 | a used key gives back its rollout and changes nothing; otherwise succeeds exactly for a safe price, an item on the menu in the rollout's currency and a scope with branches; the new rollout is the preview, kept under the key |
| Rollout.PriceRollout.Confirm | src/enterprise/enterprise-service.ts:1368-1393 | only the hash of the previewed targets confirms; repeated confirmation changes nothing |
| Rollout.PriceRollout.Approve | src/enterprise/enterprise-service.ts:1395-1418 | only an approver other than the creator approves, and only where approval is required |
| Rollout.PriceRollout.Execute | src/enterprise/enterprise-service.ts:1420-1537 | refuses exactly as the checks say, and otherwise applies the pending and failed items and ends with the status that follows from them |
| Rollout.PriceRollout.ApplyItems | src/enterprise/enterprise-service.ts:1479-1516 | the loop applies or fails each pending or failed item, price and status together |
| GiftCards.StepKeepsBooked | src/crm/loyalty-value-service.ts:1542-1617 | every batch keeps the journal equal to what the ledger books, row by row |
| GiftCards.StepKeepsBounded | src/crm/loyalty-value-service.ts:1549-1552 | every batch keeps balances, refunds and the conservation of issued value |
| GiftCards.CardBounds | src/crm/loyalty-value-service.ts:1673-1681 | in every interleaving, an expiry planned on an old balance included, 0 ≤ balance ≤ issued value, and refunds of one redemption never exceed it |
| GiftCards.EveryRowIsBookedOnce | src/crm/loyalty-value-service.ts:2137-2205 | every ISSUE, REDEEM or REFUND row has exactly one posted, balanced journal of its value, an EXPIRY row none, and no other journal exists |
| GiftCards.LiabilityReconciles | src/crm/loyalty-value-service.ts:1379-1473 | the net credit of an account used only as a liability equals the balances of its cards plus all value expired on them |
| GiftCards.RedemptionReconciles | src/crm/loyalty-value-service.ts:1542-1748 | in every run the net credit of an account used only for redemption equals the value redeemed minus the value refunded on its cards |
| GiftCards.CollectionReconciles | src/crm/loyalty-value-service.ts:1379-1473 | in every run the net debit of an account used only for collection equals the value issued on its cards, which is what they were issued for |
| GiftCards.RedemptionMoves | src/crm/loyalty-value-service.ts:1542-1634 | a redemption takes its amount from its card alone, if the balance covers it and the key is new, and moves it from the liability to the redemption account; the card ends REDEEMED at balance zero |
| GiftCards.RefundMoves | src/crm/loyalty-value-service.ts:1659-1761 | a refund gives its amount back to its card alone, if that much of the redemption is left and the key is new, moves it back, and makes the card ACTIVE |
| GiftCards.IssueMoves | src/crm/loyalty-value-service.ts:1379-1473 | issuing adds one card with its value, moved from the collection to the liability account, under a new key |
| GiftCards.ExpiresExactlyWhen | src/crm/loyalty-value-service.ts:1801-1845 | which cards expire, and that they lose exactly their balance |
| GiftCards.GiftCardService.BookIfLedgerExists | src/crm/loyalty-value-service.ts:2137-2205 | the four guarded statements write the whole posted journal if the ledger row exists and nothing otherwise |
| GiftCards.GiftCardService.Issue | src/crm/loyalty-value-service.ts:1348-1476 | checks value, accounts and their currencies in the code's order; a new key issues an ACTIVE card with its booked value, a used key changes nothing |
| GiftCards.GiftCardService.Redeem | src/crm/loyalty-value-service.ts:1500-1635 | redeems only an ACTIVE unexpired card within its balance, and leaves it ACTIVE exactly when a balance is left; each refusal has its reason |
| GiftCards.GiftCardService.Refund | src/crm/loyalty-value-service.ts:1637-1762 | restores at most what is left of the redemption and makes the card ACTIVE again; each refusal has its reason |
| GiftCards.GiftCardService.ExpireStoredValue | src/crm/loyalty-value-service.ts:1801-1848 | all cards are read first and then expired one by one; afterwards every card past its expiry has no ACTIVE balance, unless its key of the day had been used before; counts the rows it wrote |
| Points.NeverOverdrawn | migrations/0011_crm_loyalty_customer_intelligence.sql:882-890 | where negative balances are off no balance is ever negative, in any interleaving; where they are on only a reversal, an adjustment or an expiry planned on a larger balance takes one below zero |
| Points.ExpiryNeverOverdraws | src/crm/loyalty-value-service.ts:835-837 | an expiry takes a positive amount that the balance covers, or nothing, unless negative balances are allowed and the balance shrank since it was read |
| Points.ExpiredWasDue | src/crm/loyalty-value-service.ts:813-829 | however reads and inserts interleave, total expired never exceeds the points whose expiry had passed at the latest run so far, as long as runs of one account that overlap are of the same day |
| Points.OverlappingDaysExpireTwice | src/crm/loyalty-value-service.ts:813-859 | a run in which two expiries of different days read before either inserts, and expire 20 points where 10 were due |
| Points.SecondRunAddsNothing | src/crm/loyalty-value-service.ts:810-861 | a second run over all accounts at the same time adds nothing |
| Points.ExpiryMoves | src/crm/loyalty-value-service.ts:813-859 | an expiry takes what was due and not yet expired when it read, up to the balance it read, once a day |
| Points.PartialRefunds | src/crm/loyalty-value-service.ts:774-806 | refunds with a common denominator asking for at most the whole never take back more than the earn; they take back all their floored shares if and only if none met too small a balance each time it was asked for, and then fall short of the exact share by less than one point each; interleaved with anything |
| Points.UnwrittenMeansRefused | migrations/0011_crm_loyalty_customer_intelligence.sql:882-890 | a refund has no reversal in the ledger if and only if every time it was asked for it came to nothing or the balance did not cover it |
| Points.RefundMayBeRefused | migrations/0011_crm_loyalty_customer_intelligence.sql:882-890 | earn 10, redeem 10, refund all: nothing is taken back and the bound of one point each is missed |
| Points.RowIs | src/crm/loyalty-value-service.ts:515-861 | the kind, account, source, expiry and key of the row each step writes |
| Points.RepeatedRefundAddsNothing | src/crm/loyalty-value-service.ts:777-806 | a refund repeated under its prefix and ratio adds nothing, even when the first one stopped half way; if it was stopped, so is the repetition |
| Points.RefundMoves | src/crm/loyalty-value-service.ts:774-806 | a refund takes the whole points of its part of the earning from the earning's account, once per prefix, where the programme allows or the balance covers it |
| Points.RefundReaches | src/crm/loyalty-value-service.ts:766-806 | a refund takes its share back for every earning of the order worth a point of it, up to the one it stops at, and for nothing else |
| Points.PointsService.Redeem | src/crm/loyalty-value-service.ts:551-622 | writes one row exactly when the balance covers the points and the key is new; a used key is a replay |
| Points.RedemptionMoves | src/crm/loyalty-value-service.ts:573-612 | a redemption takes its points from its account alone, once per key, if the balance covers them |
| Points.PointsService.Adjust | src/crm/loyalty-value-service.ts:624-745 | succeeds exactly for a replay of equal account, amount, branch, date and reason, or a new key within the balance rule |
| Points.AdjustmentMoves | src/crm/loyalty-value-service.ts:674-700 | an adjustment adds its points once per key, below zero only where the programme allows it |
| Points.OwnReplay | src/crm/loyalty-value-service.ts:657-694 | an adjustment that was written is its own replay if and only if its reason has no white space around it |
| Points.PointsService.ReverseTransactionPoints | src/crm/loyalty-value-service.ts:747-808 | an invalid ratio changes nothing; otherwise every earning of the order gives back its share once per prefix, until the first one the balance does not cover |
| Points.PointsService.ExpirePoints | src/crm/loyalty-value-service.ts:810-861 | all accounts are read first, then each is expired in turn; counts the rows it wrote |
| Vouchers.DiscountFits | src/crm/loyalty-value-service.ts:1116-1151 | an offered discount lies between zero and the order subtotal |
| Vouchers.OfferedExactlyWhen | src/crm/loyalty-value-service.ts:1064-1160 | an offer is made exactly for a voucher that exists, is ACTIVE, in time, in its places and channels, with its minimum, currency and customer, with uses left, and usable on the lines |
| Vouchers.DiscountIs | src/crm/loyalty-value-service.ts:1135-1151 | a fixed amount, whole minor units of a percentage in hundredths of a percent, all of the basis, or nothing, and never more than the order |
| Vouchers.CapsHold | src/crm/loyalty-value-service.ts:1189-1240 | in every interleaving of validate-then-redeem, CONFIRMED rows stay within usage_cap, per_customer_cap and one per issue |
| Vouchers.RedemptionIs | src/crm/loyalty-value-service.ts:1189-1240 | the insert writes the offer for the order exactly when confirmed rows leave room under the caps, the issue has none, and the key is new |
| Vouchers.ReversalIs | src/crm/loyalty-value-service.ts:1296-1325 | a reversal copies its redemption under a new key, at most once for each order of an issue |
| Vouchers.ReversalNeverReopens | src/crm/loyalty-value-service.ts:1200-1206 | a personal voucher once redeemed is never redeemed again, whatever is reversed or restored |
| Vouchers.RedemptionsAreFair | src/crm/loyalty-value-service.ts:1163-1264 | each CONFIRMED row stands for a validated order that covers its discount and minimum, of the right customer, for an unscoped voucher; each REVERSED row copies an earlier restorable one |
| Vouchers.GuardVersusValidation | src/crm/loyalty-value-service.ts:1987-1999 | an offer taken up at once is refused if and only if a cap is zero, the confirmed rows stand at a cap and one of them was reversed, or its personal voucher was redeemed and is not single use or had that redemption reversed |
| Vouchers.GuardWithoutReversals | src/crm/loyalty-value-service.ts:1987-1999 | with nothing reversed and no zero cap, an offer taken up at once fails exactly for a redeemed personal voucher that is not single use |
| Vouchers.MultiUseIsOfferedAndRefused | src/crm/loyalty-value-service.ts:1200-1206 | a run: a personal voucher that is not single use is redeemed, validates again, and its second insert writes nothing |
| Vouchers.ReversedValidatesAgain | src/crm/loyalty-value-service.ts:1277-1334 | a run: a single-use voucher is redeemed, reversed and restored, validates again, and its second insert writes nothing |
| Vouchers.VoucherService.RedeemVoucher | src/crm/loyalty-value-service.ts:1163-1275 | replays, rejects with the validation's error, conflicts exactly when the guard is closed, or writes the one row and its status |
| Vouchers.VoucherService.ReverseVoucherRedemption | src/crm/loyalty-value-service.ts:1277-1334 | reverses only a CONFIRMED, restorable row, at most once per key; conflicts exactly when its issue was already reversed for that order under another key |
| Stacking.StackingIgnoresOrder | src/crm/loyalty-value-service.ts:1850-1874 | the outcome is the same for every permutation of candidates with different ids |
| Stacking.StackingOutcome | src/crm/loyalty-value-service.ts:1859-1874 | the largest discount under BEST_ONLY, else the first BLOCK by priority, else all candidates ranked, none lost or doubled |
| Leads.CommitWritesOnlyFresh | src/crm/crm-lead-service.ts:386-429 | the update batch writes exactly when the row is still the one read; otherwise the whole batch writes nothing |
| Leads.AcceptedExactlyWhen | src/crm/crm-lead-service.ts:368-385 | a change is accepted exactly for the current version of a lead that is not closed, along the moves, with a reason where it closes the lead, or for something new where it stands |
| Leads.MovesAre | src/crm/crm-lead-service.ts:57-64 | the moves, listed |
| Leads.ChangeIs | src/crm/crm-lead-service.ts:386-415 | the columns of a row after an accepted change |
| Leads.LogTellsTheLead | src/crm/crm-lead-service.ts:353-459 | under interleaved clients version = number of events, events chain through allowed moves or stays under different keys, the row agrees with the last, and a creation key names one lead |
| Leads.LostRaceWritesNothing | src/crm/crm-lead-service.ts:386-456 | a lost race or a key the lead has already seen leaves the tables as they were |
| Leads.ClosedIsForever | src/crm/crm-lead-service.ts:57-64 | a WON or LOST lead never changes again, nor does its log |
| Leads.LogReplaysTheLead | src/crm/crm-lead-service.ts:98-106 | the log rebuilds every column of the lead, but the next action only if no client spelled the sentinel |
| Leads.ReplaysExactlyWhen | src/crm/crm-lead-service.ts:98-106 | for every lead: the log rebuilds it if and only if the latest update naming a next action did not spell the sentinel, or the lead was opened with the sentinel and nothing else was named since |
| Leads.SentinelDefeatsReplay | src/crm/crm-lead-service.ts:98-106 | a concrete run after which the log does not rebuild the lead |
| Leads.SamePayloadSameEffect | src/crm/crm-lead-service.ts:362-367 | two requests the replay check takes for the same have the same effect if and only if both or neither spell the sentinel, or the row's next action is the sentinel already |
| Leads.LeadService.Create | src/crm/crm-lead-service.ts:231-351 | opens one lead per key, replays an identical request, rejects a different one under a used key |
| Leads.LeadService.Update | src/crm/crm-lead-service.ts:353-459 | answers missing, repeated, conflicting, invalid and valid changes in the code's order, and writes row and event together |
| Quantity.RoundTrip | src/cookbook/scaling.ts:18-25 | reading back the printed form of any positive safe quantity gives it again |
| Quantity.TargetMeaning | src/cookbook/scaling.ts:31-38 | a text is read as q if and only if, trimmed, it is a decimal numeral of supported length whose value is q millionths, positive and safe |
| Quantity.ReprintKeepsValue | src/cookbook/scaling.ts:18-38 | an accepted text reprints to a text with the same value |
| Quantity.RoundedToNearest | src/inventory/quantity.ts:20-24 | the rounded quotient is the nearest integer, a half rounding up, and the only one |
| Quantity.ScalingIsAllOrNothing | src/cookbook/scaling.ts:40-86 | scaling succeeds exactly when base, target and every known quantity permit it; then each is the nearest in the ratio, else nothing is shown |
| Quantity.AnchorLands | src/cookbook/scaling.ts:52-79 | the quantity the request names lands exactly on the target |
| Quantity.OwnAmountChangesNothing | src/cookbook/scaling.ts:66-79 | scaling a recipe to its own printed amount returns every known quantity unchanged |

## Left out

- Permissions, branch authorisation, audit rows, journey and rollout events, contact masking and tokens.
- Templates, and the moves of a campaign row other than to ACTIVE.
- Earning rules (`calculatePoints`, `expiryFor`), tiers and loyalty programmes; an earning enters the ledger as one keyed insert, and whether a programme allows negative balances is fixed for a run.
- Approval policies stored with an assignment, policy version snapshots, branch rows and the contents of templates.
- Overlapping `executeRollout` calls: items are read before the claim, so only calls run one at a time are covered.
- Floating point in `reverseTransactionPoints` (points times numerator beyond 2^53) and in retry delays: the arithmetic is exact here.
- Consent.ConsentService.AppendConsent: leaves out the audit row of the batch; other appends between its read and its batch are covered by RacedConsentWins, not by this method.
- CampaignService.Service.ProcessCampaign: the configuration is fixed while this one method runs, and it runs to its end; the protocol lemmas let the configuration change and a call crash anywhere.
- CampaignService.Service.QueueCampaign: the audience rows are a parameter; building a missing audience from a segment snapshot is not modelled.
- PolicyRules.Service.AssignPolicy: the UPPER-casing of policy codes and ISO timestamp checks are left out, and the verdict of the value schema is an input.
- GiftCards.GiftCardService.ExpireStoredValue: this method runs alone between its reads and its inserts, so no insert fails for want of balance; the protocol lemmas (CardBounds) let other batches come in between.
- Points.PointsService.ExpirePoints: this method runs alone between its reads and its inserts; the protocol lemmas (NeverOverdrawn, ExpiredWasDue) let other calls come in between.
- The merging of customers; a merge counts one step, and eligibility takes the customer of the audience row as given.
- Lists, dashboards, exports, analytics and the scanning gateway.
