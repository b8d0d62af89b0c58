# A Dafny model of the OpenMeter provider

The provider reconciles Kubernetes billing objects (Offers, BillingEntitlements, BillingAccounts, MeterDefinitions,
Invoices) with a remote billing engine, OpenMeter, and submits usage to it. Its hard parts are a pricing compiler and a
handful of small protocols over remote state that must survive failed calls, crashes and retries. This project models
those parts and proves what they promise for every input, every run and every reachable state.

How the outside world appears:

- OpenMeter is explicit state (subscriptions, plan versions, features, meters, invoices, profiles), changed by the
  transitions the code relies on. Any call may be refused, or carried out with its answer lost; any pass may stop
  after any call.
- Clocks, Stripe's answers, HTTP answers and call durations are parameters.
- SHA-256, Unicode lowercasing, the JSON encoding of a feature, `big.Rat.SetString`, the recurrence library, RFC 3339
  formatting and the calendar are function parameters, restricted only by the laws written beside them. One result needs
  the plan hash to be injective: that the plan an Offer's sync publishes is the very plan it wanted.
- Quantities and money that OpenMeter rates are exact reals; amounts the provider itself computes are fractions,
  written as decimals.

`dafny verify dfyconfig.toml` checks the whole project.

## Layout

| files | part |
|---|---|
| `Keys`, `GroupBy` | key derivation, group-by keys and what a filter on one reads |
| `OfferMapping`, `OfferBuilder`, `OfferCompiler`, `OfferCards`, `OfferFeatures` | the offer compiler: accepted exactly when representable, what each card says, which feature it points at |
| `OfferSelection`, `OfferCharges`, `OfferExclusive`, `OfferEmitted`, `Pricing` | what the compiled filters select and what the emitted cards charge |
| `Subscriptions`, `EnsureSubscription`, `Contracts`, `ContractChanges` | subscription convergence, deferred contract amendments, and that the one carries out the other |
| `Spend`, `OfferSpend` | spend split at billing periods, and how it agrees with what an Offer's rules ask for |
| `Teardown`, `TeardownProgress`, `InvoicePreparation`, `FinalizerWaits` | account teardown: what no step breaks, and that it ends |
| `Submission`, `SubmissionBatch` | usage submission |
| `Plans`, `Catalog`, `CatalogRuns` | plan versions, features and meters, and runs over them |
| `ProfileWalk`, `ProfileSlips`, `Profiles` | the paged profile listing, what it misses, and the account's own profile |
| `PaymentTimeline`, `PaymentReports` | payment events of an invoice: none twice, and which attempts are reported |
| `Decimals`, `InvoicePreview` | decimal amounts and the first-invoice preview |
| `Common` | types and functions shared by the others |

## Findings

Each of these comes with the exact condition: the property holds if and only if it is met.

- A match on the dimension `""` is accepted and compiled to a filter that reads something else, and so is a match on a
  dimension whose group-by key is a reserved name (`customer-id` becomes `customer_id`). Filters select what the rules
  say if and only if neither happens (`OfferSelection.SelectionExactly`, `GroupBy.ReservedKeyExactly`).
- A feature key breaks OpenMeter's key rule if and only if a readable part sanitizes to nothing and is not cut away
  (`OfferFeatures.FeatureKeyExactly`).
- A deferred change comes early if and only if its boundary is not on a whole second, because the stored due date drops
  the fraction (`Contracts.EarlyExactly`). A change that missed its boundary by more than the tolerance is made at once,
  except within the tolerance of a later period start, when it is timed there (`Contracts.MadeByFirst`); the comment in
  the source mentions only the first case. A first wait whose annotation was never written changes nothing early, but
  once the tolerance after the boundary has passed it waits for the end of the period it is then in
  (`Contracts.UnrecordedWaitsAgain`).
- An amendment found in the middle of a period is made at once, against the comment that it waits, if and only if the
  last completed reconcile stored a due date that has passed (`Contracts.RushedExactly`). A change whose annotation
  write failed leaves one, and the next amendment is rushed (`Contracts.NextIsRushed`).
- An account moving onto a contract is documented to change its billing day on the start date. It does if and only if it
  changes plan as well: one that is on the contract's Offer already keeps its day for good, because only a plan change
  carries the new anchor (`Contracts.AnchorExactly`, `Contracts.KeepsOwnDay`).
- A sync reads the Invoice from a cache and its patches carry no lock. It can report a payment attempt or the issue of
  an invoice twice if and only if the last such report was made after what its cache shows
  (`PaymentTimeline.TwiceExactly`); up-to-date reads report everything once (`PaymentTimeline.ReportedOnce`).
- With up-to-date reads a payment attempt is reported if and only if the first sync to conclude about it finds it decided
  on an open invoice and gets to record it (`PaymentReports.ReportedExactly`). An attempt still processing concludes
  nothing, but an invoice whose status was projected before its Stripe invoice could be read is taken for one older than
  the reporting of attempts: those it has by then are counted and never reported
  (`PaymentReports.FirstFailureUnreported`).
- Two different features share a key if and only if their digests begin alike and their readable parts are the same
  once cut (`OfferFeatures.KeyIsDefinition`): that different definitions never share one, as the comment has it, rests
  on ten digits of the digest.
- One EnsureSubscription call suffices if and only if at most three steps are left, or four when the last is a change
  that waits (`EnsureSubscription.EnsureSubscription`).
- A walk over the billing profiles that ends without noticing anything misses a profile live throughout if and only if
  the profile slips: between two pages it moves from behind the boundary just read to before it
  (`ProfileSlips.WalkMissesExactlySlips`). It cannot slip when every gap only creates, or deletes more
  than it creates (`ProfileSlips.StableNeverSlips`); a delete and a create in one gap keep the count and hide the shift
  (`ProfileSlips.DeleteAndCreateGoUnnoticed`). A lookup that misses the account's own profile creates a second one, and
  only such a lookup does (`Profiles.Store.EnsureBillingProfile`).
- Once usage keys are released a later pass can still invoice lines if and only if a line was left that is billable or
  can become so (`Teardown.LateBillingExactly`).
- A fee's amount times its quantity is exact if and only if it needs no more places than follow the point in the text;
  an exponent or a fraction is rounded to the places it shows, so that `5e-1` is charged as `1`
  (`Decimals.ProductExactly`, `Decimals.ExponentIsRounded`). Plain decimals are always exact
  (`Decimals.MultiplyExact`).
- Against a server that keeps the anchored alignment, an invoice day above 31 would be rewritten on every reconcile;
  otherwise a second call writes nothing (`Profiles.WrittenConvergesExactly`). The field is documented as 1-28 and its
  only caller passes a constant (internal/controller/billingprofile_sync.go:92-108), so this is a property of the
  function and not of the program as it is used today.
- Spend is additive at every instant, not only at whole seconds (`Spend.CardSpendSplits`).

## Model

| member | source | states |
|---|---|---|
| `Keys.SanitizeKeyPart` | internal/controller/offer_mapping.go:571-586 | one pass with a pending separator yields the alphanumeric runs joined by single underscores, empty or a valid key |
| `Keys.SanitizeIsIdentityOnKeys` | internal/controller/offer_mapping.go:563-586 | a valid key is left as it is |
| `Keys.MeterSlug` | internal/openmeter/meter.go:165-192 | a valid key of at most 64 characters: the sanitized name itself when that is one, and otherwise one that carries the digest of this very name |
| `Keys.MeterSlugIdempotent` | internal/openmeter/meter.go:134-192 | the identity on valid keys of at most 64 characters, hence idempotent |
| `Keys.BoundedKey` | internal/controller/offer_mapping.go:550-561 | at most 64 characters, a valid key whenever the readable part is empty or one: the readable part, cut only when too long, and the digest of the identity |
| `OfferFeatures.FeatureKeyExactly` | internal/controller/offer_mapping.go:513-561 | a feature key is valid if and only if no readable part is empty or the empty part is cut away |
| `OfferFeatures.KeyIsDefinition` | internal/controller/offer_mapping.go:507-561 | the same definition always yields the same key; two share a key if and only if digest and cut text agree, so never when digests tell definitions apart |
| `OfferFeatures.RateOrderIrrelevant` | internal/controller/offer_mapping.go:235-330 | however the rates of a pricing are ordered, the same rate yields the same feature, filter values and key included |
| `GroupBy.GroupByKey` | internal/openmeter/meter.go:228-248 | always an identifier; unreserved identifiers are kept and reserved ones renamed; other names are rewritten character by character |
| `GroupBy.DimensionJSONPath` | internal/openmeter/meter.go:272-282 | exists exactly for identifiers and quotable names, and addresses that very dimension: an unquoted dot would lead into a nested member |
| `GroupBy.MeterGroupBy` | internal/openmeter/meter.go:290-313 | succeeds exactly when every name is usable and no two share a key, and then sends each key to its dimension's path; an error names a dimension that spoils the list |
| `GroupBy.ReservedKeyExactly` | internal/openmeter/meter.go:228-248 | which dimensions end up under a reserved key: the non-identifiers that rewrite into one |
| `GroupBy.KeyReadsDimension` | internal/openmeter/meter.go:284-313 | a filter on an unreserved key reads the dimension itself |
| `GroupBy.ReservedKeyMisreads` | internal/openmeter/meter.go:228-248 | for every value there is an event a filter on a reserved key reads wrongly |
| `OfferMapping.UsagePrice` | internal/controller/offer_mapping.go:361-395 | a rate has a price exactly when it sets one of flat and tiered and only the last band is open; the price is that flat amount, or one tier per band with its bound and amount |
| `OfferBuilder.ValidateRates` | internal/controller/offer_mapping.go:235-265 | accepts exactly the rates with one catch-all at most, one dimension and no value twice |
| `OfferBuilder.MappingBuilder.ClaimRateCardKey` | internal/controller/offer_mapping.go:185-192 | succeeds once per key |
| `OfferBuilder.MappingBuilder.AddFeature` | internal/controller/offer_mapping.go:194-203 | adds an unseen feature and its meter once, and changes nothing for a seen one |
| `OfferBuilder.MappingBuilder.AddRate` | internal/controller/offer_mapping.go:275-328 | one card per priced rate under a fresh key, keeping the builder the fold of what was added |
| `OfferBuilder.MappingBuilder.AddRates` | internal/controller/offer_mapping.go:275-330 | all cards of a pricing are added if and only if each is priced and no key clashes |
| `OfferBuilder.MappingBuilder.CheckUsage` | internal/controller/offer_mapping.go:217-277 | the checks pass exactly for a known, not yet priced metric with valid rates, dimension, conversion and discount |
| `OfferBuilder.MappingBuilder.AddUsage` | internal/controller/offer_mapping.go:217-330 | success condition, new state and error of a usage pricing |
| `OfferBuilder.MappingBuilder.AddFlatFee` | internal/controller/offer_mapping.go:423-475 | success condition and new state of a one-time or recurring fee; what its card says is `OfferCards.AcceptedBills` |
| `OfferCompiler.AddPricing` | internal/controller/offer_mapping.go:127-143 | a pricing is added exactly when it fits, its metric is unpriced and its keys are fresh |
| `OfferCompiler.AddAll` | internal/controller/offer_mapping.go:127-143 | the loop succeeds exactly when each pricing can follow those before it |
| `OfferCompiler.BuildOfferMapping` | internal/controller/offer_mapping.go:114-163 | succeeds if and only if every pricing fits, no metric is priced twice and no rate card key repeats; the mapping is then the image of the Offer's entries, and its cards, one for each rate and each fee in order, say what their pricings ask for |
| `OfferCards.AcceptedBills` | internal/controller/offer_mapping.go:114-505 | for every accepted Offer, card by card and from the pricing alone: monthly exactly for usage and recurring fees, the price of the rate or the amount times the quantity, discount, conversion, name, and the key of a fee |
| `OfferCompiler.FoldKeys` | internal/controller/offer_mapping.go:185-192 | claiming keys one by one detects exactly the repeats |
| `OfferCompiler.FoldIsImage` | internal/controller/offer_mapping.go:145-163 | cards, features, meters and links built step by step are those of the entries, in order |
| `OfferFeatures.SetFeatureIDs` | internal/controller/offer_mapping.go:86-102 | in place: succeeds exactly when every linked feature has an id, sets those ids and nothing else |
| `OfferFeatures.FeaturesInOrder` | internal/controller/offer_mapping.go:194-203 | usage cards and features correspond one to one, in order |
| `OfferFeatures.CardsPointAtOwnFeatures` | internal/controller/offer_mapping.go:86-102 | each usage card ends up at the feature of its own rate's filter, each fee at none |
| `OfferSelection.CardsExclusive` | internal/controller/offer_mapping.go:205-216 | no event is counted by two cards of a pricing |
| `OfferExclusive.OfferExclusive` | internal/controller/offer_mapping.go:127-216 | across a whole accepted Offer, of one pricing or of two, no event is counted by two cards |
| `OfferSelection.CardsCover` | internal/controller/offer_mapping.go:205-216 | an event is counted exactly when there is a catch-all or its value is matched |
| `OfferSelection.SelectionExactly` | internal/controller/offer_mapping.go:272-291 | filters select what the match rules say for all events if and only if no match names the empty dimension and the key is not reserved |
| `OfferCharges.StreamedIsAggregated` | internal/controller/offer_mapping.go:205-216 | rating events one by one, in any order, charges what rating each rule's total charges |
| `OfferCharges.PriceIsRate` | internal/controller/offer_mapping.go:354-395 | the card's unit or graduated price charges what walking the rate's bands charges |
| `OfferCharges.ChecksMeter` | internal/controller/offer_mapping.go:259-263 | the dimension check of an accepted pricing, together with a meter provisioned from its declared and system dimensions, gives a meter that groups by what the filters match |
| `OfferCharges.PricingBillsAgree` | internal/controller/offer_mapping.go:217-330 | the independently evaluated cards of a pricing bill what its rules ask for |
| `OfferCharges.MeaningPreserved` | internal/controller/offer_mapping.go:114-330 | the same for every accepted Offer and every sequence of events, conversion and discount included, given only that meters were provisioned with their declared dimensions and that the filters are well read |
| `OfferEmitted.EmittedMeaning` | internal/controller/offer_mapping.go:86-330 | from the Offer to the bill: once the features exist and the cards carry their ids, the emitted cards, each billing through the feature its id names, bill what the rules ask for |
| `OfferCharges.UsageConserved` | internal/controller/offer_mapping.go:205-216 | with a catch-all the cards' usage adds up to all usage |
| `Pricing.ChargeSplits` | internal/openmeter/pricing.go:193-259 | rating consecutive parts, each continuing from the last, charges what rating the whole charges |
| `Subscriptions.SortByStart` | internal/openmeter/subscription.go:181 | sorted by start and a permutation |
| `Subscriptions.NextSubscriptionStep` | internal/openmeter/subscription.go:164-220 | the decision the rules prescribe, with any choice among subscriptions that start together |
| `Subscriptions.DoneIffConverged` | internal/openmeter/subscription.go:143-220 | nothing is left to do exactly in the states the rules call converged |
| `Subscriptions.StepLeads` | internal/openmeter/subscription.go:281-367 | where each mutation leads, with one live subscription and distinct ids kept |
| `Subscriptions.StepProgress` | internal/openmeter/subscription.go:143-220 | every step lowers the measure and brings convergence exactly one step closer |
| `Subscriptions.StepsBounded` | internal/openmeter/subscription.go:143-163 | the measure bounds the steps; two suffice for a canceled subscription |
| `EnsureSubscription.Server.Apply` | internal/openmeter/subscription.go:281-367 | a step is carried out with a fresh subscription on the desired plan or newer, starting when the step says |
| `EnsureSubscription.Round` | internal/openmeter/subscription.go:253-275 | a round stops only when converged or waiting, and reports the live subscription, its successor and the version; otherwise it takes exactly one step, and what that starts starts now or where a deferred change is timed |
| `EnsureSubscription.EnsureSubscription` | internal/openmeter/subscription.go:229-279 | with any faults it never moves away; without faults it succeeds if and only if at most three steps are left, or four when the last one waits |
| `EnsureSubscription.RunsConverge` | internal/openmeter/subscription.go:143-279 | every run converges after exactly as many steps as were left, and not before |
| `EnsureSubscription.OneCallSuffices` | internal/openmeter/subscription.go:253-279 | four rounds suffice when current is canceled or at most two are scheduled |
| `EnsureSubscription.CancelSubscriptions` | internal/openmeter/subscription.go:449-510 | cut anywhere it keeps the state well formed; completed, nothing is live or scheduled; its order of calls is never refused |
| `Contracts.RecordContractState` | internal/controller/billingentitlement_controller.go:295-327 | sets or removes exactly the two annotations, and patches exactly when something differs |
| `Contracts.Entitlement.Reconcile` | internal/controller/billingentitlement_controller.go:212-284 | the contract part of a reconcile, cut anywhere, and the requeue it asks for; before the contract starts it changes nothing and comes back at the start |
| `Contracts.WaitDefers` | internal/controller/billingentitlement_controller.go:225-259 | a completed reconcile that waits stores the period's end as the due date |
| `Contracts.DueStoredExactlyWhileWaiting` | internal/controller/billingentitlement_controller.go:286-327 | after a completed reconcile the due date is stored exactly while a change waits |
| `Contracts.NeverEarly` | internal/openmeter/subscription.go:406-429 | whatever happens before a whole-second boundary, failures and further amendments included, changes nothing, whether or not the first wait was recorded |
| `Contracts.WaitHolds` | internal/controller/billingentitlement_controller.go:225-259 | a reconcile that decides to wait holds the change back even when its annotation write fails |
| `Contracts.UnrecordedWaitsAgain` | internal/openmeter/subscription.go:406-429 | without a recorded due date, a reconcile past the boundary times the change at the new period start if within the tolerance, and otherwise waits for the next end |
| `Contracts.DueAfterRun` | internal/controller/billingentitlement_controller.go:286-327 | in every run the stored due date is the one the last completed reconcile had to wait for |
| `Contracts.RushedExactly` | internal/controller/billingentitlement_controller.go:225-235 | after any run, an amendment found in the middle of a period is made at once if and only if a due date that has passed is left, and waits for the end of the period otherwise |
| `Contracts.NextIsRushed` | internal/controller/billingentitlement_controller.go:225-259 | a change made past its boundary without its annotation write makes the next amendment come at once |
| `Contracts.MadeByFirst` | internal/openmeter/subscription.go:406-429 | the first reconcile at or after the boundary that reaches the change step makes the change, and how it is timed |
| `Contracts.EarlyExactly` | internal/controller/billingentitlement_controller.go:228-235 | the change can come early if and only if the boundary is not on a whole second |
| `Contracts.RequeueAdvances` | internal/controller/billingentitlement_controller.go:261-271 | honoured requeues are half an hour apart or more until the boundary |
| `Contracts.RequeueLands` | internal/controller/billingentitlement_controller.go:261-290 | honoured within 85 seconds, the first reconcile past the boundary is within the 90-second tolerance |
| `Contracts.HonouredIsTimed` | internal/controller/billingentitlement_controller.go:261-290 | and then the change is timed exactly at the boundary |
| `Contracts.FirstMoveAtOnce` | internal/controller/billingentitlement_controller.go:225-259 | while a started contract is not recorded as such, every reconcile that reaches the change step leaves the account on the offered plan, active from now if it moved, whatever the period and due date; a completed one records the start |
| `Contracts.KeptUntilStart` | internal/controller/billingentitlement_controller.go:214-223 | in every run, nothing changes before the contract starts |
| `Contracts.StartedExactly` | internal/controller/billingentitlement_controller.go:295-327 | over every run the contract is recorded as started if and only if a reconcile has completed since it starts |
| `Contracts.FirstCompletedStarts` | internal/controller/billingentitlement_controller.go:212-327 | the first such reconcile of any run leaves the account on the contract's Offer and recorded as started, and every reconcile so far that reached the change step moved it at once |
| `Contracts.AnchorExactly` | internal/controller/billingentitlement_controller.go:114-118 | over every run the account bills on the contract's day if it was moved onto the contract from another plan, and keeps its own day otherwise; amendments never change the day |
| `Contracts.KeepsOwnDay` | internal/controller/billingentitlement_controller.go:224-234 | an account already on the contract's Offer when it starts keeps the billing day it had, whatever follows |
| `ContractChanges.CallIsChangeStep` | internal/openmeter/subscription.go:229-429 | a successful EnsureSubscription call does to a contract's account what the reconcile's decision says: the plan, the instant it is active from, and the wait that is reported |
| `ContractChanges.ChangeStep` | internal/controller/billingentitlement_controller.go:234-259 | the change step carried out against OpenMeter: whatever fails, the account is left as a reconcile cut there leaves it; without faults it succeeds |
| `Spend.SplitAtPeriods` | internal/registry/usagequery/spend.go:256-286 | the loop terminates and tiles exactly the second-truncated interval |
| `Spend.RangesTile` | internal/registry/usagequery/spend.go:229-286 | ranges are non-empty, ordered, adjacent, cover exactly the interval, and start no earlier than the usage they continue from |
| `Spend.CardRanges` | internal/registry/usagequery/spend.go:229-286 | which cards have ranges, which cadence is used and when it is an error |
| `Spend.RateSplits` | internal/registry/usagequery/spend.go:290-318 | rating with conversion and discount is additive when the second part continues from the first |
| `Spend.PriceRangeIsAmount` | internal/registry/usagequery/spend.go:290-318 | skipping the earlier usage when it cannot matter does not change the amount |
| `Spend.SpendFromSplits` | internal/registry/usagequery/spend.go:229-347 | spend of an interval is the spend of its two parts, wherever it is cut |
| `Spend.CardSpendSplits` | internal/registry/usagequery/spend.go:229-347 | the same for a card over its active time, for every instant |
| `Spend.WholePeriodSpend` | internal/registry/usagequery/spend.go:290-347 | over a whole billing period, the first and the last partial one included, it is the price of the usage in it while the subscription was active |
| `Spend.OnlyActiveUsageCounts` | internal/registry/usagequery/spend.go:256-318 | usage before the subscription, after it or after the query never counts, not even towards the tiers: points that agree while it is active cost the same in every query |
| `OfferSpend.CardSpendIsBill` | internal/registry/usagequery/spend.go:256-347 | a card's spend over a whole billing period is its bill for the events its feature counts in the active part of the period |
| `OfferSpend.SpendIsWhatRulesAsk` | internal/registry/usagequery/spend.go:168-347 | for every accepted Offer, well read and on provisioned meters: the spend of a whole billing period over all its usage cards is what the Offer's rules ask for, event by event |
| `Spend.SkippedSpendsNothing` | internal/registry/usagequery/spend.go:168-200 | a subscription that does not overlap the query adds nothing |
| `Spend.CustomerSpendIsBilled` | internal/registry/usagequery/spend.go:168-200 | every subscription that is not deleted and has a plan counts, and nothing else |
| `Spend.CustomerSpendSplits` | internal/registry/usagequery/spend.go:168-200 | a customer's spend is additive over all subscriptions and cards |
| `Spend.BucketsAddUp` | internal/registry/usagequery/spend.go:76-134 | any number of consecutive buckets add up to the whole query |
| `Teardown.CallKeeps` | internal/controller/billingaccount_controller.go:687-777 | every call keeps the invariant and is safe |
| `Teardown.BackgroundKeeps` | internal/controller/billingaccount_controller.go:654-686 | so does whatever OpenMeter does by itself between calls, without changing what is owed |
| `Teardown.StepKeeps` | internal/controller/billingaccount_controller.go:654-777 | every step of controller or OpenMeter keeps the invariant, and what is owed changes by the line that becomes billable in it, if any |
| `Teardown.EveryCallSafe` | internal/controller/billingaccount_controller.go:687-777 | in every run: lines are invoiced with no live subscription and, unless they became billable late, before keys are released; only zero-total drafts are deleted, the customer goes only when every invoice is final, override and profile only after the link finalizer |
| `Teardown.OwedConserved` | internal/openmeter/invoice.go:192-254 | once no subscription is live and no line can become billable, what is owed never changes |
| `Teardown.OwedAccounted` | internal/openmeter/invoice.go:192-254 | over any part of a run what is owed grows by exactly the lines that became billable in it |
| `Teardown.LateBillingExactly` | internal/controller/billingaccount_controller.go:654-777 | from a state with released keys a pass can still invoice lines if and only if a line is billable or can become so |
| `Teardown.ReachableSafe` | internal/controller/billingprofile_sync.go:205-241 | in every reachable state a missing link finalizer or profile means the customer is gone with nothing left to bill, and a missing profile finalizer that override and profile are gone too |
| `TeardownProgress.PassDeletesExactly` | internal/controller/billingaccount_controller.go:687-777 | a pass of the customer finalizer that is not interrupted deletes the customer if and only if nothing is live, billable or to become so and every invoice is closed |
| `TeardownProgress.EveryScheduleEnds` | internal/controller/billingaccount_controller.go:654-777 | once nothing blocks, every schedule of controller calls without crash or give-up ends within a bound linear in the invoices, with customer, override, profile and both finalizers gone |
| `TeardownProgress.FinishesAlone` | internal/controller/billingprofile_sync.go:205-241 | from every such state with the invariant the controller alone can finish |
| `TeardownProgress.NoDeadEnd` | internal/controller/billingaccount_controller.go:654-777 | from every reachable state, whatever crashed or failed before, there is a run to a state with everything gone |
| `InvoicePreparation.Ledger.InvoicePendingLines` | internal/openmeter/invoice.go:276-290 | billable lines move onto one draft of their sum; nothing billable changes nothing |
| `InvoicePreparation.Ledger.DropZeroDrafts` | internal/openmeter/invoice.go:225-233 | the loop touches exactly the zero-total drafts and changes nothing owed |
| `InvoicePreparation.Ledger.Prepare` | internal/openmeter/invoice.go:211-254 | reports exactly the invoices that block, and none if and only if all are closed and nothing is pending |
| `FinalizerWaits.CollectExactly` | internal/controller/billingaccount_controller.go:161-197 | the accumulating walk finds the waits among all leaves in order, and fails exactly when a leaf is a failure |
| `FinalizerWaits.FinalizerWaitRequeue` | internal/controller/billingaccount_controller.go:139-159 | yes if and only if there is a wait and no failing leaf; then the smallest positive interval, or the default |
| `FinalizerWaits.FailureAnywhere` | internal/controller/billingaccount_controller.go:98-111 | one failing member anywhere, at any depth, makes the walk answer no |
| `Submission.Classify` | internal/openmeter/errors.go:113-183 | which answers are success and which are transient |
| `Submission.Judge` | internal/openmeter/ingest.go:91-106 | exactly which answers accept, reject the event, are too large, or are to be retried |
| `Submission.NakDelay` | internal/submission/submission.go:570-576 | the loop computes the capped doubling and stays within 64 bits |
| `Submission.DelayDoubles` | internal/submission/submission.go:570-576 | the first retry waits for the base, each further one twice as long as the one before, up to the cap |
| `Submission.DelayMonotone` | internal/submission/submission.go:570-576 | the delay never shrinks |
| `Submission.DeliveriesOutlastRetention` | internal/submission/submission.go:82-94 | 5000 deliveries span more than 30 days |
| `Submission.Session.Settle` | internal/submission/submission.go:538-566 | only a pending message is settled: acked exactly when deserved, retried only with an excuse |
| `Submission.Session.Submit` | internal/openmeter/ingest.go:71-80 | a request carries attributed events of pending messages, gets the next answer, and leaves every earlier settlement right |
| `SubmissionBatch.Intake` | internal/submission/submission.go:431-456 | unusable messages are dropped, unattributed ones retried, and exactly the rest collected under their account's id |
| `SubmissionBatch.ExtendDeadlines` | internal/submission/submission.go:529-536 | every pending message, and no other, gets a fresh timer |
| `SubmissionBatch.SubmitOne` | internal/submission/submission.go:491-527 | one event is submitted and settled by its answer, or the rest is given up on; what was settled before stays |
| `SubmissionBatch.SubmitIndividually` | internal/submission/submission.go:491-527 | everything left is settled, one request per event until one fails for all |
| `SubmissionBatch.ProcessMessages` | internal/submission/submission.go:426-483 | whatever the answers, the requests follow the protocol, nothing stays pending, and each timer is reset when it should be |
| `SubmissionBatch.ProtocolDetermines` | internal/submission/submission.go:426-527 | messages, accounts and answers determine the requests: the whole batch, then one event at a time while the answers call for it |
| `SubmissionBatch.TimedIsUnbroken` | internal/submission/submission.go:162-173 | a message whose timer is reset before every further request is never left alone for longer than one fetch and one request |
| `SubmissionBatch.HandleBatch` | internal/submission/submission.go:162-198 | the requests are those the given answers call for; each message is settled once, acked if and only if it is unusable, was accepted or was rejected alone, retried with its delay and only for a reason; its timer runs from its arrival over every reset to its settlement with no stretch near the ack deadline |
| `Plans.OneCallKeeps` | internal/openmeter/plan.go:90-135 | every mutating call keeps one draft, the latest, and one active version at most |
| `Plans.CallsConverge` | internal/openmeter/plan.go:90-176 | cut anywhere, the calls still needed are known; after them the latest version is published with the desired hash |
| `Plans.PublishesExactly` | internal/openmeter/plan.go:101-176 | what a completed call leaves: the latest version active and on the plan, the one active until then archived, every other version as it was |
| `Plans.RetriesContinue` | internal/openmeter/plan.go:90-176 | a call continues where the one before was cut |
| `Plans.RetriesCreateOnce` | internal/openmeter/plan.go:90-176 | however often the same plan is retried it gets at most one new version, and none once published |
| `Plans.EveryRunOk` | internal/openmeter/plan.go:90-176 | over every run of different plans the versions keep their shape |
| `Catalog.Store.EnsureFeature` | internal/openmeter/feature.go:37-90 | a feature as desired, if and only if none under its key differs and one exists or can be created; nothing else changes |
| `Catalog.Store.EnsureFeatures` | internal/controller/offer_controller.go:165-172 | succeeds if and only if the wanted features fit what exists and each other and there is time to create the missing ones; exactly those are added |
| `Catalog.Store.EnsurePlan` | internal/openmeter/plan.go:101-176 | the versions after any cut, and success exactly when the needed calls were made |
| `Catalog.Store.DeletePlan` | internal/openmeter/plan.go:234-259 | only that version changes, by how much is known for any cut and refusal; every listed version stays backed by active features |
| `Catalog.Store.DeleteVersions` | internal/controller/offer_controller.go:322-342 | all versions are dealt with if and only if there is time for their calls; cut short, only statuses differ |
| `Catalog.Store.ReferencedFeatureIDs` | internal/openmeter/feature.go:230-242 | exactly what listed versions of any plan reference |
| `Catalog.Store.ArchiveFeaturesIfUnreferenced` | internal/openmeter/feature.go:248-265 | archives unreferenced candidates and nothing else; all of them if and only if nothing is refused and there is time, and the outcome says which was missing |
| `Catalog.Store.ArchiveUnreferencedMeterFeatures` | internal/openmeter/feature.go:275-285 | archives unreferenced features of that meter and nothing else; completed, the meter's active features are all referenced |
| `Catalog.Store.FinalizeMeter` | internal/controller/meterdefinition_controller.go:332-384 | released if and only if the meter is another owner's, or nothing references its features, none is refused and there is time; then, and only then, the meter goes |
| `Catalog.Store.SyncOffer` | internal/controller/offer_controller.go:150-180 | features before plan, no existing feature changed or archived; succeeds if and only if the meters exist, the features fit and there is time for all calls; then the wanted features exist and the published version carries their hash, which for an injective hash is exactly that plan over exactly those features |
| `Catalog.Store.DeleteOffer` | internal/controller/offer_controller.go:294-367 | released whenever there is time for its deletions and for the features due, and, when nothing is refused, only then; released, every version not refused is deleted; only features its versions referenced and nothing references any more are archived, all of them when nothing is refused |
| `CatalogRuns.RunAll` | internal/controller/offer_controller.go:287-367 | over every run of operations, each cut anywhere, the history goes from operation to operation as their contracts say, and at every point of it every referenced feature is active and its meter exists |
| `ProfileWalk.ScanPage` | internal/openmeter/billingprofile.go:289-296 | collects a page's matches in order, or stops at the first |
| `ProfileWalk.WalkBillingProfiles` | internal/openmeter/billingprofile.go:264-309 | the page loop is the walk; when every gap only creates, or deletes more than it creates, a stable walk returns every match live throughout, oldest first, or the oldest one; for every page size, reported or not |
| `ProfileWalk.NoShrinkIsPrefix` | internal/openmeter/billingprofile.go:241-250 | a count that did not shrink means nothing was deleted |
| `ProfileWalk.StableWalkCovers` | internal/openmeter/billingprofile.go:261-309 | the same from any page on, in order |
| `ProfileSlips.GapShifts` | internal/openmeter/billingprofile.go:241-250 | whatever is deleted and created between two pages, a profile that stays never moves back |
| `ProfileSlips.WalkMissesExactlySlips` | internal/openmeter/billingprofile.go:261-309 | for every page size and every history of deletes and creates, a finished walk returns a match live throughout if and only if it never slips |
| `ProfileSlips.StableNeverSlips` | internal/openmeter/billingprofile.go:241-250 | when every gap only creates, or deletes more than it creates, every profile there at the start of a finished walk is live throughout and never slips |
| `ProfileSlips.StableWalkReturns` | internal/openmeter/billingprofile.go:261-309 | hence every match it started with is returned |
| `ProfileSlips.DeleteAndCreateGoUnnoticed` | internal/openmeter/billingprofile.go:284-287 | a delete and a create between two pages go unnoticed, and a profile slips and is missed |
| `Profiles.WrittenConvergesExactly` | internal/openmeter/billingprofile.go:668-726 | a written profile needs another update exactly when the anchor is kept and the day is above 31 |
| `Profiles.SettledIsOnTerms` | internal/openmeter/billingprofile.go:635-850 | a profile that calls for no update is on the account's terms, and so is one just written; up to day 31 one on them, its days to pay written the same way, calls for none |
| `Profiles.ListBillingProfiles` | internal/openmeter/billingprofile.go:251-259 | at most three walks: an answer if and only if one finishes after walks that saw a deletion, and it is that walk's |
| `Profiles.FoundUnlessMissed` | internal/openmeter/billingprofile.go:321-327 | a finished lookup finds the account's only profile if and only if the walk did not miss it |
| `Profiles.Store.Choose` | internal/openmeter/billingprofile.go:182-206 | decides if and only if the annotation names the account's own profile or the lookup comes to an answer: that profile, or what the lookup finds; none exactly when the account's profile was overlooked |
| `Profiles.Store.EnsureBillingProfile` | internal/openmeter/billingprofile.go:167-228 | for any annotation, any listings and any cut: only the account's own profiles are written, a completed call leaves one on the account's terms (days to pay, collection method, invoice interval and day), anchored when written to a server that keeps anchors, and an account with at most one still has at most one if and only if the lookup did not overlook it |
| `Profiles.EnsureTwice` | internal/openmeter/billingprofile.go:148-228 | each call returns a profile if and only if it can decide; the second of two calls writes something if and only if it overlooks the profile of the first, whatever the annotations |
| `PaymentTimeline.AttemptEvent` | internal/controller/invoice_events.go:187-266 | an event exactly for a decided attempt on an open invoice beyond the stored count, which it raises; an undecided attempt leaves the count as it was |
| `PaymentTimeline.StatusEvents` | internal/controller/invoice_events.go:82-160 | exactly when the change of status calls for issued, paid, past due, voided, partly paid and currency mismatch; nothing for an unchanged status |
| `PaymentTimeline.EffectConsistent` | internal/controller/invoice_sync.go:430-478 | whatever fails, an up-to-date sync never lowers the stored count, raises it with every payment event, and repeats no log entry |
| `PaymentTimeline.Invoice.PatchStatus` | internal/controller/invoice_sync.go:430-478 | what is stored and recorded for every combination of failed writes and crashes, on a cache of any age |
| `PaymentTimeline.ReportedOnce` | internal/controller/invoice_sync.go:430-478 | over every run of up-to-date syncs no attempt count is reported twice and the invoice is reported issued at most once |
| `PaymentTimeline.TwiceExactly` | internal/controller/invoice_sync.go:319-345 | a sync on a stale cache can report something twice if and only if the last report of its kind was made after what the cache shows |
| `PaymentTimeline.SyncAll` | internal/controller/invoice_sync.go:430-478 | states and log are those of replaying the run; with up-to-date reads nothing is reported twice |
| `PaymentReports.ReportsAreDecisions` | internal/controller/invoice_events.go:187-266 | over every run of up-to-date syncs what is stored and what was reported follow from what the syncs found |
| `PaymentReports.ReportedExactly` | internal/controller/invoice_events.go:187-266 | an attempt is reported if and only if the first sync to conclude about it finds it decided on an open invoice and gets to record it, whatever undecided or failed syncs came before |
| `PaymentReports.FirstFailureUnreported` | internal/controller/invoice_events.go:202-211 | shown open while Stripe could not be read, an invoice never has its first failed payment reported |
| `Decimals.FormatParses` | internal/openmeter/fixedcharges.go:151-226 | a formatted decimal parses back to itself, scale included |
| `Decimals.MultiplyAmount` | internal/openmeter/fixedcharges.go:154-164 | for any notation big.Rat reads: fails exactly for an unreadable amount or a quantity below one, and is otherwise the product rounded to the amount's number of places |
| `Decimals.MultiplyExact` | internal/openmeter/fixedcharges.go:151-164 | on plain decimals the product is exact |
| `Decimals.ProductExactly` | internal/openmeter/fixedcharges.go:151-226 | the product is exact if and only if it needs no more places than the text shows |
| `Decimals.ExponentIsRounded` | internal/openmeter/fixedcharges.go:211-226 | one half written with an exponent is charged as one |
| `Decimals.ReadPlain` | internal/openmeter/fixedcharges.go:211-226 | a plain decimal keeps its value and its scale |
| `Decimals.RoundToInteger` | internal/openmeter/fixedcharges.go:136-147 | the nearest integer, ties away from zero |
| `Decimals.RoundingIsUnique` | internal/openmeter/fixedcharges.go:123-149 | which has a single answer |
| `Decimals.DiscountedAmount` | internal/openmeter/fixedcharges.go:128-149 | for any notation: the discounted amount rounded to whole cents, failing exactly for an unreadable amount or a percentage outside 0 to 100 |
| `Decimals.DiscountedPlain` | internal/openmeter/fixedcharges.go:123-149 | which on plain decimals depends on the decimal alone |
| `Decimals.AddDecimals` | internal/openmeter/fixedcharges.go:175-186 | for any notation: the sum rounded to the largest number of places shown, failing exactly when a text is unreadable |
| `Decimals.PlainSumExact` | internal/openmeter/fixedcharges.go:172-186 | on plain decimals the sum is exact |
| `InvoicePreview.FirstInvoiceLines` | internal/controller/invoicerequest_controller.go:230-266 | succeeds if and only if every fee can be charged; one line per fee, and the total is the exact sum of the lines |
| `InvoicePreview.PreviewMatchesPlan` | internal/controller/invoicerequest_controller.go:225-266 | for every accepted Offer, whatever the notation of its amounts, one line per flat-fee card, same order, name and monthly or not, within half a cent of the discounted amount |

## Left out

- EnsureSubscription.PeriodChangeTime: a plain decision with no contract of its own; what it means is stated by the Contracts lemmas.
- ContractChanges.ChangeStep: for an account with one active subscription and nothing scheduled; other states are those of EnsureSubscription alone.
- OfferMapping.CardFor: card descriptions and the label appended to a card's name are not part of the model.
- Profiles.DesiredWorkflow: everything copied unchanged from the default profile is one opaque value, as is the supplier fingerprint.
- Profiles.Store: the account's own profiles change only by its calls; the profiles of other accounts come and go in the listings that a lookup reads, and only there.
- PaymentTimeline.StatusEvents: the amounts written on events are left out.
- SubmissionBatch: an ack, a nak or a deadline extension that NATS does not take is only logged by the program and is taken to succeed here.
- Teardown: the finalizer is a state machine over its calls rather than a method, so that OpenMeter can act between them; InvoicePreparation models the invoice step imperatively, without interference. Force-delete is excluded, an account being deleted gets no new subscription, and invoice totals do not change.
- EnsureSubscription.Server: periods and the version published meanwhile are constant during one call; the v3 change call differs only in metadata, which is left out, and in anchors, which Contracts models and the server does not.
- Contracts: OpenMeter's clock equals the provider's, and a reconcile reads the annotations as last written, not from a cache that is behind; only the contract part of an entitlement's reconcile is modelled, from the Offer and account it has read on.
- Catalog: operations run one after the other; an archive that races with a plan creation of another process is not covered.
- Spend: concurrency, caching of plans and float formatting of the result; usage is a sum over points, so only Sum meters are covered.
- HTTP and JSON plumbing, problem bodies, Retry-After parsing, NATS connection handling, logging, metrics and Kubernetes watches.
- Customers, Stripe customers and payment methods, meters' immutable fields, usage queries and their scopes: field comparisons and filters that would only add easy members.
