# PowerMeter V2 server: models and proofs

PowerMeter V2 meters homes, prices every finalized energy interval under the account's published rate, raises debounced
alerts, keeps tamper-resistant evidence of what devices reported, and shows history. This project models the parts of its
server whose correctness spans loops, state or concurrency, and proves what they promise for all inputs, all runs and all
interleavings.

| module | part of the server |
|---|---|
| `LargestRemainder` | integer microdollars split over energy weights |
| `CostScan` | the pending-cost scan and its durable cursor |
| `BillingScopes`, `ScopeLaws`, `RateResolution` | the two scope resolvers, what they resolve, and the rate lookup built on one of them |
| `CostWorker`, `Selections` | the pricing loop and the selection table |
| `CostCycles` | repeated worker cycles: scan, price, move the cursor |
| `PeriodResolution`, `TierLaws`, `TierSpans` | which price period applies, what that means, and the publication check of a schedule |
| `CostEngine`, `SliceTimes`, `Microdollars` | cutting an interval into buckets and slices, and rounding it to microdollars |
| `PricingLaws`, `PublishedPricing`, `PricingExamples` | what the engine promises, and which intervals a published rate refuses |
| `DraftSchedules` | accepted rate drafts in front of the engine |
| `EnginePricing`, `CycleCosts`, `BaselineCredit` | the worker with its own engine, for one group and for a whole cycle |
| `TierPosition`, `BillingCycle` | where an interval sits in its cycle, and what a cycle is |
| `AlertDebouncer` | the alert state machine of one scope |
| `GuardedStore`, `EvidenceGuards`, `RateAssignments` | trigger-guarded tables under concurrent transactions |
| `ReviewLifecycle` | the review lifecycle, guarded by the ORM and by the database |
| `RateSchedule` | the rate-draft validator and its finite sampling test |
| `SeccompFilter` | the filter generator as a compiler to classic BPF |
| `CanonicalRequest`, `QueryLaws`, `Utf8`, `NonceStore` | what devices sign, and replay protection |
| `HistoryView`, `HistoryLaws` | bucketing, totals and missing ranges, and what they report |
| `Outcomes`, `Sums`, `Sorting` | shared definitions |

Energies are integer mWh, money is integer microdollars, instants are integers, decimals are `real`, identities are
integers. The engine's positions and tier bounds are in mWh, so a price per kWh is a price in microdollars per mWh.
Code that mutates is a class or a loop proved against a specification function; code made of expressions is functions
and lemmas.

## What is established

- **Cost worker.** The selections after any sequence of batches depend only on the set of intervals scanned
  (`CostWorker.Confluence`); groups are never half selected, nothing is selected twice, and each group's quote is
  conserved to the microdollar. A shared interval is selected with an interval of every member, or waits
  (`CostWorker.SelectedGroupsAreComplete`, `CostWorker.CompleteGroupsAreSelected`). With a retained cursor, ceil(n /
  limit) cycles leave exactly what pricing all n pending intervals at once would leave
  (`CostCycles.CyclesPriceEverything`, `CostCycles.RunCycles`).
- **Pricing engine.** Where the price depends on neither the instant within a bucket nor the position within a tier, as in
  published schedules and dated prices, slicing an interval costs exactly what pricing each mWh at its own tier costs. It
  is refused exactly when one of those is, or when a first bucket without energy does not resolve
  (`PricingLaws.SlicingIsMarginal`). Energy and baseline credit are conserved, the total is rounded once, half to even,
  and is never negative (`PricingLaws.QuoteIsRoundedOnce`). So a priced group's members are charged together exactly
  that, from the position its own members' intervals give it (`EnginePricing.GroupIsChargedExactly`), and adjacent groups
  of a cycle add up to one unit-by-unit cost (`CycleCosts.CycleCostsAddUp`) and draw the baseline allocation once
  (`BaselineCredit.AllocationIsDrawnOnce`). Costs are stated from prices, adjustment and surcharge alone in
  `PricingLaws.BillMeaning`, resolution from columns alone in `TierLaws.ResolvedMeans` and `TierLaws.MostSpecificResolves`.
- **Publication.** The finite checks of tiers, minutes and days decide that every position on every kind of day has
  exactly one tier (`PeriodResolution.ValidateSchedule`). A schedule that passed them, on calendars that classify instants
  into its seasons and days, resolves that tier wherever its bounds resolve (`PublishedPricing.PublicationSuffices`,
  `PeriodResolution.PublishedScheduleResolves`).
- **Alerts.** For every history, one alert is unresolved if and only if the current streak of active observations
  contains one that met its debounce age and key-change count outside maintenance.
- **Evidence and assignments.** In every interleaving of transactions the invariants the preflight establishes survive;
  the parent row lock is what makes this true, and without a shared parent two conflicting rows commit side by side.
- **Validator.** Its finite samples decide a claim about all non-negative real usages.
- **Sandbox, protocol, history.** The filter decides every system call as promised; the canonical query is a normal form
  with an exact equality criterion; missing ranges are the exact complement of the intervals; buckets conserve energy
  and cost.

Where a promise turned out not to hold of the code, the exact condition under which it does is proved:

- The two scope resolvers agree if and only if no empty designated home total stands beside devices of the full-account
  scope that would combine (`BillingScopes.ResolversAgreeExactly`, `BillingScopes.DisagreementExample`).
- A published schedule prices an interval of its version except, exactly, when some mWh of it is refused or its first
  minute gets no energy and that is refused (`PublishedPricing.PublishedRatePrices`). A mWh is refused when its instant is
  not classified, when an account tier in time has no threshold for its season, or when its tier ends inside it; no energy
  is refused in the same cases and at an inclusive tier end. Each kind has an input: a minute without energy at the bound
  (`PricingExamples.EmptyMinuteAtTheBoundIsRefused`), a daily allowance with eight decimals, whose threshold falls inside
  a mWh (`PricingExamples.FractionalThresholdIsRefused`), and an interval that reaches from the threshold's season into
  the next (`PricingExamples.SeasonChangeIsRefused`). For account tiers the condition is on threshold, position and energy
  alone (`PublishedPricing.AccountRatePrices`).
- The draft check promises the schedule that the engine will resolve, and a bill import publishes drafts on its word. For
  new energy the engine resolves the draft check's winner if and only if no higher-ranked period ends at that usage
  (`DraftSchedules.DraftResolvesExactly`, `DraftSchedules.SteppedDraftIsMissed`), and a slice may run past the start of a
  more specific tier (`DraftSchedules.OverlaidDraftIsNotSplit`, `DraftSchedules.WinnerStaysExactly`).
- No accepted message is accepted again if and only if the nonce is inserted at the very second boundary its timestamp
  was checked against: 600 seconds of retention are exactly two 300-second windows and leave nothing for the time between
  check and insertion (`NonceStore.SafeExactlyOnWholeSeconds`, `NonceStore.ReplaySucceeds`).
- The database trigger lets the tier rule change on publication, activation and rejection, the ORM listener does not;
  otherwise the two are the same (`ReviewLifecycle.ListenerIsTriggerPlusTierRule`).
- An aggregate reports its totals exactly when every device measured, in the rows that start in each bucket, for as long
  as the bucket is visible (`HistoryLaws.AggregateReportsMeasured`). That is exactly when nothing is missing where rows
  of a device do not overlap and none crosses a bucket bound (`HistoryLaws.AggregateReportsExactly`,
  `HistoryLaws.NothingMissing`); elsewhere it can differ either way (`HistoryLaws.CrossingRowHidesTotals`,
  `HistoryLaws.OverlapCountsTwice`).
- Without a cursor directory an interval is never scanned if and only if every cycle that finds it pending also finds at
  least limit smaller ones (`CostScan.StarvesExactly`, `CostScan.WithoutCursorStarves`).

Signed texts are joined by line breaks, so bytes determine the request exactly when timestamp and nonce hold none and no
further line of the method is a canonical path (`CanonicalRequest.UnambiguousExactly`). HTTP methods and header values
carry no line break, so every request the server receives is unambiguous.

The draft validator's midpoints and its point past the last boundary never change its answer
(`RateSchedule.ExtraSamplesAreRedundant`).

## Model

| member | source | states |
|---|---|---|
| LargestRemainder.AllocateIntegerTotal | worker/app/jobs.py:639-653 | refuses exactly negative totals and weights; otherwise the in-place increments yield the specified shares |
| LargestRemainder.SharesConserveTotal | worker/app/jobs.py:639-653 | for non-empty weights the shares are non-negative and sum exactly to the total, also when all weights are zero |
| LargestRemainder.SharesAreLargestRemainder | worker/app/jobs.py:647-652 | the shares satisfy the largest-remainder definition: right sum, whole quota or one more, extra units by rank |
| LargestRemainder.LargestRemainderIsUnique | worker/app/jobs.py:647-652 | the largest-remainder definition has exactly one solution, the computed shares |
| LargestRemainder.WholeQuotasAreExact | worker/app/jobs.py:647-652 | a position whose quota is whole gets exactly its quota, so no leftover unit reaches a zero remainder |
| LargestRemainder.SharesAreFloorOrCeiling | worker/app/jobs.py:647-652 | each share is less than one unit away from its exact quota, on either side |
| LargestRemainder.ZeroWeightGetsNothing | worker/app/jobs.py:647-652 | a zero weight receives zero when some weight is positive |
| LargestRemainder.LargerWeightGetsNoLess | worker/app/jobs.py:647-652 | a strictly larger weight never receives a smaller share |
| LargestRemainder.EarlierOfEqualsGetsNoLess | worker/app/jobs.py:649-652 | of two equal weights the earlier never receives less |
| LargestRemainder.LeftoverBounds | worker/app/jobs.py:649-651 | the units left after the floors are at least zero and fewer than the positions, and are the sum of the remainders over the weight sum |
| CostScan.PendingScan.Scan | worker/app/jobs.py:663-720 | a scan returns the first min(limit, n) keys of the pending list rotated past the cursor and moves the cursor to the last of them; nothing happens for a limit of zero or less |
| CostScan.QueriesAreScanned | worker/app/jobs.py:690-713 | the after-cursor query topped up by the through-cursor query is that prefix of the rotation |
| CostScan.ScanIsSoonestPrefix | worker/app/jobs.py:668-713 | each scan has length min(limit, n), has no duplicates, and every scanned key precedes every unscanned one in cyclic order |
| CostScan.MissBringsCloser | worker/app/jobs.py:685-720 | a scan that misses a key brings the cursor at least limit keys closer to it, even if others left the list meanwhile |
| CostScan.NoStarvation | worker/app/jobs.py:668-720 | without arrivals, a key that stays pending is scanned within ceil(n / limit) cycles from any cursor |
| CostScan.ScannedFromTheFront | worker/app/jobs.py:685-689 | a scan without cursor takes exactly the pending keys that have fewer than limit smaller pending ones |
| CostScan.StarvesExactly | worker/app/jobs.py:685-689 | over any pending lists, a key is never scanned without a cursor if and only if each list that holds it also holds at least limit smaller keys |
| CostScan.WithoutCursorStarves | worker/app/jobs.py:685-689 | an example: at limit one the second of two unpriceable intervals is not scanned from the front, and is next with a cursor |
| BillingScopes.BillingGroupsAreDisjoint | worker/app/jobs.py:418-487 | no device is billed in two groups |
| BillingScopes.GroupsAreLonersAndAggregate | worker/app/jobs.py:418-487 | the groups are singletons for the devices billed alone, then at most one aggregate |
| BillingScopes.ResolversAgreeExactly | worker/app/jobs.py:341-487 | for every device of the home in a billing group interval pricing resolves that same scope and member list, if and only if no empty home total shadows combinable devices |
| BillingScopes.DisagreementExample | worker/app/jobs.py:341-487 | a home where the estimate is on the full account and the interval is priced alone |
| BillingScopes.UnbilledDevices | worker/app/jobs.py:418-487 | an active device is in no billing group exactly when it carries the account's scope, no home total applies and the scope's devices cannot be combined |
| BillingScopes.PricingScopesAreCoherent | worker/app/jobs.py:341-415 | every member of a shared pricing scope resolves that same scope |
| ScopeLaws.HomeTotalMembers | worker/app/jobs.py:343-369 | under a full account whose home has one confirmed, verified home total as billing source, exactly its included devices are priced together, in ascending order, and any other device alone |
| ScopeLaws.ScopedMembers | worker/app/jobs.py:370-415 | without one, a device of another scope is priced alone, the only device of the scope on the account, several together if and only if all hang on one verified sum; otherwise alone under a full account and not at all under an allocated one |
| RateResolution.LookupIsCoherent | worker/app/jobs.py:236-415 | every member of a shared scope looks up the same rate, scope and members for the same times |
| RateResolution.LookupIsUnambiguous | worker/app/jobs.py:239-264 | over the assignment table after any interleaving, no assignment is found exactly when none spans the interval |
| RateResolution.AssignmentMeans | worker/app/jobs.py:239-264 | an interval is priced at a rate if and only if it is well-formed and that of the only published assignment of the account which covers all its instants |
| RateResolution.ResolutionMeans | worker/app/jobs.py:236-415 | an interval resolves the rate of its account's assignment with the scope and members of its device, nothing without account, assignment or group, and an error for malformed evidence |
| RateResolution.UnknownDevice | worker/app/jobs.py:239-264 | an interval of an unknown device resolves nothing |
| RateResolution.WorldIsWellFormed | worker/app/jobs.py:236-415 | so the worker's own lookup meets the hypothesis of confluence |
| RateResolution.SchedulesAgree | worker/app/jobs.py:721-842 | two schedules of batches that scan the same intervals leave the same selections |
| CostWorker.Worker.SelectGroup | worker/app/jobs.py:814-838 | selecting a group member by member adds exactly the group's charges |
| CostWorker.Worker.PriceInterval | worker/app/jobs.py:724-838 | handling one more interval turns the settled table of the scanned set into that of the set with it, whatever branch it takes |
| CostWorker.Worker.PriceBatch | worker/app/jobs.py:721-842 | a batch never raises, leaves exactly the settled table of its set of rows, and counts what it created |
| CostWorker.SettledMeaning | worker/app/jobs.py:721-842 | selected afterwards means selected before, or in a scanned, complete, wholly unselected, quoted group, at the share of that group's quote; earlier selections are untouched |
| CostWorker.SelectedGroupsAreComplete | worker/app/jobs.py:740-777 | when a batch selects a row whose scope has several members, every member has a finalized, current, measured row over the same time, and all of these are selected |
| CostWorker.IncompleteGroupsWait | worker/app/jobs.py:763-764 | a row of a shared scope one of whose members has no such row is never selected by a batch |
| CostWorker.CompleteGroupsAreSelected | worker/app/jobs.py:740-838 | a scanned interval whose members all have an unselected standing interval beside it, and whose measured energy is quoted, is selected with all of them |
| CostWorker.LoneIntervals | worker/app/jobs.py:724-838 | a scanned interval priced on its own is selected if and only if it was before or its own energy is quoted |
| CostWorker.SettledInTwoSteps | worker/app/jobs.py:721-842 | settling one scanned set after another is settling their union |
| CostWorker.Confluence | worker/app/jobs.py:721-842 | over any sequence of batches the selections equal settling everything scanned at once |
| CostWorker.GroupsStayWhole | worker/app/jobs.py:763-777 | if no shared group is half selected before, none is after |
| CostWorker.GroupQuoteIsConserved | worker/app/jobs.py:814-838 | the member costs and credits of a priced group sum exactly to the group's quote |
| CostWorker.ChargesAreProportional | worker/app/jobs.py:814-838 | a member is charged less than one microdollar away from the part of the group quote that its measured energy is of the group energy, whenever some energy was measured |
| CostWorker.TouchedMeansGained | worker/app/jobs.py:767-777 | a fresh group of which any member became selected has been selected as a whole |
| CostCycles.CalculatePendingCosts | worker/app/jobs.py:656-842 | one call settles exactly the rows of its scan, moves the cursor to the last of them if one is kept, and counts the new selections |
| CostCycles.RunCycles | worker/app/jobs.py:1892-1896 | n calls with a kept cursor make n steps of the cycle specification, and price the whole backlog once n times limit covers it |
| CostCycles.PendingMeans | worker/app/jobs.py:668-684 | a row's key is in the pending list exactly when the row is eligible and unselected |
| CostCycles.OldestFirst | worker/app/jobs.py:668-713 | a scan takes finalized, current, measured, unselected rows by start time and identity, first those past the cursor and then from the oldest on |
| CostCycles.CyclesSettle | worker/app/jobs.py:656-842 | after n cycles the selections are those of settling everything the cycles scanned |
| CostCycles.SeenOrSelected | worker/app/jobs.py:668-720 | after ceil(n / limit) cycles each initially pending interval has been scanned or was selected with its group |
| CostCycles.CyclesPriceEverything | worker/app/jobs.py:656-842 | after ceil(n / limit) cycles the selections equal those of pricing all n pending intervals at once |
| PeriodResolution.LevelIsLexicographic | backend/app/services/cost_engine.py:555-573 | the specificity number orders periods as the pair of season match and day priority does |
| PeriodResolution.ResolvePricePeriod | backend/app/services/cost_engine.py:506-586 | the candidate loop resolves the specified tier, or fails for unresolved bounds, calendars, gaps and ambiguities |
| PeriodResolution.EndMeetsStart | backend/app/services/cost_engine.py:574-582 | on an axis of tiers, where one tier ends the owner of the position starts and no other tier ends |
| PeriodResolution.PickOnAxis | backend/app/services/cost_engine.py:574-586 | among the admitted tiers of an axis new energy gets the owner, and no energy gets the tier that ends there inclusively, if there is one |
| PeriodResolution.ResolvesTheOwner | backend/app/services/cost_engine.py:506-586 | where the leading tiers form an axis the engine resolves for new energy exactly the tier that owns the position |
| TierLaws.ResolvedMeans | backend/app/services/cost_engine.py:537-586 | a resolved tier is of a period that runs at the moment and whose bounds hold the position; any other such period is less specific, by season first and then by the order of day types, or shares the position as its inclusive bound |
| TierLaws.MostSpecificResolves | backend/app/services/cost_engine.py:537-586 | a running period that holds the position and is more specific than all others that do is the one resolved |
| TierLaws.AccountBounds | backend/app/services/cost_engine.py:466-480 | the first account tier ends at the account's threshold and the next starts there; both resolve exactly with a threshold of their season |
| TierLaws.StoredBounds | backend/app/services/cost_engine.py:481-493 | any other bound is the stored one, or the daily threshold times the days of the cycle where it is the bound that threshold was derived from |
| PeriodResolution.SteadyWithinTier | backend/app/services/cost_engine.py:506-586 | within a tier the resolution for new energy does not change |
| PeriodResolution.ValidateTierAxis | backend/app/services/rate_workflow.py:1148-1178 | accepts exactly when every non-negative real position lies in one tier, by testing one point between any two bounds and one beyond |
| PeriodResolution.MiddlesDecide | backend/app/services/rate_workflow.py:1151-1178 | the sampled points decide every position |
| PeriodResolution.ValidateOneDay | backend/app/services/rate_workflow.py:1181-1218 | accepts exactly when the most specific periods form an axis at every minute of the day, by testing one minute between any two period bounds |
| PeriodResolution.StretchesDecide | backend/app/services/rate_workflow.py:1189-1218 | the sampled minutes decide every minute |
| PeriodResolution.UnresolvedExactly | backend/app/services/cost_engine.py:468-474 | the bounds at a moment are unresolved exactly when an account tier in time has no threshold or a season other than the threshold's |
| PeriodResolution.MovedAxis | backend/app/services/cost_engine.py:475-492 | replacing bounds without changing their order keeps an axis |
| PeriodResolution.ValidateSeason | backend/app/services/rate_workflow.py:1228-1237 | accepts exactly when every day-type priority of the season passes |
| PeriodResolution.ValidateSchedule | backend/app/services/rate_workflow.py:1221-1237 | accepts exactly when all listed seasons pass on every regular, holiday, event and non-event day |
| PeriodResolution.EffectiveAxis | backend/app/services/cost_engine.py:465-492 | where the stored bounds of the leading periods form an axis, the bounds in effect do, for account thresholds in any season and for rate-level daily thresholds that stay between their neighbours |
| PeriodResolution.PublishedScheduleResolves | backend/app/services/cost_engine.py:506-586 | a schedule that passed publication resolves one period at a validated moment exactly when its bounds resolve there, and for new energy the tier that covers the position |
| TierSpans.Boundaries | backend/app/schemas/billing.py:222-227 | the ordered thresholds are zero and exactly the tier starts and ends |
| TierSpans.BoundaryBelow | backend/app/schemas/billing.py:222-231 | the last boundary at or below a usage lies in the same tiers as the usage |
| Microdollars.AllocateMicrodollars | backend/app/services/cost_engine.py:663-678 | refuses exactly negative amounts; otherwise the in-place increments yield the specified parts |
| Microdollars.RoundedConserves | backend/app/services/cost_engine.py:668-678 | the parts sum to the exact total rounded once, half to even |
| Microdollars.RoundedParts | backend/app/services/cost_engine.py:668-678 | each part is its amount rounded down or up, and a whole amount is kept |
| Microdollars.HalfEvenMeans | backend/app/services/cost_engine.py:668-678 | an integer is the rounding of an amount if and only if it is nearer than half a unit, or half a unit away and even |
| Microdollars.LargerFractionFirst | backend/app/services/cost_engine.py:668-678 | an amount rounded up never has a smaller fraction than one rounded down, and of equal fractions the earlier is rounded up first |
| Microdollars.RoundedIsNonNegative | backend/app/services/cost_engine.py:666-678 | non-negative amounts give non-negative parts and total |
| Microdollars.RemainingBounds | backend/app/services/cost_engine.py:668-676 | the units left after the floors are never negative and never more than the amounts with a fraction |
| CostEngine.BoundsAscend | backend/app/services/cost_engine.py:615-639 | the bounds of buckets are strictly ascending from start to end |
| CostEngine.AllocateIntegerEnergy | backend/app/services/cost_engine.py:647-660 | fails exactly for a total duration that is not positive; otherwise the loop yields the specified shares |
| CostEngine.BucketsConserveEnergy | backend/app/services/cost_engine.py:647-660 | for every interval the bucket energies are non-negative and sum to the energy |
| CostEngine.EnergyFollowsDuration | backend/app/services/cost_engine.py:647-660 | every bucket but the last gets the part of the energy that its duration is of the interval, rounded down |
| CostEngine.SliceOneBucket | backend/app/services/cost_engine.py:710-754 | the inner loop slices a bucket as specified and terminates |
| CostEngine.SliceInterval | backend/app/services/cost_engine.py:710-754 | the outer loop slices all buckets as specified |
| CostEngine.PriceSensorInterval | backend/app/services/cost_engine.py:681-772 | the whole computation, with each of its refusals, yields the specified bill |
| CostEngine.SliceEndsInProportion | backend/app/services/cost_engine.py:729-735 | a slice that leaves energy over ends inside its bucket, in proportion to the energy consumed, clamped by one unit of time on either side |
| SliceTimes.BucketIsCovered | backend/app/services/cost_engine.py:710-759 | the slices of a bucket with energy follow one another without gap from its start to its end |
| SliceTimes.SlicesFollowTime | backend/app/services/cost_engine.py:700-767 | the slices of a bill lie in its interval in order of time, and cover it without gap if every bucket got energy |
| PricingLaws.SlicesConserve | backend/app/services/cost_engine.py:701-754 | the slices hold exactly the energy, are credited exactly what the baseline allows however they are cut, follow one another in position, and none passes the end of its tier |
| PricingLaws.QuoteIsRoundedOnce | backend/app/services/cost_engine.py:756-772 | cost and credit are non-negative and are the exact cost and the exact credit, each rounded once |
| PricingLaws.BillMeaning | backend/app/services/cost_engine.py:736-772 | a hundred times the exact cost is the sum over the slices of energy times price plus adjustment times a hundred plus surcharge; a slice is priced by a tier that resolves at its own bucket and position, and the credit is the credited energy times the credit price |
| PricingLaws.FlatRateCosts | backend/app/services/cost_engine.py:736-746 | a rate whose every mWh resolves one price costs the energy times that price plus adjustment, with its surcharge, rounded once |
| PricingLaws.DatedPriceMeans | backend/app/services/cost_engine.py:515-534 | where a dated price holds an instant, whatever resolves there has its price and no end |
| PricingLaws.MarginalWithinTier | backend/app/services/cost_engine.py:722-728 | up to its capacity a tier prices at once what it prices unit by unit |
| PricingLaws.BucketIsMarginal | backend/app/services/cost_engine.py:711-754 | a bucket costs what its mWh cost one by one, and is refused exactly when one of those is |
| PricingLaws.SlicingIsMarginal | backend/app/services/cost_engine.py:701-754 | a whole interval costs what its mWh cost one by one; it is refused exactly when one of those is or a first bucket without energy does not resolve |
| PublishedPricing.PublishedBucketsAreSteady | backend/app/services/cost_engine.py:615-639 | within a bucket of a published schedule the price of new energy depends on neither the instant nor the position inside a tier, whether or not it resolves |
| PublishedPricing.DatedBucketsAreSteady | backend/app/services/cost_engine.py:627-639 | dated prices only change at bounds of buckets |
| PublishedPricing.PublicationSuffices | backend/app/services/rate_workflow.py:1221-1237 | a schedule whose seasons all passed the check is published for an interval whose instants are classified into those seasons and known days |
| PublishedPricing.UnitResolves | backend/app/services/cost_engine.py:712-728 | a mWh resolves a tier with room for it exactly when it is neither unresolved nor cut by its tier's end |
| PublishedPricing.UnitsArePriced | backend/app/services/cost_engine.py:711-754 | the mWh of a bucket are priced exactly when none of them is refused |
| PublishedPricing.BucketsArePriced | backend/app/services/cost_engine.py:710-754 | all buckets of an interval are priced exactly when no mWh of any is refused |
| PublishedPricing.NoEnergyResolves | backend/app/services/cost_engine.py:712-727 | no energy resolves a tier with room exactly when it is neither unresolved nor cut nor at an inclusive tier end |
| PublishedPricing.PublishedRatePrices | backend/app/services/cost_engine.py:681-772 | a published schedule prices an interval at its unit-by-unit cost rounded once, and refuses it exactly when some mWh is unresolved or cut by its tier's end, or the first bucket is empty and that is refused |
| PublishedPricing.WholeRatePrices | backend/app/services/cost_engine.py:712-728 | with whole bounds and a whole position the only refusals are instants that do not resolve and an empty first bucket at an inclusive tier end |
| PublishedPricing.AccountRatePrices | backend/app/services/cost_engine.py:465-479 | with the two account tiers an interval that resolves is refused exactly when its energy reaches into the mWh that straddles a fractional threshold, or its first bucket is empty there or at an inclusive threshold |
| PublishedPricing.DatedRatePrices | backend/app/services/cost_engine.py:515-534 | dated prices price an interval exactly when each bucket with energy, and the first, has exactly one of them, at the unit-by-unit cost rounded once |
| PricingExamples.EmptyMinuteAtTheBoundIsRefused | backend/app/services/cost_engine.py:712-727 | a two-tier rate at its bound refuses a minute without energy and prices one with a single mWh |
| PricingExamples.FractionalThresholdIsRefused | backend/app/services/rate_workflow.py:2224-2231 | a threshold of 300000000.3 mWh refuses the mWh that crosses it and prices the one below |
| PricingExamples.SeasonChangeIsRefused | backend/app/services/cost_engine.py:468-474 | a seasonal account rate refuses an interval from the threshold's season into the next |
| DraftSchedules.HigherSumHigherRank | backend/app/schemas/billing.py:247-257 | what the draft check ranks higher by its sum the engine ranks higher by season first |
| DraftSchedules.DraftResolvesExactly | backend/app/schemas/billing.py:218-257 | for every accepted draft and usage the engine resolves the draft check's winner for new energy if and only if no higher-ranked period ends at that usage |
| DraftSchedules.SteppedDraftIsAccepted | backend/app/schemas/billing.py:218-263 | a summer tier below an all-season tier passes the draft check |
| DraftSchedules.SteppedDraftIsMissed | backend/app/services/cost_engine.py:536-586 | at the bound of that draft the engine does not resolve the upper tier |
| DraftSchedules.WinnerStaysExactly | backend/app/schemas/billing.py:233-262 | the winner at one usage is the winner at a higher usage it covers exactly when nothing more specific applies there |
| DraftSchedules.OverlaidDraftIsNotSplit | backend/app/services/cost_engine.py:722-728 | an accepted draft whose more specific tier starts inside an open one is resolved tier by tier but sliced as if there were only the open one |
| EnginePricing.EngineQuote | worker/app/jobs.py:778-796 | the worker quotes what the engine bills for the group at the position its members' intervals give it |
| EnginePricing.GroupIsChargedExactly | worker/app/jobs.py:778-838 | the members of a priced group are charged together the exact cost of its energy from the cycle position of the worker's own rows, rounded once, and credited what the baseline leaves |
| EnginePricing.ContextMeans | worker/app/jobs.py:610-636 | a group's context holds its position, what that leaves of the allocation but no less than zero, whether its scope is the full account, and the account's own terms |
| EnginePricing.OneMoreRow | worker/app/jobs.py:564-581 | one more row of the table moves the position by its energy if it is current, of a member, and lies in the counted time, and not otherwise |
| EnginePricing.QuotedExactly | worker/app/jobs.py:778-813 | a group is skipped exactly when its account has no terms or its cycle no position; otherwise it is quoted exactly when the engine bills it |
| EnginePricing.GroupEnergyIsCounted | worker/app/jobs.py:564-581 | a shared group's energy is what the cycle counts between its bounds |
| CycleCosts.JoinedBuckets | backend/app/services/cost_engine.py:710-754 | pricing two runs of buckets one after the other is pricing them together |
| CycleCosts.ChainIsOneRun | worker/app/jobs.py:520-610 | over adjacent aligned groups the exact costs at the worker's positions are those of one run, moved on by recovered energy |
| CycleCosts.CycleCostsAddUp | worker/app/jobs.py:520-610 | without recovered energy they add up to the unit-by-unit cost of all the energy from the first position on |
| BaselineCredit.AllocationIsDrawnOnce | worker/app/jobs.py:629-636 | over adjacent aligned groups without recovered energy the energy credited to all of them together is what one draw of the allocation left at the first position credits for their whole energy under a full account, and nothing under any other scope |
| TierPosition.EarlierIsDefined | worker/app/jobs.py:533-609 | an interval past the seed has a context whenever a later one has |
| TierPosition.PositionTelescopes | worker/app/jobs.py:564-610 | a later position is the earlier one plus the measured and recovered energy that ended in between |
| TierPosition.PositionIsMonotone | worker/app/jobs.py:564-610 | within a cycle the position never falls as intervals start later |
| TierPosition.AlignedEnergy | worker/app/jobs.py:564-581 | between aligned boundaries the measured energy is the energy of the group priced there |
| TierPosition.ChainTelescopes | worker/app/jobs.py:520-610 | over adjacent aligned groups the last position is the first plus every group's energy and everything recovered between |
| TierPosition.SeedCountsOnce | worker/app/jobs.py:554-581 | under a seed each ended interval is counted exactly when it lies wholly after what the seed covers |
| TierPosition.SeedIsTheStart | worker/app/jobs.py:531-610 | at the end of the seeded time the position is exactly the seeded energy |
| TierPosition.OneMoreInterval | worker/app/jobs.py:531-610 | one more interval in the history moves the position by its energy if it ended in time, after the seed, and not otherwise |
| TierPosition.OneMoreEvent | worker/app/jobs.py:531-610 | one more recovered gap moves the position by its energy if it is included and ended in time, after the seed, and not otherwise |
| TierPosition.NothingMeasured | worker/app/jobs.py:531-610 | without history the position is the seeded energy, or zero without a seed |
| TierPosition.RefusedExactly | worker/app/jobs.py:531-610 | an interval has no position exactly when its seed has no range or one outside the time from cycle start to interval, an authenticated interval straddles the end of the seeded time, or an unresolved gap reaches into the counted time |
| BillingCycle.WorkerCycleStart | worker/app/jobs.py:490-500 | the worker's month arithmetic yields a valid date on the billing day, the specified cycle start |
| BillingCycle.DashboardCycleStart | backend/app/routes/dashboard.py:157-169 | the dashboard's own computation yields the same start, and its cycle holds the date |
| BillingCycle.DateIsInItsCycle | worker/app/jobs.py:490-517 | every local date lies in the cycle computed for it |
| BillingCycle.CycleLength | worker/app/jobs.py:503-509 | a cycle has between 28 and 31 days, the length of the month it starts in |
| BillingCycle.EndStartsTheNextCycle | worker/app/jobs.py:512-517 | the end of a cycle is the start of the next |
| BillingCycle.ExactlyOneCycle | worker/app/jobs.py:490-517 | a date lies in a cycle if and only if that cycle's start is the one computed for the date |
| BillingCycle.OrdinalIsCalendarOrder | worker/app/jobs.py:509-509 | the day ordinals on which lengths are taken order dates exactly as the calendar does |
| AlertDebouncer.AlertScope.Apply | worker/app/jobs.py:1296-1416 | one observation changes condition, alerts and events as the transition specifies, and returns whether an alert opened or resolved |
| AlertDebouncer.AlertScope.AcknowledgeAlert | backend/app/routes/settings.py:933-950 | acknowledges exactly unresolved alerts and refuses resolved ones |
| AlertDebouncer.RunIsFaithful | worker/app/jobs.py:1296-1416 | after every history the stored condition summarizes the streak since the last inactive observation, only the newest alert can be unresolved, and events match alerts |
| AlertDebouncer.UnresolvedExactlyWhenQualified | worker/app/jobs.py:1296-1416 | there is one unresolved alert if some observation of the current streak met age and count outside maintenance, and none otherwise |
| AlertDebouncer.ReturnsCountEvents | worker/app/jobs.py:1319-1416 | the returned ones add up to the opened plus resolved events, which differ by the number of unresolved alerts |
| GuardedStore.Table.BeginTransaction | backend/app/db.py:15-22 | a new transaction starts with no writes and no locks; a running one is unaffected |
| GuardedStore.Table.LockForWrite | backend/alembic/versions/20260815_0008_ingestion_evidence_integrity.py:61-64 | a write proceeds exactly when no other transaction holds its row or its parent |
| GuardedStore.Table.GuardAndWrite | backend/alembic/versions/20260815_0008_ingestion_evidence_integrity.py:66-77 | the trigger raises exactly when the row conflicts with committed rows or the transaction's own; otherwise the row joins its writes |
| GuardedStore.Table.DeleteRow | backend/alembic/versions/20260815_0010_permanent_loss_evidence_immutability.py:69-79 | a delete is refused in an insert-only table and otherwise needs the row to be free |
| GuardedStore.Table.CommitTransaction | backend/app/db.py:15-22 | commit makes the transaction's writes visible and releases its locks |
| GuardedStore.Table.AbortTransaction | backend/app/db.py:15-22 | abort drops the transaction's writes and locks and nothing else |
| GuardedStore.StepKeepsInv | backend/alembic/versions/20260815_0008_ingestion_evidence_integrity.py:52-157 | every step of every transaction keeps committed rows and all transactions' views free of conflicts |
| GuardedStore.EveryRunStaysClean | backend/alembic/versions/20260815_0008_ingestion_evidence_integrity.py:52-157 | so does every interleaving |
| GuardedStore.CommittedRowsAreForever | backend/alembic/versions/20260815_0010_permanent_loss_evidence_immutability.py:43-99 | in an insert-only table no interleaving removes or rewrites a committed row |
| GuardedStore.RaceCommitsBoth | backend/alembic/versions/20260815_0008_ingestion_evidence_integrity.py:61-64 | two rows with different parents can both commit, whether they conflict or not |
| EvidenceGuards.GuardsDecideAdmission | backend/alembic/versions/20260815_0008_ingestion_evidence_integrity.py:52-126 | the store admits an insert exactly when its columns are in order, its sequence is new and the table's trigger does not raise |
| EvidenceGuards.CleanIsConsistent | backend/alembic/versions/20260815_0008_ingestion_evidence_integrity.py:66-121 | pairwise absence of conflicts is the same as no sequence both read and lost and none lost twice |
| EvidenceGuards.PreflightDecides | backend/alembic/versions/20260815_0008_ingestion_evidence_integrity.py:160-198 | the migration's two queries find nothing exactly on consistent tables |
| EvidenceGuards.EvidenceStaysConsistent | backend/alembic/versions/20260815_0008_ingestion_evidence_integrity.py:52-198 | from the preflight on, in every interleaving, no sequence of a device is both read and lost and loss ranges are disjoint |
| EvidenceGuards.EvidenceIsForever | backend/alembic/versions/20260815_0010_permanent_loss_evidence_immutability.py:43-99 | once updates and deletes are refused, every committed reading and loss stays as it is |
| EvidenceGuards.DeviceLockIsNeeded | backend/alembic/versions/20260815_0008_ingestion_evidence_integrity.py:61-64 | with separate locks for readings and losses a reading inside a lost range commits |
| RateAssignments.GuardDecidesAdmission | backend/alembic/versions/20260815_0011_rate_workflow_integrity.py:222-254 | the store admits an insert or update exactly when the overlap trigger does not raise |
| RateAssignments.PreflightDecides | backend/alembic/versions/20260815_0011_rate_workflow_integrity.py:50-67 | the two assignment queries find nothing exactly when all ranges are ordered and none of an account overlap |
| RateAssignments.AssignmentsNeverOverlap | backend/alembic/versions/20260815_0011_rate_workflow_integrity.py:222-254 | in every interleaving of inserts, updates and deletes no instant of an account is covered twice |
| RateAssignments.LookUp | worker/app/jobs.py:239-264 | finds an assignment if and only if it is the only one of the account whose version is published and which, like its version, covers every instant of the interval |
| RateAssignments.SpanIsCoverage | worker/app/jobs.py:239-264 | the comparison of bounds decides that every instant of a non-empty interval is covered |
| RateAssignments.LookUpIsNeverAmbiguous | worker/app/jobs.py:239-264 | after any interleaving at most one assignment spans an interval whose end is after its start |
| ReviewLifecycle.ListenerIsTriggerPlusTierRule | backend/app/models.py:1731-1784 | the listener accepts exactly what the trigger accepts with the tier rule kept outside review |
| ReviewLifecycle.ListenerWithinTrigger | backend/alembic/versions/20260817_0014_disposable_artifacts.py:67-176 | every update the listener accepts is accepted by the trigger |
| ReviewLifecycle.TriggerMissesTierRule | backend/alembic/versions/20260817_0014_disposable_artifacts.py:132-149 | the trigger and the check constraint let any published review change its tier rule on activation |
| ReviewLifecycle.EvidenceTracksState | backend/app/models.py:1115-1132 | the check constraint holds if and only if version and publication time are present exactly from publication on, account and activation time exactly on activation, and plan and start unless rejected |
| ReviewLifecycle.PublicationFreezes | backend/alembic/versions/20260817_0014_disposable_artifacts.py:94-174 | over any accepted run plan, dates, reviewing user, version and publication time are frozen from publication on |
| ReviewLifecycle.PublicationFreezesTierRule | backend/app/models.py:1777-1784 | over any run of the application's own updates the tier rule is frozen too |
| ReviewLifecycle.TerminalRowsNeverChange | backend/alembic/versions/20260817_0014_disposable_artifacts.py:94-174 | an activated or rejected row is the last version of its history |
| ReviewLifecycle.PublishedRowsCannotBeDeleted | backend/alembic/versions/20260817_0014_disposable_artifacts.py:67-96 | no row can be deleted at or after publication |
| RateSchedule.ValidatePeriodCoverage | backend/app/schemas/billing.py:189-263 | the validator's outcome, error by error, is the verdict whose schedule clause ranges over all non-negative real usages |
| RateSchedule.SeasonSetMatches | backend/app/schemas/billing.py:197-200 | accepts exactly lists of seasons without repetition |
| RateSchedule.SortedMonths | backend/app/schemas/billing.py:193-195 | the sorted months are one to twelve exactly when the two lists partition the year |
| RateSchedule.TierSamples | backend/app/schemas/billing.py:222-231 | the samples are all tier boundaries in order, the midpoints between neighbours and a point past the last |
| RateSchedule.ScheduleResolves | backend/app/schemas/billing.py:233-262 | accepts exactly when every listed season and day type resolves all day at all samples |
| RateSchedule.DayResolves | backend/app/schemas/billing.py:235-262 | accepts exactly when all 1440 minutes resolve at all samples |
| RateSchedule.MinuteResolves | backend/app/schemas/billing.py:236-262 | accepts exactly when each sample has one most specific period |
| RateSchedule.RemainingDecides | backend/app/schemas/billing.py:237-257 | one candidate remains after the specificity filter exactly when one applicable period is strictly more specific than all others |
| RateSchedule.SamplingDecides | backend/app/schemas/billing.py:218-263 | resolving at any samples that hold all boundaries is resolving at every non-negative usage |
| RateSchedule.ExtraSamplesAreRedundant | backend/app/schemas/billing.py:228-231 | two samplings that hold all boundaries always agree |
| SeccompFilter.BuildFilter | backend/app/bill_rate_import/sandbox_launcher.py:389-408 | fails exactly on unknown machines; the built program halts within its length and decides every call as promised |
| SeccompFilter.CompilerIsCorrect | backend/app/bill_rate_import/sandbox_launcher.py:395-408 | for any numbers and any call the program returns kill on a foreign architecture, EPERM on a listed number, allow otherwise, in at most its length in steps |
| SeccompFilter.OffsetsAreSmall | backend/app/bill_rate_import/sandbox_launcher.py:381-408 | every jump offset is zero or one, so none is truncated by its byte |
| SeccompFilter.LengthFits | backend/app/bill_rate_import/sandbox_launcher.py:409-414 | the 16-bit length field is exact if and only if at most 32765 numbers are denied |
| CanonicalRequest.QuoteRoundTrip | backend/app/security/protocol.py:23-32 | unquoting undoes quoting for every text, by percent-encoding of UTF-8 bytes as in section 2.1 of RFC 3986 |
| CanonicalRequest.QuoteIsNormal | backend/app/security/protocol.py:23-30 | quoted text holds only unreserved and safe characters and upper-case escapes of bytes that need one, as in section 2.3 of RFC 3986 |
| CanonicalRequest.JoinRoundTrip | backend/app/security/protocol.py:24-26 | parsing a printed list of encoded pairs returns the list |
| CanonicalRequest.CanonicalIsJoin | backend/app/security/protocol.py:24-26 | the canonical query prints a permutation of the parsed pairs in ascending order of their encodings |
| CanonicalRequest.ParseUndoesCanonical | backend/app/security/protocol.py:23-26 | parsing the canonical query returns the same multiset of pairs |
| CanonicalRequest.OrderIsIrrelevant | backend/app/security/protocol.py:23-26 | queries with the same multiset of pairs have the same canonical form |
| CanonicalRequest.CanonicalQueryDecides | backend/app/security/protocol.py:23-26 | two canonical queries are equal if and only if the multisets of pairs are |
| CanonicalRequest.CanonicalQueryIsIdempotent | backend/app/security/protocol.py:23-26 | canonicalizing twice is canonicalizing once |
| CanonicalRequest.CanonicalPathDecides | backend/app/security/protocol.py:29-32 | two canonical paths are equal if and only if the paths are and the queries hold the same pairs, so path and query split uniquely |
| CanonicalRequest.CanonicalPathIsOneLine | backend/app/security/protocol.py:29-32 | a canonical path never contains a line break, whatever the path and query hold |
| CanonicalRequest.SignedBytesDecide | backend/app/security/protocol.py:35-54 | signing refuses exactly digests that are not 64 lower-case characters; any two signed texts are equal if and only if their digests and their lines are |
| CanonicalRequest.UnambiguousExactly | backend/app/security/protocol.py:35-54 | the signed bytes determine method, path, query pairs, timestamp, nonce and digest if and only if timestamp and nonce hold no line break and no line of the method after its first is a canonical path |
| CanonicalRequest.OneLineVerb | backend/app/security/protocol.py:45-54 | a one-line method has no such line |
| CanonicalRequest.LineBreaksAreAmbiguous | backend/app/security/protocol.py:45-54 | a line break could move between timestamp and nonce without changing the signed bytes |
| QueryLaws.PathIsKeptExactly | backend/app/security/protocol.py:29-30 | a path is signed as it is if and only if it holds nothing but unreserved characters, slashes, and the segment characters of section 3.3 of RFC 3986 |
| QueryLaws.TextIsKeptExactly | backend/app/security/protocol.py:25 | a key or value is printed as it is if and only if it holds nothing but unreserved characters |
| QueryLaws.PercentMeans | backend/app/security/protocol.py:24 | a percent sign with two hex digits of either case is their byte, and without them itself |
| QueryLaws.PlainTextIsKept | backend/app/security/protocol.py:24 | a text without percent sign unquotes to itself, ASCII or not |
| QueryLaws.PlusIsSpace | backend/app/security/protocol.py:24 | a plus sign between quoted texts parses as a space |
| QueryLaws.QueriesConcatenate | backend/app/security/protocol.py:24 | queries joined by an ampersand hold the pairs of both |
| QueryLaws.OneField | backend/app/security/protocol.py:24 | a field is split at its first equals sign, a field without one has a blank value, and an empty field is nothing |
| QueryLaws.CanonicalOrder | backend/app/security/protocol.py:25-26 | the canonical query lists the pairs by quoted key, then quoted value, each compared by the first character that differs |
| QueryLaws.UpperMeans | backend/app/security/protocol.py:48 | small letters of the method become their capitals and everything else is kept |
| QueryLaws.SixLines | backend/app/security/protocol.py:45-54 | the bytes of a request without line breaks decode to six lines: scheme, method in capitals, canonical path, timestamp, nonce, digest |
| QueryLaws.RefusedExactly | backend/app/security/protocol.py:43-44 | a request is refused exactly when its digest is not 64 characters long or holds a capital letter |
| Utf8.RoundTrip | backend/app/security/protocol.py:45-54 | decoding undoes encoding for every text, so the signed bytes determine the signed text |
| Utf8.CharRoundTrip | backend/app/security/protocol.py:45-54 | the encoding of a character decodes to it whatever bytes follow |
| NonceStore.DeviceNonces.Authenticate | backend/app/security/device_auth.py:35-108 | a correctly signed request is accepted exactly inside the two-sided window with an unknown nonce, and a committed acceptance stores the nonce |
| NonceStore.DeviceNonces.CleanupNonces | worker/app/jobs.py:230-233 | removes exactly the nonces seen before the cutoff and returns their number |
| NonceStore.RetentionSuffices | backend/app/security/protocol.py:81-89 | if retention covers both windows and the lag, no run accepts a committed message twice |
| NonceStore.ReplaySucceeds | worker/app/jobs.py:230-233 | otherwise a message accepted at the early edge is cleaned up and accepted again at the late edge |
| NonceStore.AtMostOnceExactly | backend/app/security/device_auth.py:98-104 | acceptance is at most once in every run if and only if retention covers both windows and the lag |
| NonceStore.SafeExactlyOnWholeSeconds | worker/app/jobs.py:230-233 | with 300 seconds and 10 minutes that is if and only if insertions happen on whole seconds |
| HistoryView.SweepDevice | backend/app/routes/dashboard.py:1107-1122 | one device's missing ranges are non-empty, ordered, apart, and exactly the range minus the union of its intervals |
| HistoryView.SweepSorted | backend/app/routes/dashboard.py:1113-1122 | the same for rows sorted by start, overlapping or not |
| HistoryView.MissingRanges | backend/app/routes/dashboard.py:1104-1122 | every device is reported by its exact complement, no other device is, and without devices the whole range is missing |
| HistoryView.BucketSeconds | backend/app/routes/dashboard.py:793-805 | a requested resolution is refused exactly when unsupported; without one, up to a day selects 300 seconds, up to 7 days 900, up to 31 days 3600, and more 86400 |
| HistoryView.FillBuckets | backend/app/routes/dashboard.py:953-958 | each bucket of the dictionary holds exactly the rows of its index, in order |
| HistoryView.BuildPoints | backend/app/routes/dashboard.py:976-1024 | there is one specified point per bucket, and completeness is that of all buckets |
| HistoryView.History | backend/app/routes/dashboard.py:828-1132 | refuses bad ranges, unsupported resolutions and more than 20,000 points, in this order, and otherwise returns the specified answer |
| HistoryView.RowHasItsBucket | backend/app/routes/dashboard.py:949-958 | every row falls in exactly one bucket of the answer, the one whose span holds its start |
| HistoryView.BucketingConserves | backend/app/routes/dashboard.py:1011-1132 | point energies add up to the total energy, and point costs to the total cost whenever one is reported, also for aggregates |
| HistoryView.SingleSensorCost | backend/app/routes/dashboard.py:1013-1132 | for one sensor a total cost is reported exactly when there are rows and all are priced, and the point costs add up to it |
| HistoryLaws.PointMeans | backend/app/routes/dashboard.py:949-1100 | each point is aligned to its bucket, reaches into the range, and has the energy, and the cost if reported, of the rows that start in it |
| HistoryLaws.OnePointPerInstant | backend/app/routes/dashboard.py:949-978 | every instant of the range lies in the bucket of exactly one point |
| HistoryLaws.SilentDeviceHidesTotals | backend/app/routes/dashboard.py:1006-1024 | a selected device without rows hides the totals and every point cost of an aggregate |
| HistoryLaws.AggregateReportsMeasured | backend/app/routes/dashboard.py:976-1010 | any aggregate reports its energy exactly when something was measured and each device measured in each bucket for as long as the bucket is visible, and its cost exactly when besides all rows are priced |
| HistoryLaws.AggregateReportsExactly | backend/app/routes/dashboard.py:1006-1132 | where rows of a device do not overlap and none crosses a bucket bound that is exactly when every instant is covered for every device |
| HistoryLaws.PointReportsExactly | backend/app/routes/dashboard.py:1006-1024 | and a point reports a cost exactly when rows start in it, all are priced, and for an aggregate every device covers its visible part |
| HistoryLaws.NothingMissing | backend/app/routes/dashboard.py:1104-1122 | no range is missing exactly when every instant is covered for every device |
| HistoryLaws.CrossingRowHidesTotals | backend/app/routes/dashboard.py:953-1010 | a row across a bucket bound covers everything and hides the totals |
| HistoryLaws.OverlapCountsTwice | backend/app/routes/dashboard.py:985-1010 | two overlapping rows leave half a bucket uncovered and the energy is reported |

## Left out

- The tier-threshold resolver, and how calendars and time zones classify an instant: parameters.
- Decimal precision: the engine's decimals are exact, without the 28 significant digits of Python's default context.
- Account tiers other than the two that publication writes: a bill import of a draft with more tiers stores an empty one.
- Fixed charges, live rates and billing estimates of the cost engine.
- Cost runs, period names and the `unpriceable` metric: bookkeeping without influence on selections.
- Order of two rows of one device in a group: the query orders by device only; the model takes table order for the tie.
- `source_authenticated` in the pricing loop: a check constraint makes it always true (backend/app/models.py:819).
- Designated members in another home: `RateResolution.Consistent` says that a home total only carries devices of its home.
- The cursor file: its reading, writing, fsync and malformed contents.
- Identities: UUID strings and their order are integers.
- Time zones and daylight saving: cycles are on local civil dates, other instants on one line; Python's year bounds too.
- Alert evidence and severity, and how observations and maintenance windows come about.
- Savepoints, deadlocks and isolation levels other than READ COMMITTED; a blocked step leaves the store unchanged.
- Separate identity spaces of readings and losses: the model gives both tables one space of identities.
- Attribute history in the ORM: the listener is modelled with its old values loaded.
- Price, charge and provenance fields of a draft; rounding of decimal midpoints, which cannot change the answer.
- Credential selection, HMAC, key derivation and body digests: the nonce model starts from a correctly signed request.
- Case mapping beyond ASCII for methods and digests, and lone surrogates in texts.
- History values, quality, completeness ratio and connection gaps; instants below a second.
- Landlock, resource limits and the system call that installs the filter.
- Hourly rollups, exports, settings, authentication, ingestion and firmware.
